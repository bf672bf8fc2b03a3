/**
 Which rows name which stored files: services/upload_service.py under the writes of
 services/crud_service.py and the pass of services/sweep_service.py, one request at a time.
 */
module Uploads {
  import opened Outcomes

  // ---------------------------------------------------------------- what a value names

  predicate IsHex(c: char) {
    '0' <= c <= '9' || 'a' <= c <= 'f' || 'A' <= c <= 'F'
  }

  function Lower(c: char): char {
    if 'A' <= c <= 'F' then c - 'A' + 'a' else c
  }

  predicate Dash(j: nat) {
    j == 8 || j == 13 || j == 18 || j == 23
  }

  predicate MatchesAt(s: string, i: nat) {
    i + 36 <= |s| && forall j :: 0 <= j < 36 ==> if Dash(j) then s[i + j] == '-' else IsHex(s[i + j])
  }

  function Lowered(s: string): string {
    seq(|s|, j requires 0 <= j < |s| => Lower(s[j]))
  }

  /** Every identifier a value carries from a position on, each match starting past the one before it. */
  function UuidsFrom(s: string, i: nat): set<string>
    decreases |s| - i
  {
    if i + 36 > |s| then {}
    else if MatchesAt(s, i) then {Lowered(s[i..i + 36])} + UuidsFrom(s, i + 36)
    else UuidsFrom(s, i + 1)
  }

  function UuidsIn(s: string): set<string> {
    UuidsFrom(s, 0)
  }

  predicate IsUuid(s: string) {
    |s| == 36 && MatchesAt(s, 0) && Lowered(s) == s
  }

  lemma {:induction false} UuidsAreUuids(s: string, i: nat)
    ensures forall u <- UuidsFrom(s, i) :: IsUuid(u)
    decreases |s| - i
  {
    if i + 36 <= |s| {
      if MatchesAt(s, i) {
        UuidsAreUuids(s, i + 36);
        var u := Lowered(s[i..i + 36]);
        forall j | 0 <= j < 36 ensures u[j] == Lower(s[i + j]) && Lower(u[j]) == u[j] {}
        assert Lowered(u) == u;
      } else {
        UuidsAreUuids(s, i + 1);
      }
    }
  }

  /** Scanning an identifier finds exactly itself, so a set of identifiers survives another scan. */
  lemma UuidNamesItself(u: string)
    requires IsUuid(u)
    ensures UuidsIn(u) == {u}
  {
    assert u[0..36] == u;
    assert UuidsFrom(u, 36) == {};
  }

  /** A hexadecimal digit in either case, and its lower case. */
  lemma CharactersAre(c: char)
    ensures IsHex(c) <==> c in "0123456789abcdefABCDEF"
    ensures Lower(c) == c <==> c !in "ABCDEF"
    ensures c == 'A' ==> Lower(c) == 'a'
    ensures c == 'B' ==> Lower(c) == 'b'
    ensures c == 'C' ==> Lower(c) == 'c'
    ensures c == 'D' ==> Lower(c) == 'd'
    ensures c == 'E' ==> Lower(c) == 'e'
    ensures c == 'F' ==> Lower(c) == 'f'
    ensures c in "ABCDEF" ==> Lower(c) in "abcdef"
  {
  }

  predicate Over(a: nat, i: nat) {
    a <= i < a + 36
  }

  /** That many hexadecimal digits. */
  predicate Digits(s: string, from: nat, n: nat) {
    from + n <= |s| && forall k :: from <= k < from + n ==> s[k] in "0123456789abcdefABCDEF"
  }

  /** An identifier is eight digits, three times four and twelve, with dashes between. */
  lemma PatternIs(s: string, i: nat)
    ensures MatchesAt(s, i) <==>
              && i + 36 <= |s|
              && Digits(s, i, 8) && s[i + 8] == '-' && Digits(s, i + 9, 4) && s[i + 13] == '-' && Digits(s, i + 14, 4)
              && s[i + 18] == '-' && Digits(s, i + 19, 4) && s[i + 23] == '-' && Digits(s, i + 24, 12)
  {
    forall c: char ensures IsHex(c) <==> c in "0123456789abcdefABCDEF" { CharactersAre(c); }
    hide IsHex;
    if MatchesAt(s, i) {
      forall k | i <= k < i + 36 ensures if Dash(k - i) then s[k] == '-' else IsHex(s[k]) {
        assert s[i + (k - i)] == s[k];
      }
      assert Dash(8) && Dash(13) && Dash(18) && Dash(23);
    }
    if i + 36 <= |s| && Digits(s, i, 8) && s[i + 8] == '-' && Digits(s, i + 9, 4) && s[i + 13] == '-' && Digits(s, i + 14, 4)
      && s[i + 18] == '-' && Digits(s, i + 19, 4) && s[i + 23] == '-' && Digits(s, i + 24, 12) {
      forall j | 0 <= j < 36 ensures if Dash(j) then s[i + j] == '-' else IsHex(s[i + j]) {}
    }
  }

  /** Where matches of a value are taken from a position on: none reaches into another, and every match there is starts within one that is taken. */
  ghost predicate Leftmost(s: string, from: nat, at: set<nat>) {
    && (forall a <- at :: from <= a && MatchesAt(s, a))
    && (forall a, b :: a in at && b in at && a < b ==> a + 36 <= b)
    && (forall i: nat :: from <= i && MatchesAt(s, i) ==> exists a <- at :: Over(a, i))
  }

  lemma TakeOne(s: string, from: nat, rest: set<nat>)
    requires MatchesAt(s, from) && Leftmost(s, from + 36, rest)
    ensures Leftmost(s, from, {from} + rest)
  {
    hide MatchesAt;
    var at := {from} + rest;
    assert forall a :: a in at <==> a == from || a in rest;
    forall i: nat | from <= i && MatchesAt(s, i) ensures exists a <- at :: Over(a, i) {
      var a := if i < from + 36 then from else (var b :| b in rest && Over(b, i); b);
      assert a in at && Over(a, i);
    }
  }

  lemma SkipOne(s: string, from: nat, rest: set<nat>)
    requires !MatchesAt(s, from) && Leftmost(s, from + 1, rest)
    ensures Leftmost(s, from, rest)
  {
    hide MatchesAt;
  }

  lemma NoneLeft(s: string, from: nat)
    requires from + 36 > |s|
    ensures Leftmost(s, from, {})
  {
  }

  function Slices(s: string, at: set<nat>): set<string> {
    set a <- at | a + 36 <= |s| :: Lowered(s[a..a + 36])
  }

  lemma SlicesOfMore(s: string, from: nat, rest: set<nat>)
    requires from + 36 <= |s|
    ensures Slices(s, {from} + rest) == {Lowered(s[from..from + 36])} + Slices(s, rest)
  {
    hide Lowered;
  }

  /** What a scan finds is the lower case of the leftmost matches and nothing else, so every match is found or overlaps one that is. */
  lemma {:induction false} ScanTakesLeftmost(s: string, from: nat) returns (at: set<nat>)
    ensures Leftmost(s, from, at) && UuidsFrom(s, from) == Slices(s, at)
    decreases |s| - from
  {
    hide Lowered, MatchesAt, Leftmost, Slices;
    if from + 36 > |s| {
      at := {};
      NoneLeft(s, from);
      assert Slices(s, {}) == {} by { NoSlices(s); }
    } else if MatchesAt(s, from) {
      var rest := ScanTakesLeftmost(s, from + 36);
      at := {from} + rest;
      TakeOne(s, from, rest);
      SlicesOfMore(s, from, rest);
    } else {
      at := ScanTakesLeftmost(s, from + 1);
      SkipOne(s, from, at);
    }
  }

  lemma NoSlices(s: string)
    ensures Slices(s, {}) == {}
  {
  }

  /** Wherever an identifier stands in a value, it is found, or one that overlaps it and stands before it is. */
  lemma EveryMatchIsFound(s: string, i: nat)
    requires MatchesAt(s, i)
    ensures exists a: nat :: Over(a, i) && MatchesAt(s, a) && Lowered(s[a..a + 36]) in UuidsIn(s)
  {
    var at := ScanTakesLeftmost(s, 0);
    hide Lowered;
    var a :| a in at && Over(a, i);
    assert Lowered(s[a..a + 36]) in Slices(s, at);
  }

  lemma MatchHas(s: string, i: nat, j: nat)
    requires MatchesAt(s, i) && j < 36
    ensures s[i + j] == '-' || IsHex(s[i + j])
  {
    assert Dash(j) || !Dash(j);
  }

  lemma SameMatch(s: string, i: nat, t: string, k: nat)
    requires i + 36 <= |s| && k + 36 <= |t| && s[i..i + 36] == t[k..k + 36]
    ensures MatchesAt(s, i) <==> MatchesAt(t, k)
  {
    forall j: nat | j < 36 ensures s[i + j] == t[k + j] && (Dash(j) || !Dash(j)) {
      assert s[i + j] == s[i..i + 36][j] && t[k + j] == t[k..k + 36][j];
    }
  }

  lemma {:induction false} ScanShifts(a: string, b: string, k: nat)
    ensures UuidsFrom(a + b, |a| + k) == UuidsFrom(b, k)
    decreases |b| - k
  {
    hide Lowered;
    if k + 36 <= |b| {
      assert (a + b)[|a| + k..|a| + k + 36] == b[k..k + 36];
      SameMatch(a + b, |a| + k, b, k);
      hide MatchesAt;
      if MatchesAt(b, k) {
        ScanShifts(a, b, k + 36);
      } else {
        ScanShifts(a, b, k + 1);
      }
    }
  }

  /** A character no identifier has keeps what is before it and what is after it apart. */
  lemma {:induction false} ScanSplits(a: string, c: char, b: string, k: nat)
    requires k <= |a| && c != '-' && !IsHex(c)
    ensures UuidsFrom(a + [c] + b, k) == UuidsFrom(a, k) + UuidsFrom(b, 0)
    decreases |a| - k
  {
    hide Lowered;
    var s := a + [c] + b;
    assert s[|a|] == c;
    if k == |a| {
      ScanShifts(a + [c], b, 0);
      if MatchesAt(s, k) {
        MatchHas(s, k, 0);
      }
    } else if k + 36 <= |a| {
      assert s[k..k + 36] == a[k..k + 36];
      SameMatch(s, k, a, k);
      hide MatchesAt;
      ScanSplits(a, c, b, if MatchesAt(a, k) then k + 36 else k + 1);
    } else {
      if MatchesAt(s, k) {
        MatchHas(s, k, |a| - k);
      }
      ScanSplits(a, c, b, k + 1);
      assert UuidsFrom(a, k + 1) == {};
    }
  }

  /** So a key, whose identifier stands between a slash and a dot or another slash, names it, and beside it only what its folder or its file name does. */
  lemma KeyNamesItsFile(folder: string, uuid: string, mark: char, rest: string)
    requires |uuid| == 36 && MatchesAt(uuid, 0) && mark in "./"
    ensures UuidsIn(folder + "/" + uuid + [mark] + rest) == UuidsIn(folder) + {Lowered(uuid)} + UuidsIn(rest)
  {
    hide IsHex, Lowered;
    CharactersAre('/');
    CharactersAre('.');
    var tail := uuid + [mark] + rest;
    assert folder + "/" + uuid + [mark] + rest == folder + ['/'] + tail;
    ScanSplits(folder, '/', tail, 0);
    ScanSplits(uuid, mark, rest, 0);
    assert uuid[0..36] == uuid && UuidsFrom(uuid, 36) == {};
    hide MatchesAt;
    assert UuidsFrom(uuid, 0) == {Lowered(uuid)};
  }

  function NamedIn(values: set<string>): set<string> {
    set v <- values, u <- UuidsIn(v) :: u
  }

  lemma NamedAgain(us: set<string>)
    requires forall u <- us :: IsUuid(u)
    ensures NamedIn(us) == us
  {
    forall u <- us ensures UuidsIn(u) == {u} { UuidNamesItself(u); }
  }

  lemma NamedAreUuids(values: set<string>)
    ensures forall u <- NamedIn(values) :: IsUuid(u)
  {
    forall v <- values ensures forall u <- UuidsIn(v) :: IsUuid(u) { UuidsAreUuids(v, 0); }
  }

  // ---------------------------------------------------------------- the rows

  /** A row, by its table and its id. */
  type Owner = (nat, nat)

  /** What the columns of a row hold: its file columns, its markup and free-form ones, and the ids it points at. */
  datatype Record = Record(files: set<string>, texts: set<string>, refs: map<string, nat>)

  datatype StoredFile = StoredFile(key: string, createdAt: int, claimedAt: Option<nat>)

  /** The rows, the files by the identifier in their key, the mentions, the objects in the bucket, and the clock. */
  datatype Store = Store(rows: map<Owner, Record>, files: map<string, StoredFile>, mentions: set<(Owner, string)>, bucket: set<string>)

  function Names(r: Record): set<string> {
    NamedIn(r.files + r.texts)
  }

  function Of(mentions: set<(Owner, string)>, o: Owner): set<string> {
    set m <- mentions | m.0 == o :: m.1
  }

  predicate Mentioned(mentions: set<(Owner, string)>, u: string) {
    exists m <- mentions :: m.1 == u
  }

  /** What a row names of what is stored is what is written down of it. */
  ghost predicate Exact(s: Store) {
    && (forall o <- s.rows :: Of(s.mentions, o) == Names(s.rows[o]) * s.files.Keys)
    && (forall m <- s.mentions :: m.0 in s.rows)
  }

  /** A stored file has its object, a key of its own, and an identifier that is one. */
  ghost predicate Kept(s: Store) {
    && (forall u <- s.files :: IsUuid(u) && s.files[u].key in s.bucket)
    && (forall u, v :: u in s.files && v in s.files && u != v ==> s.files[u].key != s.files[v].key)
  }

  /** A file some row ever named is named now. */
  ghost predicate NothingLeft(s: Store) {
    && (forall u <- s.files :: s.files[u].claimedAt.Some? ==> Mentioned(s.mentions, u))
    && (forall m <- s.mentions :: m.1 in s.files ==> s.files[m.1].claimedAt.Some?)
  }

  ghost predicate Valid(s: Store) {
    Exact(s) && Kept(s) && NothingLeft(s)
  }

  // ---------------------------------------------------------------- what a save does

  /** A file column that newly names a file has to hold the very key of a stored one. */
  predicate Gone(files: map<string, StoredFile>, keys: set<string>, added: set<string>) {
    exists k <- keys :: UuidsIn(k) * added != {} && !HasKey(files, k)
  }

  predicate HasKey(files: map<string, StoredFile>, key: string) {
    exists u <- files :: files[u].key == key
  }

  function Claim(files: map<string, StoredFile>, added: set<string>, stamp: nat): map<string, StoredFile> {
    map u <- files :: if u in added then files[u].(claimedAt := Some(stamp)) else files[u]
  }

  function Without(files: map<string, StoredFile>, dropped: set<string>): map<string, StoredFile> {
    map u <- files | u !in dropped :: files[u]
  }

  function KeysOf(files: map<string, StoredFile>, us: set<string>): set<string> {
    set u <- us | u in files :: files[u].key
  }

  /** What a release discards of the files it is handed: those nothing names. */
  function Unnamed(s: Store, us: set<string>): set<string> {
    set u <- us | u in s.files && !Mentioned(s.mentions, u)
  }

  function Released(s: Store, us: set<string>): Store {
    s.(files := Without(s.files, Unnamed(s, us)), bucket := s.bucket - KeysOf(s.files, Unnamed(s, us)))
  }

  lemma MentionsHaveRows(s: Store)
    requires Valid(s)
    ensures forall m <- s.mentions :: m.0 in s.rows
  {
  }

  /** Whether some row names it, read from the rows themselves. */
  predicate NamedBy(rows: map<Owner, Record>, u: string) {
    exists o <- rows :: u in Names(rows[o])
  }

  lemma MentionedIsNamed(s: Store, u: string)
    requires Exact(s) && u in s.files
    ensures Mentioned(s.mentions, u) <==> NamedBy(s.rows, u)
  {
    if Mentioned(s.mentions, u) {
      var m :| m in s.mentions && m.1 == u;
      assert u in Of(s.mentions, m.0);
    }
    if NamedBy(s.rows, u) {
      var o :| o in s.rows && u in Names(s.rows[o]);
      assert u in Of(s.mentions, o);
      assert (o, u) in s.mentions;
    }
  }

  /** Handed everything that was claimed and is named no longer, a release leaves nothing behind. */
  lemma ReleasedKeepsValid(s: Store, us: set<string>)
    requires Exact(s) && Kept(s)
    requires forall u <- s.files :: s.files[u].claimedAt.Some? && !Mentioned(s.mentions, u) ==> u in us
    requires forall m <- s.mentions :: m.1 in s.files ==> s.files[m.1].claimedAt.Some?
    ensures Valid(Released(s, us))
  {
  }

  // ---------------------------------------------------------------- what goes with a row

  datatype Dependent = Dependent(table: nat, field: string, dependents: seq<Dependent>)

  type Link = (nat, string)

  /** The ids at the end of a path of references, read from the rows as they are when the statement runs. */
  function Reach(rows: map<Owner, Record>, root: set<nat>, path: seq<Link>): set<nat>
    decreases |path|
  {
    if path == [] then root
    else
      var (up, l) := (Reach(rows, root, path[..|path| - 1]), path[|path| - 1]);
      set o <- rows | o.0 == l.0 && l.1 in rows[o].refs && rows[o].refs[l.1] in up :: o.1
  }

  function Under(rows: map<Owner, Record>, root: set<nat>, path: seq<Link>): set<Owner>
    requires path != []
  {
    set id <- Reach(rows, root, path) :: (path[|path| - 1].0, id)
  }

  /** Dependents go one after the other, and what hangs below one of them before it. */
  function Cleared(rows: map<Owner, Record>, deps: seq<Dependent>, root: set<nat>, path: seq<Link>): (left: map<Owner, Record>)
    ensures left.Keys <= rows.Keys && forall o <- left :: left[o] == rows[o]
    decreases deps
  {
    if deps == [] then rows
    else
      var p := path + [(deps[0].table, deps[0].field)];
      var below := Cleared(rows, deps[0].dependents, root, p);
      Cleared(below - Under(below, root, p), deps[1..], root, path)
  }

  /** The rows some path of the declared tree leads to. */
  predicate Doomed(rows: map<Owner, Record>, deps: seq<Dependent>, root: set<nat>, path: seq<Link>, o: Owner)
    decreases deps
  {
    deps != [] &&
    var p := path + [(deps[0].table, deps[0].field)];
    o in Under(rows, root, p) || Doomed(rows, deps[0].dependents, root, p, o) || Doomed(rows, deps[1..], root, path, o)
  }

  function Tables(deps: seq<Dependent>): set<nat>
    decreases deps
  {
    if deps == [] then {} else {deps[0].table} + Tables(deps[0].dependents) + Tables(deps[1..])
  }

  function Inner(deps: seq<Dependent>): set<nat>
    decreases deps
  {
    if deps == [] then {}
    else (if deps[0].dependents == [] then {} else {deps[0].table}) + Inner(deps[0].dependents) + Inner(deps[1..])
  }

  /** Nothing the path goes through, or a later dependent still has to go through, is cleared on the way. */
  predicate Ordered(deps: seq<Dependent>, through: set<nat>)
    decreases deps
  {
    deps != [] ==>
      var d := deps[0];
      && Tables(deps) !! through
      && ({d.table} + Tables(d.dependents)) !! Inner(deps[1..])
      && (d.dependents != [] ==> d.table !in Tables(d.dependents))
      && Ordered(d.dependents, through + {d.table})
      && Ordered(deps[1..], through)
  }

  ghost predicate Thinned(before: map<Owner, Record>, rows: map<Owner, Record>, whole: set<nat>) {
    && rows.Keys <= before.Keys
    && (forall o <- rows :: rows[o] == before[o])
    && (forall o <- before :: o.0 in whole ==> o in rows)
  }

  lemma {:induction false} ReachIsKept(before: map<Owner, Record>, rows: map<Owner, Record>, whole: set<nat>, root: set<nat>, path: seq<Link>)
    requires Thinned(before, rows, whole) && forall i :: 0 <= i < |path| - 1 ==> path[i].0 in whole
    ensures path == [] ==> Reach(rows, root, path) == Reach(before, root, path)
    ensures path != [] ==> forall o <- rows :: o in Under(rows, root, path) <==> o in Under(before, root, path)
    ensures path != [] && path[|path| - 1].0 in whole ==> Reach(rows, root, path) == Reach(before, root, path)
    decreases |path|
  {
    if path != [] {
      var (up, l) := (path[..|path| - 1], path[|path| - 1]);
      ReachIsKept(before, rows, whole, root, up);
      assert up != [] ==> up[|up| - 1] == path[|path| - 2];
      assert Reach(rows, root, up) == Reach(before, root, up);
      forall o <- rows ensures o in Under(rows, root, path) <==> o in Under(before, root, path) {
        assert o in Under(rows, root, path) <==> o.0 == l.0 && o.1 in Reach(rows, root, path);
        assert o in Under(before, root, path) <==> o.0 == l.0 && o.1 in Reach(before, root, path);
      }
    }
  }

  lemma {:induction false} OnlyTablesAreCleared(rows: map<Owner, Record>, deps: seq<Dependent>, root: set<nat>, path: seq<Link>)
    ensures forall o <- rows :: o.0 !in Tables(deps) ==> o in Cleared(rows, deps, root, path)
    decreases deps
  {
    if deps != [] {
      var p := path + [(deps[0].table, deps[0].field)];
      var below := Cleared(rows, deps[0].dependents, root, p);
      OnlyTablesAreCleared(rows, deps[0].dependents, root, p);
      OnlyTablesAreCleared(below - Under(below, root, p), deps[1..], root, path);
    }
  }

  /**
   Deepest first, every row the tree leads to from the rows as they were is gone and no other one is, although each statement
   reads rows earlier ones already thinned, as long as no branch clears what another still has to go through.
   */
  lemma {:induction false} DependentsGoExactly(before: map<Owner, Record>, rows: map<Owner, Record>, deps: seq<Dependent>, root: set<nat>, path: seq<Link>, through: set<nat>)
    requires Thinned(before, rows, through + Inner(deps))
    requires Ordered(deps, through) && forall i :: 0 <= i < |path| ==> path[i].0 in through
    ensures forall o <- rows :: o in Cleared(rows, deps, root, path) <==> !Doomed(before, deps, root, path, o)
    decreases deps
  {
    if deps != [] {
      var d := deps[0];
      var p := path + [(d.table, d.field)];
      var below := Cleared(rows, d.dependents, root, p);
      var rest := below - Under(below, root, p);
      if d.dependents != [] {
        DependentsGoExactly(before, rows, d.dependents, root, p, through + {d.table});
      }
      OnlyTablesAreCleared(rows, d.dependents, root, p);
      assert Thinned(before, below, through);
      ReachIsKept(before, below, through, root, p);
      DependentsGoExactly(before, rest, deps[1..], root, path, through);
      assert d.dependents == [] ==> forall o :: !Doomed(before, d.dependents, root, p, o);
    }
  }

  lemma MentionsAreStored(s: Store)
    requires Exact(s)
    ensures forall m <- s.mentions :: m.1 in s.files && m.1 in Names(s.rows[m.0])
  {
    forall m <- s.mentions ensures m.1 in s.files && m.1 in Names(s.rows[m.0]) {
      assert m.1 in Of(s.mentions, m.0);
    }
  }

  /** What is left of the files once a row that named some of them stopped. */
  predicate Dropped(before: map<string, StoredFile>, files: map<string, StoredFile>, names: set<string>, rows: map<Owner, Record>) {
    && files.Keys <= before.Keys
    && forall u <- before :: u !in files <==> u in names && !NamedBy(rows, u)
  }

  lemma ReleasedDrops(s: Store, names: set<string>, us: set<string>)
    requires Exact(s) && us <= names
    requires forall u <- names :: u in us || u !in s.files || Mentioned(s.mentions, u)
    ensures Dropped(s.files, Released(s, us).files, names, s.rows)
  {
    forall u <- s.files ensures u !in Released(s, us).files <==> u in names && !NamedBy(s.rows, u) {
      MentionedIsNamed(s, u);
    }
  }

  /** What a release answers when it is handed at least all that stopped being named and at most what did name it. */
  lemma ReleasedSettles(s: Store, names: set<string>, us: set<string>)
    requires Exact(s) && Kept(s) && us <= names
    requires forall u <- s.files :: s.files[u].claimedAt.Some? && !Mentioned(s.mentions, u) ==> u in us
    requires forall m <- s.mentions :: m.1 in s.files ==> s.files[m.1].claimedAt.Some?
    requires forall u <- names :: u in us || u !in s.files || Mentioned(s.mentions, u)
    ensures var t := Released(s, us);
            && Valid(t) && Dropped(s.files, t.files, names, s.rows)
            && t.files == Without(s.files, s.files.Keys - t.files.Keys)
            && t.bucket == s.bucket - KeysOf(s.files, s.files.Keys - t.files.Keys)
  {
    ReleasedKeepsValid(s, us);
    ReleasedDrops(s, names, us);
    assert s.files.Keys - Released(s, us).files.Keys == Unnamed(s, us);
  }

  lemma StillNamed(s: Store, o: Owner, names: set<string>, us: set<string>)
    requires Exact(s) && o in s.rows && names - Names(s.rows[o]) <= us
    ensures forall u <- names :: u in us || u !in s.files || Mentioned(s.mentions, u)
  {
    forall u <- names | u !in us && u in s.files ensures Mentioned(s.mentions, u) {
      assert u in Of(s.mentions, o);
      assert (o, u) in s.mentions;
    }
  }

  /** An edit as it commits, and what it hands over to be released. */
  lemma UpdateSettles(s: Store, t: Store, o: Owner, r: Record, stamp: nat)
    requires Valid(s) && o in s.rows
    requires t == Store(s.rows[o := r], Claim(s.files, Names(r) - Of(s.mentions, o), stamp), t.mentions, s.bucket)
    requires Of(t.mentions, o) == Names(r) * s.files.Keys
    requires forall m: (Owner, string) :: m.0 != o ==> (m in t.mentions <==> m in s.mentions)
    ensures var names := Names(s.rows[o]);
            var us := (names - Names(r)) + (Of(s.mentions, o) - Names(r));
            var after := Released(t, us);
            && NamedIn(us) == us && Valid(after) && Dropped(s.files, after.files, names, t.rows)
            && after.files == Without(t.files, s.files.Keys - after.files.Keys)
            && after.bucket == s.bucket - KeysOf(s.files, s.files.Keys - after.files.Keys)
  {
    var names := Names(s.rows[o]);
    var us := (names - Names(r)) + (Of(s.mentions, o) - Names(r));
    RenamedIsExact(s, t, o, Names(r));
    NamedAreUuids(s.rows[o].files + s.rows[o].texts);
    assert Of(s.mentions, o) == names * s.files.Keys;
    NamedAgain(us);
    StillNamed(t, o, names, us);
    ReleasedSettles(t, names, us);
    SameKeys(s.files, t.files, s.files.Keys - Released(t, us).files.Keys);
    SameDrops(s.files, t.files, Released(t, us).files, names, t.rows);
  }

  lemma SameKeys(before: map<string, StoredFile>, files: map<string, StoredFile>, us: set<string>)
    requires before.Keys == files.Keys && forall u <- before :: before[u].key == files[u].key
    ensures KeysOf(before, us) == KeysOf(files, us)
  {
  }

  lemma SameDrops(before: map<string, StoredFile>, files: map<string, StoredFile>, after: map<string, StoredFile>, names: set<string>, rows: map<Owner, Record>)
    requires before.Keys == files.Keys && Dropped(files, after, names, rows)
    ensures Dropped(before, after, names, rows)
  {
  }

  /** A deletion as it commits, and what it hands over to be released. */
  lemma DeleteSettles(s: Store, t: Store, o: Owner, orphaned: set<string>)
    requires Valid(s) && t == s.(rows := t.rows, mentions := t.mentions)
    requires t.rows.Keys <= s.rows.Keys && forall p <- t.rows :: t.rows[p] == s.rows[p]
    requires t.mentions == (set m <- s.mentions | m.0 in t.rows)
    requires o in s.rows && o !in t.rows
    requires orphaned == Names(s.rows[o]) + (set m <- s.mentions | m.0 !in t.rows :: m.1)
    ensures var after := Released(t, orphaned);
            && NamedIn(orphaned) == orphaned && Valid(after) && Dropped(s.files, after.files, NamesOf(s.rows - t.rows.Keys), t.rows)
            && after.files == Without(s.files, s.files.Keys - after.files.Keys)
            && after.bucket == s.bucket - KeysOf(s.files, s.files.Keys - after.files.Keys)
  {
    ForgottenIsExact(s, t, o, orphaned);
    NamedAgain(orphaned);
    ReleasedSettles(t, NamesOf(s.rows - t.rows.Keys), orphaned);
  }

  /** One owner's mentions moved to what its row names now, nothing else did, and what it newly names is stamped. */
  lemma RenamedIsExact(s: Store, t: Store, o: Owner, names: set<string>)
    requires Valid(s) && o in t.rows && Names(t.rows[o]) == names
    requires t.rows == s.rows[o := t.rows[o]] && t.bucket == s.bucket
    requires t.files.Keys == s.files.Keys && forall u <- s.files :: t.files[u].key == s.files[u].key
    requires forall u <- s.files :: t.files[u].claimedAt.Some? <==> s.files[u].claimedAt.Some? || u in names - Of(s.mentions, o)
    requires Of(t.mentions, o) == names * s.files.Keys
    requires forall m: (Owner, string) :: m.0 != o ==> (m in t.mentions <==> m in s.mentions)
    ensures Exact(t) && Kept(t)
    ensures forall u <- t.files :: t.files[u].claimedAt.Some? && !Mentioned(t.mentions, u) ==> u in Of(s.mentions, o) - names
    ensures forall m <- t.mentions :: m.1 in t.files ==> t.files[m.1].claimedAt.Some?
  {
    forall p <- t.rows ensures Of(t.mentions, p) == Names(t.rows[p]) * t.files.Keys {
      if p != o {
        forall u: string ensures u in Of(t.mentions, p) <==> u in Of(s.mentions, p) {
          assert u in Of(t.mentions, p) <==> (p, u) in t.mentions;
          assert u in Of(s.mentions, p) <==> (p, u) in s.mentions;
        }
        assert Of(s.mentions, p) == Names(s.rows[p]) * s.files.Keys;
      }
    }
    forall u <- t.files | t.files[u].claimedAt.Some? && !Mentioned(t.mentions, u) ensures u in Of(s.mentions, o) - names {
      assert u in names ==> u in Of(t.mentions, o) && (o, u) in t.mentions;
      var m :| m in s.mentions && m.1 == u;
      assert m.0 != o ==> m in t.mentions;
    }
    forall m <- t.mentions | m.1 in t.files ensures t.files[m.1].claimedAt.Some? {
      if m.0 == o {
        assert m.1 in Of(t.mentions, o);
        assert m.1 in Of(s.mentions, o) ==> (o, m.1) in s.mentions;
      } else {
        assert m in s.mentions;
      }
    }
  }

  function NamesOf(rows: map<Owner, Record>): set<string> {
    set o <- rows, u <- Names(rows[o]) :: u
  }

  /** Rows went with their mentions, and what those mentions named is handed over. */
  lemma ForgottenIsExact(s: Store, t: Store, o: Owner, orphaned: set<string>)
    requires Valid(s) && t == s.(rows := t.rows, mentions := t.mentions)
    requires t.rows.Keys <= s.rows.Keys && forall o <- t.rows :: t.rows[o] == s.rows[o]
    requires t.mentions == (set m <- s.mentions | m.0 in t.rows)
    requires o in s.rows && o !in t.rows
    requires orphaned == Names(s.rows[o]) + (set m <- s.mentions | m.0 !in t.rows :: m.1)
    ensures Exact(t) && Kept(t) && (forall u <- orphaned :: IsUuid(u)) && orphaned <= NamesOf(s.rows - t.rows.Keys)
    ensures forall u <- t.files :: t.files[u].claimedAt.Some? && !Mentioned(t.mentions, u) ==> u in orphaned
    ensures forall u <- NamesOf(s.rows - t.rows.Keys) :: u in orphaned || u !in t.files || Mentioned(t.mentions, u)
  {
    forall o <- t.rows ensures Of(t.mentions, o) == Names(t.rows[o]) * t.files.Keys {
      forall u: string ensures u in Of(t.mentions, o) <==> u in Of(s.mentions, o) {
        assert u in Of(t.mentions, o) <==> (o, u) in t.mentions;
        assert u in Of(s.mentions, o) <==> (o, u) in s.mentions;
      }
      assert Of(s.mentions, o) == Names(s.rows[o]) * s.files.Keys;
    }
    MentionsAreStored(s);
    forall u <- orphaned ensures IsUuid(u) && u in NamesOf(s.rows - t.rows.Keys) {
      var p := if u in Names(s.rows[o]) then o else (var m :| m in s.mentions && m.0 !in t.rows && m.1 == u; m.0);
      NamedAreUuids(s.rows[p].files + s.rows[p].texts);
      assert p in s.rows - t.rows.Keys && u in Names((s.rows - t.rows.Keys)[p]);
    }
    forall u <- NamesOf(s.rows - t.rows.Keys) | u in t.files ensures u in orphaned {
      var o :| o in s.rows && o !in t.rows && u in Names(s.rows[o]);
      assert u in Of(s.mentions, o);
      assert (o, u) in s.mentions;
    }
  }

  lemma {:induction false} Smaller<T>(a: set<T>, b: set<T>)
    requires a < b
    ensures |a| < |b|
  {
    assert |b| == |a| + |b - a| by {
      assert b == a + (b - a);
    }
    assert b - a != {};
  }

  /** What the sweep takes: a file nothing ever named that outlived the grace. */
  function Waiting(files: map<string, StoredFile>, cutoff: int): set<string> {
    set u <- files | files[u].claimedAt.None? && files[u].createdAt < cutoff
  }

  /** A sweep is a release of what it takes, since nothing names a file that was never claimed. */
  lemma SweptIsReleased(s: Store, cutoff: int)
    requires Valid(s)
    ensures var w := Waiting(s.files, cutoff);
            && Released(s, w) == s.(files := Without(s.files, w), bucket := s.bucket - KeysOf(s.files, w))
            && Valid(Released(s, w)) && Waiting(Without(s.files, w), cutoff) == {}
  {
  }

  lemma WithoutNone(files: map<string, StoredFile>)
    ensures Without(files, {}) == files && KeysOf(files, {}) == {}
  {
  }

  lemma SweepStep(s: Store, files: map<string, StoredFile>, cutoff: int, taken: set<string>, batch: set<string>, rest: set<string>)
    requires files == Without(s.files, taken) && Waiting(files, cutoff) == batch + rest && batch !! rest && batch != {}
    ensures Waiting(Without(files, batch), cutoff) == rest && |rest| < |batch + rest|
    ensures Without(files, batch) == Without(s.files, taken + batch)
    ensures s.bucket - KeysOf(s.files, taken) - KeysOf(files, batch) == s.bucket - KeysOf(s.files, taken + batch)
  {
    Smaller(rest, batch + rest);
    assert KeysOf(s.files, taken + batch) == KeysOf(s.files, taken) + KeysOf(files, batch) by {
      assert forall u <- batch :: u in files;
    }
  }

  const BATCH: nat := 1000

  method TakeBatch(waiting: set<string>) returns (batch: set<string>, rest: set<string>)
    ensures batch + rest == waiting && batch !! rest
    ensures |batch| <= BATCH && (rest != {} ==> |batch| == BATCH)
    ensures waiting != {} ==> batch != {}
  {
    batch, rest := {}, waiting;
    while |batch| < BATCH && rest != {}
      invariant batch + rest == waiting && batch !! rest && |batch| <= BATCH
      decreases rest
    {
      var u :| u in rest;
      batch, rest := batch + {u}, rest - {u};
    }
  }

  /** The mentions of the rows that stand, and the files the others named. */
  ghost predicate Split(was: set<(Owner, string)>, standing: set<Owner>, mentions: set<(Owner, string)>, orphaned: set<string>) {
    mentions == (set m <- was | m.0 in standing) && orphaned == (set m <- was | m.0 !in standing :: m.1)
  }

  lemma SplitFurther(was: set<(Owner, string)>, standing: set<Owner>, mentions: set<(Owner, string)>, orphaned: set<string>, next: set<Owner>, more: set<string>)
    requires Split(was, standing, mentions, orphaned) && next <= standing
    requires more == (set m <- mentions | m.0 !in next :: m.1)
    ensures Split(was, next, (set m <- mentions | m.0 in next), orphaned + more)
  {
  }

  lemma ForgottenAll(was: set<(Owner, string)>, o: Owner, rows: set<Owner>, standing: set<Owner>)
    requires rows == standing - {o}
    ensures var others := set m <- was | m.0 !in {o};
            && (set m <- others | m.0 in standing) == (set m <- was | m.0 in rows)
            && (set m <- was | m.0 in {o} :: m.1) + (set m <- others | m.0 !in standing :: m.1) == (set m <- was | m.0 !in rows :: m.1)
  {
  }

  lemma ClearedNone(rows: map<Owner, Record>, deps: seq<Dependent>, root: set<nat>, path: seq<Link>)
    requires deps == []
    ensures Cleared(rows, deps, root, path) == rows
  {
  }

  lemma ClearedNext(rows: map<Owner, Record>, deps: seq<Dependent>, i: nat, root: set<nat>, path: seq<Link>)
    requires i < |deps|
    ensures var p := path + [(deps[i].table, deps[i].field)];
            var below := Cleared(rows, deps[i].dependents, root, p);
            Cleared(rows, deps[i..], root, path) == Cleared(below - Under(below, root, p), deps[i + 1..], root, path)
  {
  }

  /** A stored file is mentioned by a row exactly when a file column or a text of the row has its identifier in it. */
  lemma ColumnsAreMentioned(s: Store, o: Owner, u: string)
    requires Valid(s) && o in s.rows && u in s.files
    ensures (o, u) in s.mentions <==> (exists v <- s.rows[o].files :: u in UuidsIn(v)) || (exists v <- s.rows[o].texts :: u in UuidsIn(v))
  {
    assert u in Of(s.mentions, o) <==> (o, u) in s.mentions;
    hide UuidsIn;
    assert u in Names(s.rows[o]) <==> exists v <- s.rows[o].files + s.rows[o].texts :: u in UuidsIn(v);
  }

  /** A save is let through exactly when every key of a file column that has an identifier the row newly names is the key of a stored file. */
  lemma LetThroughExactlyWhen(files: map<string, StoredFile>, keys: set<string>, added: set<string>)
    ensures !Gone(files, keys, added) <==> forall k, u :: k in keys && u in UuidsIn(k) && u in added ==> exists v <- files :: files[v].key == k
  {
    hide UuidsIn;
    if Gone(files, keys, added) {
      var k :| k in keys && UuidsIn(k) * added != {} && !HasKey(files, k);
      var u :| u in UuidsIn(k) * added;
      assert k in keys && u in UuidsIn(k) && u in added;
    } else {
      forall k, u | k in keys && u in UuidsIn(k) && u in added ensures exists v <- files :: files[v].key == k {
        assert u in UuidsIn(k) * added;
        assert HasKey(files, k);
      }
    }
  }

  /** Files that go leave the others as they are, and take their own objects and no other with them. */
  lemma FilesGoWithTheirObjects(files: map<string, StoredFile>, bucket: set<string>, us: set<string>)
    ensures var (left, objects) := (Without(files, us), bucket - KeysOf(files, us));
            && (forall u :: u in left <==> u in files && u !in us)
            && (forall u <- left :: left[u] == files[u])
            && (forall key :: key in objects <==> key in bucket && forall u <- us :: u in files ==> files[u].key != key)
  {
  }

  /** A release takes the files it is handed that no mention names. */
  lemma ReleaseTakes(s: Store, us: set<string>)
    ensures var t := Released(s, us);
            && t.rows == s.rows && t.mentions == s.mentions
            && (forall u :: u in t.files <==> u in s.files && (u in us ==> exists m <- s.mentions :: m.1 == u))
            && (forall u <- t.files :: t.files[u] == s.files[u])
            && (forall key :: key in t.bucket <==> key in s.bucket && forall u <- s.files :: u !in t.files ==> s.files[u].key != key)
  {
    FilesGoWithTheirObjects(s.files, s.bucket, Unnamed(s, us));
    assert forall u <- s.files :: u !in Released(s, us).files <==> u in Unnamed(s, us);
  }

  /** A sweep takes the files that were never claimed and are older than the cutoff. */
  lemma SweepTakes(files: map<string, StoredFile>, cutoff: int, u: string)
    ensures u in Without(files, Waiting(files, cutoff)) <==> u in files && (files[u].claimedAt != None || files[u].createdAt >= cutoff)
  {
  }

  /** A row that points at the root through a declared dependent goes, and so does one that points at a row of a dependent that goes through one declared under it. */
  lemma ChildrenGo(rows: map<Owner, Record>, root: set<nat>, path: seq<Link>, l: Link, o: Owner)
    requires o in rows && o.0 == l.0 && l.1 in rows[o].refs
    ensures path == [] && rows[o].refs[l.1] in root ==> o in Under(rows, root, path + [l])
    ensures path != [] && (path[|path| - 1].0, rows[o].refs[l.1]) in Under(rows, root, path) ==> o in Under(rows, root, path + [l])
  {
    assert (path + [l])[..|path|] == path;
    assert rows[o].refs[l.1] in Reach(rows, root, path) ==> o.1 in Reach(rows, root, path + [l]);
  }

  /** And nothing else does: a row at the end of a path points at the root, or at a row at the end of the path before. */
  lemma OnlyChildrenGo(rows: map<Owner, Record>, root: set<nat>, path: seq<Link>, o: Owner)
    requires path != [] && o in Under(rows, root, path)
    ensures var (up, l) := (path[..|path| - 1], path[|path| - 1]);
            && o.0 == l.0 && o in rows && l.1 in rows[o].refs
            && (if up == [] then rows[o].refs[l.1] in root else (up[|up| - 1].0, rows[o].refs[l.1]) in Under(rows, root, up))
  {
    var (up, l) := (path[..|path| - 1], path[|path| - 1]);
    assert o.1 in Reach(rows, root, path);
  }

  /** What a declared tree dooms: the rows at the end of the path of each of its dependents, whichever dependent it is and however deep. */
  lemma {:induction false} TreeDooms(rows: map<Owner, Record>, deps: seq<Dependent>, root: set<nat>, path: seq<Link>, i: nat, o: Owner)
    requires i < |deps|
    ensures var p := path + [(deps[i].table, deps[i].field)];
            o in Under(rows, root, p) || Doomed(rows, deps[i].dependents, root, p, o) ==> Doomed(rows, deps, root, path, o)
    decreases i
  {
    hide Under;
    if i > 0 {
      assert deps[1..][i - 1] == deps[i];
      TreeDooms(rows, deps[1..], root, path, i - 1, o);
    }
  }

  class FileService {
    var rows: map<Owner, Record>
    var files: map<string, StoredFile>
    var mentions: set<(Owner, string)>
    var bucket: set<string>
    var clock: nat

    function Value(): Store
      reads this
    {
      Store(rows, files, mentions, bucket)
    }

    constructor ()
      ensures Valid(Value()) && Value() == Store(map[], map[], {}, {})
    {
      rows, files, mentions, bucket, clock := map[], map[], {}, {}, 0;
    }

    /** The row is written down before the object, under an identifier nobody could have named yet. */
    method Keep(u: string, key: string, now: int)
      requires Valid(Value()) && IsUuid(u) && u !in files && !HasKey(files, key)
      requires forall o <- rows :: u !in Names(rows[o])
      modifies this`files, this`bucket
      ensures Valid(Value()) && files == old(files)[u := StoredFile(key, now, None)] && bucket == old(bucket) + {key}
    {
      MentionsAreStored(Value());
      files := files[u := StoredFile(key, now, None)];
      bucket := bucket + {key};
      forall o <- rows ensures Of(mentions, o) == Names(rows[o]) * files.Keys {
        assert Of(mentions, o) == Names(rows[o]) * old(files).Keys;
      }
    }

    /**
     Brings the mentions of an owner to the names in its columns and returns the files it lost, or refuses when a file column newly holds no stored key.
     */
    method Mention(o: Owner, values: set<string>, keys: set<string>) returns (dropped: Option<set<string>>)
      requires forall m <- mentions :: m.1 in files
      modifies this`files, this`mentions, this`clock
      ensures var held := Of(old(mentions), o);
              var added := NamedIn(values) - held;
              && (dropped.None? <==> Gone(old(files), keys, added))
              && (dropped.None? ==> files == old(files) && mentions == old(mentions))
              && (dropped.Some? ==>
                    && dropped.value == held - NamedIn(values)
                    && files == Claim(old(files), added, clock)
                    && Of(mentions, o) == NamedIn(values) * old(files).Keys
                    && (forall m: (Owner, string) :: m.0 != o ==> (m in mentions <==> m in old(mentions))))
    {
      var named := NamedIn(values);
      var held := Of(mentions, o);
      var stopped := held - named;
      var added := named - held;
      if Gone(files, keys, added) {
        return None;
      }
      clock := clock + 1;
      files := Claim(files, added, clock);
      var written := set m <- mentions | m.0 != o || m.1 !in stopped;
      ghost var kept := written;
      var found := added * files.Keys;
      var left := found;
      while left != {}
        invariant left <= found
        invariant forall m: (Owner, string) :: m in written <==> m in kept || (m.0 == o && m.1 in found - left)
      {
        var u :| u in left;
        written := written + {(o, u)};
        left := left - {u};
      }
      forall u: string ensures u in Of(written, o) <==> u in (held - stopped) + found {
        assert u in Of(written, o) <==> (o, u) in written;
        assert u in held <==> (o, u) in mentions;
      }
      mentions := written;
      return Some(stopped);
    }

    /** Removes every mention of the owners and returns the files they named. */
    method Forget(owners: set<Owner>) returns (dropped: set<string>)
      modifies this`mentions
      ensures mentions == (set m <- old(mentions) | m.0 !in owners)
      ensures dropped == (set m <- old(mentions) | m.0 in owners :: m.1)
    {
      dropped := set m <- mentions | m.0 in owners :: m.1;
      mentions := set m <- mentions | m.0 !in owners;
    }

    /** Rows first, one statement each, and their objects once those are committed. */
    method Release(values: set<string>)
      modifies this`files, this`bucket
      ensures Value() == Released(old(Value()), NamedIn(values))
    {
      var uuids := NamedIn(values);
      var records := set u <- uuids | u in files;
      ghost var all := records;
      var discarded := {};
      ghost var us := {};
      while records != {}
        invariant records <= all
        invariant bucket == old(bucket) && us == Unnamed(old(Value()), all - records)
        invariant files == Without(old(files), us)
        invariant discarded == KeysOf(old(files), us)
      {
        var u :| u in records;
        if !Mentioned(mentions, u) {
          us := us + {u};
          assert u in files;
          discarded := discarded + {files[u].key};
          files := files - {u};
        }
        records := records - {u};
      }
      assert us == Unnamed(old(Value()), uuids);
      bucket := bucket - discarded;
    }

    /** The sweep in batches: never-claimed files older than the cutoff, until none is left. */
    method DiscardOrphans(cutoff: int)
      requires Valid(Value())
      modifies this`files, this`bucket
      ensures Valid(Value()) && Waiting(files, cutoff) == {}
      ensures Value() == Released(old(Value()), Waiting(old(files), cutoff))
      ensures files == Without(old(files), Waiting(old(files), cutoff))
    {
      var waiting := Waiting(files, cutoff);
      ghost var (s, all) := (Value(), waiting);
      hide Valid, Waiting, Without, KeysOf, Released, Unnamed, NamedIn, Names, Mentioned, Of;
      SweptIsReleased(s, cutoff);
      WithoutNone(s.files);
      ghost var taken: set<string> := {};
      while waiting != {}
        invariant waiting == Waiting(files, cutoff) && taken !! waiting && taken + waiting == all
        invariant files == Without(s.files, taken)
        invariant bucket == s.bucket - KeysOf(s.files, taken)
        decreases |waiting|
      {
        var batch, rest := TakeBatch(waiting);
        SweepStep(s, files, cutoff, taken, batch, rest);
        bucket := bucket - KeysOf(files, batch);
        files := Without(files, batch);
        taken, waiting := taken + batch, rest;
      }
      assert taken == all;
    }

    method Create(o: Owner, r: Record, duplicated: bool) returns (done: bool)
      requires Valid(Value()) && o !in rows
      modifies this
      ensures Valid(Value()) && bucket == old(bucket)
      ensures done <==> !duplicated && !Gone(old(files), r.files, Names(r))
      ensures !done ==> Value() == old(Value())
      ensures done ==> rows == old(rows)[o := r] && files == Claim(old(files), Names(r), clock)
    {
      if duplicated {
        return false;
      }
      MentionsAreStored(Value());
      assert Of(mentions, o) == {} by {
        assert forall m <- mentions :: m.0 != o;
      }
      var dropped := Mention(o, r.files + r.texts, r.files);
      if dropped.None? {
        return false;
      }
      rows := rows[o := r];
      ghost var s := old(Value());
      RenamedIsExact(s, Value(), o, Names(r));
      return true;
    }

    /** Row, mentions and stamps commit together, and only then do the files the row stopped naming go. */
    method Update(o: Owner, r: Record, duplicated: bool) returns (done: bool)
      requires Valid(Value())
      modifies this
      ensures Valid(Value())
      ensures done <==> o in old(rows) && !duplicated && !Gone(old(files), r.files, Names(r) - Of(old(mentions), o))
      ensures !done ==> Value() == old(Value())
      ensures done ==> rows == old(rows)[o := r] && Dropped(old(files), files, Names(old(rows)[o]), rows)
      ensures done ==> files == Without(Claim(old(files), Names(r) - Of(old(mentions), o), clock), old(files).Keys - files.Keys)
      ensures done ==> bucket == old(bucket) - KeysOf(old(files), old(files).Keys - files.Keys)
    {
      if o !in rows {
        return false;
      }
      ghost var s := Value();
      MentionsAreStored(s);
      hide Valid, Exact, Kept, NothingLeft, Gone, HasKey, Without, Claim, Mentioned, NamedBy, Names, NamedIn, Released, Dropped, KeysOf, Of;
      var mentioned := Names(rows[o]);
      var edited := rows[o := r];
      if duplicated {
        return false;
      }
      var dropped := Mention(o, r.files + r.texts, r.files);
      if dropped.None? {
        return false;
      }
      rows := edited;
      UpdateSettles(s, Value(), o, r, clock);
      var us := (mentioned - Names(r)) + dropped.value;
      Release(us);
      return true;
    }

    method DeleteDependents(deps: seq<Dependent>, root: set<nat>, path: seq<Link>) returns (orphaned: set<string>)
      requires forall m <- mentions :: m.0 in rows
      modifies this`rows, this`mentions
      ensures rows == Cleared(old(rows), deps, root, path)
      ensures mentions == (set m <- old(mentions) | m.0 in rows)
      ensures orphaned == (set m <- old(mentions) | m.0 !in rows :: m.1)
      decreases deps
    {
      hide Cleared, Under, Reach;
      ghost var was := mentions;
      orphaned := {};
      var i := 0;
      assert deps[0..] == deps;
      while i < |deps|
        invariant 0 <= i <= |deps|
        invariant Cleared(rows, deps[i..], root, path) == Cleared(old(rows), deps, root, path)
        invariant Split(was, rows.Keys, mentions, orphaned)
      {
        var p := path + [(deps[i].table, deps[i].field)];
        ghost var (from, named, drops) := (rows, mentions, orphaned);
        ClearedNext(rows, deps, i, root, path);
        var below := DeleteDependents(deps[i].dependents, root, p);
        var under := Under(rows, root, p);
        var own := Forget(under);
        SplitFurther(was, from.Keys, named, drops, rows.Keys, below);
        SplitFurther(was, rows.Keys, (set m <- named | m.0 in rows), drops + below, rows.Keys - under, own);
        rows := rows - under;
        orphaned := orphaned + below + own;
        i := i + 1;
      }
      ClearedNone(rows, deps[|deps|..], root, path);
    }

    /** A row goes with everything the tree hangs under it, and the files only those named go last. */
    method Delete(o: Owner, deps: seq<Dependent>, refused: bool) returns (done: bool)
      requires Valid(Value())
      modifies this
      ensures Valid(Value())
      ensures done <==> o in old(rows) && !refused
      ensures !done ==> Value() == old(Value())
      ensures done ==> rows == Cleared(old(rows), deps, {o.1}, []) - {o}
      ensures done ==> Dropped(old(files), files, NamesOf(old(rows) - rows.Keys), rows)
      ensures done ==> files == Without(old(files), old(files).Keys - files.Keys)
      ensures done ==> bucket == old(bucket) - KeysOf(old(files), old(files).Keys - files.Keys)
    {
      if o !in rows || refused {
        return false;
      }
      hide Valid, Exact, Kept, NothingLeft, Without, Mentioned, NamedBy, Names, NamedIn, NamesOf, Released, Dropped, KeysOf, Of, Cleared;
      ghost var s := Value();
      MentionsHaveRows(s);
      var mentioned := Names(rows[o]);
      var own := Forget({o});
      var below := DeleteDependents(deps, {o.1}, []);
      ghost var standing := rows.Keys;
      rows := rows - {o};
      var orphaned := mentioned + own + below;
      ForgottenAll(s.mentions, o, rows.Keys, standing);
      DeleteSettles(s, Value(), o, orphaned);
      Release(orphaned);
      return true;
    }
  }
}
