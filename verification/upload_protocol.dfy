/**
 Saves, releases and sweeps of stored files running at once: the statements of services/upload_service.py:93-161 and
 services/sweep_service.py:32-53, interleaved in any order over a database that reads what is committed and locks what it writes.
 */
module UploadProtocol {
  import opened Outcomes

  /** A key names its file and the path it claims to be stored under. */
  type Key = (nat, nat)

  datatype Row = Row(path: nat, claimedAt: Option<nat>)

  /**
   What one worker is in the middle of: a save with the mention rows it read, those still to delete and those deleted, the files still to stamp
   and those stamped, and the stamped ones it looked for a mention of and wrote one of; the files a committed save hands over; a pass deleting
   rows under the stamps it read; and the objects of rows that are already gone.
   */
  datatype Worker =
    | Save(owner: nat, named: set<nat>, keys: set<Key>, extra: set<nat>, held: map<nat, nat>, drop: set<nat>, removed: set<nat>,
           todo: set<nat>, stamped: map<nat, nat>, settled: set<nat>, written: set<nat>)
    | Handed(files: set<nat>)
    | Pass(read: map<nat, Option<nat>>, ready: set<nat>, taken: set<nat>)
    | Discarding(objects: set<nat>)

  /**
   What is committed, where a mention row is known by the commit that wrote it, what the bucket holds, who is working, every identifier and
   stamp that was ever handed out, whether a worker died with work in hand or the bucket refused a deletion, and the files a save named
   without a mention to show for it.
   */
  datatype System = System(
    files: map<nat, Row>,
    bucket: set<nat>,
    mentions: map<(nat, nat), nat>,
    commits: nat,
    workers: map<nat, Worker>,
    known: set<nat>,
    stamps: set<(nat, nat)>,
    failed: bool,
    missed: set<nat>)

  datatype Event =
    | Upload(file: nat, path: nat)
    | Begin(who: nat, owner: nat, named: set<nat>, keys: set<Key>, extra: set<nat>)
    | Unmention(who: nat, file: nat)
    | Stamp(who: nat, file: nat, at: nat)
    | Write(who: nat, file: nat)
    | Refuse(who: nat)
    | Commit(who: nat)
    | Read(who: nat)
    | Check(who: nat, file: nat)
    | Take(who: nat, file: nat)
    | Sweep(who: nat, batch: set<nat>)
    | Discard(who: nat, file: nat, refused: bool)
    | Crash(who: nat)

  const START := System(map[], {}, map[], 0, map[], {}, {}, false, {})

  /** The mention rows of an owner, by the file each names. */
  function Held(s: System, owner: nat): map<nat, nat> {
    map f <- (set m <- s.mentions | m.0 == owner :: m.1) :: s.mentions[(owner, f)]
  }

  predicate Unmentioned(s: System, f: nat) {
    forall m <- s.mentions :: m.1 != f
  }

  /** The rows a worker wrote in a transaction still open. */
  predicate Holds(w: Worker, f: nat) {
    match w
    case Save(_, _, _, _, _, _, _, _, stamped, _, _) => f in stamped
    case Pass(_, _, taken) => f in taken
    case _ => false
  }

  predicate Locked(s: System, who: nat, f: nat) {
    exists q <- s.workers :: q != who && Holds(s.workers[q], f)
  }

  predicate Saving(s: System, owner: nat) {
    exists q <- s.workers :: s.workers[q].Save? && s.workers[q].owner == owner
  }

  /** Whether another open transaction deleted this mention row. */
  predicate Unmentioning(s: System, who: nat, owner: nat, f: nat) {
    exists q <- s.workers :: q != who && s.workers[q].Save? && s.workers[q].owner == owner && f in s.workers[q].removed
  }

  function Added(w: Worker): set<nat>
    requires w.Save?
  {
    w.named - w.held.Keys
  }

  predicate Refused(s: System, w: Worker)
    requires w.Save?
  {
    exists k <- w.keys :: k.0 in Added(w) && !(k.0 in s.files && s.files[k.0].path == k.1)
  }

  function With(s: System, who: nat, w: Worker): System {
    s.(workers := s.workers[who := w])
  }

  // ---------------------------------------------------------------- the steps

  /** The identifier is one nobody could have spoken before. */
  function Uploaded(s: System, f: nat, path: nat): System {
    if f in s.known then s
    else s.(files := s.files[f := Row(path, None)], bucket := s.bucket + {f}, known := s.known + {f})
  }

  /** The mention rows of the owner are read, whoever else is writing it. */
  function Begun(s: System, e: Event): System
    requires e.Begin?
  {
    if e.who in s.workers then s
    else
      var held := Held(s, e.owner);
      With(s, e.who, Save(e.owner, e.named, e.keys, e.extra, held, held.Keys - e.named, {}, e.named - held.Keys, map[], {}, {})).(
        known := s.known + e.named)
  }

  /** One row of the statement that deletes what the owner stopped naming: it waits for another deleter of that row, and skips a row that is gone. */
  function Removed(s: System, who: nat, f: nat): System {
    if who !in s.workers || !s.workers[who].Save? || f !in s.workers[who].drop then s
    else
      var w := s.workers[who];
      var rest := w.(drop := w.drop - {f});
      if (w.owner, f) !in s.mentions || f !in w.held || s.mentions[(w.owner, f)] != w.held[f] then With(s, who, rest)
      else if Unmentioning(s, who, w.owner, f) then s
      else With(s, who, rest.(removed := w.removed + {f}))
  }

  /** One row of the stamping statement: it waits for another writer of that row, and skips a row that is gone. */
  function Stamped(s: System, who: nat, f: nat, at: nat): System {
    if who !in s.workers || !s.workers[who].Save? || s.workers[who].drop != {} || f !in s.workers[who].todo then s
    else
      var w := s.workers[who];
      if f !in s.files then With(s, who, w.(todo := w.todo - {f}))
      else if Locked(s, who, f) || (f, at) in s.stamps then s
      else With(s, who, w.(todo := w.todo - {f}, stamped := w.stamped[f := at])).(stamps := s.stamps + {(f, at)})
  }

  /** The mention of one file that is newly named and there: the row somebody committed meanwhile, or one of its own. */
  function Wrote(s: System, who: nat, f: nat): System {
    if who !in s.workers || !s.workers[who].Save? || s.workers[who].drop + s.workers[who].todo != {} || Refused(s, s.workers[who]) then s
    else
      var w := s.workers[who];
      if f !in Added(w) * s.files.Keys - w.settled then s
      else With(s, who, w.(settled := w.settled + {f}, written := if (w.owner, f) in s.mentions then w.written else w.written + {f}))
  }

  function Given(files: map<nat, Row>, stamped: map<nat, nat>): map<nat, Row> {
    map f <- files :: if f in stamped then files[f].(claimedAt := Some(stamped[f])) else files[f]
  }

  /** Whether a save is done with every statement of its own. */
  predicate Written(s: System, w: Worker)
    requires w.Save?
  {
    w.drop + w.todo == {} && !Refused(s, w) && Added(w) * s.files.Keys <= w.settled
  }

  function Renamed(s: System, w: Worker): map<(nat, nat), nat>
    requires w.Save?
  {
    map m <- s.mentions.Keys + (set f <- w.written :: (w.owner, f)) | m.0 != w.owner || m.1 !in w.removed ::
      if m in s.mentions then s.mentions[m] else s.commits
  }

  /** The files a save stamped on the strength of a mention that is gone as it commits, when nobody is yet to read the new stamp. */
  function Lost(s: System, who: nat): set<nat>
    requires who in s.workers && s.workers[who].Save?
  {
    var w := s.workers[who];
    set f <- w.stamped | f !in w.written && Unmentioned(s, f) && f !in w.extra && !Awaited(s, f)
  }

  predicate Awaited(s: System, f: nat) {
    exists q <- s.workers :: s.workers[q].Handed? && f in s.workers[q].files
  }

  /** A save lands whole and hands over what it stopped naming, and a pass deletes its rows before their objects. */
  function Committed(s: System, who: nat): System {
    if who !in s.workers then s
    else
      var w := s.workers[who];
      match w
      case Save(_, _, _, _, _, _, _, _, _, _, _) =>
        if !Written(s, w) then s
        else
          With(s, who, Handed((w.held.Keys - w.named) + w.extra)).(
            files := Given(s.files, w.stamped),
            mentions := Renamed(s, w),
            commits := s.commits + 1,
            missed := s.missed + Lost(s, who))
      case Pass(read, _, taken) =>
        if read != map[] then s
        else With(s, who, Discarding(taken)).(files := s.files - taken)
      case _ => s
  }

  function Reads(s: System, who: nat): System {
    if who !in s.workers || !s.workers[who].Handed? then s
    else
      var us := s.workers[who].files;
      With(s, who, Pass(map f <- s.files | f in us :: s.files[f].claimedAt, {}, {}))
  }

  /** The deletion as its statement starts: the stamp and the mentions it sees are the committed ones. */
  function Checked(s: System, who: nat, f: nat): System {
    if who !in s.workers || !s.workers[who].Pass? || f !in s.workers[who].read || f in s.workers[who].ready then s
    else
      var w := s.workers[who];
      if f in s.files && s.files[f].claimedAt == w.read[f] && Unmentioned(s, f) then With(s, who, w.(ready := w.ready + {f}))
      else With(s, who, w.(read := w.read - {f}))
  }

  /** The deletion once it has the row: only the row itself is read again, and never the mentions. */
  function Taken(s: System, who: nat, f: nat): System {
    if who !in s.workers || !s.workers[who].Pass? || f !in s.workers[who].ready then s
    else
      var w := s.workers[who];
      var rest := w.(read := w.read - {f}, ready := w.ready - {f});
      if f in s.files && Locked(s, who, f) then s
      else if f in s.files && f in w.read && s.files[f].claimedAt == w.read[f] then With(s, who, rest.(taken := w.taken + {f}))
      else With(s, who, rest)
  }

  /** A batch nothing had ever named when it was read, whose deletions look at the stamp alone. */
  function Swept(s: System, who: nat, batch: set<nat>): System {
    if who in s.workers then s
    else
      var waiting := set f <- s.files | f in batch && s.files[f].claimedAt.None?;
      With(s, who, Pass(map f <- waiting :: None, waiting, {}))
  }

  function Discarded(s: System, who: nat, f: nat, refused: bool): System {
    if who !in s.workers || !s.workers[who].Discarding? || f !in s.workers[who].objects then s
    else
      With(s, who, Discarding(s.workers[who].objects - {f})).(
        bucket := if refused then s.bucket else s.bucket - {f},
        failed := s.failed || refused)
  }

  /** A save that is refused or dies leaves nothing, and any other worker leaves what it had in hand. */
  function Ended(s: System, who: nat, refused: bool): System {
    if who !in s.workers || (refused && !s.workers[who].Save?) then s
    else s.(workers := s.workers - {who}, failed := s.failed || !s.workers[who].Save?)
  }

  function Apply(s: System, e: Event): System {
    match e
    case Upload(f, path) => Uploaded(s, f, path)
    case Begin(_, _, _, _, _) => Begun(s, e)
    case Unmention(who, f) => Removed(s, who, f)
    case Stamp(who, f, at) => Stamped(s, who, f, at)
    case Write(who, f) => Wrote(s, who, f)
    case Refuse(who) => Ended(s, who, true)
    case Commit(who) => Committed(s, who)
    case Read(who) => Reads(s, who)
    case Check(who, f) => Checked(s, who, f)
    case Take(who, f) => Taken(s, who, f)
    case Sweep(who, batch) => Swept(s, who, batch)
    case Discard(who, f, refused) => Discarded(s, who, f, refused)
    case Crash(who) => Ended(s, who, false)
  }

  function Run(s: System, events: seq<Event>): System
    decreases |events|
  {
    if events == [] then s else Run(Apply(s, events[0]), events[1..])
  }

  // ---------------------------------------------------------------- what every step keeps

  ghost predicate Stored(s: System) {
    && (forall m <- s.mentions :: m.1 in s.files && s.files[m.1].claimedAt.Some? && s.mentions[m] < s.commits)
    && (forall f <- s.files :: f in s.bucket && f in s.known)
    && (forall f <- s.files :: s.files[f].claimedAt.Some? ==> (f, s.files[f].claimedAt.value) in s.stamps)
  }

  ghost predicate Sound(s: System, w: Worker) {
    match w
    case Save(owner, named, _, _, held, drop, removed, todo, stamped, settled, written) =>
      && drop + removed <= held.Keys - named && todo <= Added(w) && named <= s.known
      && (forall f <- held :: held[f] < s.commits)
      && (forall f <- removed :: (owner, f) in s.mentions)
      && (forall f <- held.Keys - named - drop - removed :: (owner, f) in s.mentions ==> s.mentions[(owner, f)] != held[f])
      && (forall f <- stamped :: f in Added(w) - todo && f in s.files && (f, stamped[f]) in s.stamps && s.files[f].claimedAt != Some(stamped[f]))
      && (forall f <- Added(w) - todo :: f in stamped || f !in s.files)
      && written <= settled <= stamped.Keys
      && (forall f <- written :: (owner, f) !in s.mentions)
    case Handed(_) => true
    case Pass(read, ready, taken) =>
      && ready <= read.Keys && taken !! read.Keys
      && (forall f <- read :: read[f].Some? ==> (f, read[f].value) in s.stamps)
      && (forall f <- ready :: f in s.files && s.files[f].claimedAt == read[f] ==> Unmentioned(s, f))
      && (forall f <- taken :: f in s.files && Unmentioned(s, f))
    case Discarding(objects) => objects !! s.files.Keys && objects <= s.known
  }

  /** Two workers write no row at once, delete no mention at once, and no pass has read a stamp that is not committed. */
  ghost predicate Apart(a: Worker, b: Worker) {
    && (forall f :: Holds(a, f) ==> !Holds(b, f))
    && (a.Save? && b.Save? && a.owner == b.owner ==> a.removed !! b.removed)
    && (a.Save? && b.Pass? ==> forall f <- a.stamped :: f in b.read ==> b.read[f] != Some(a.stamped[f]))
  }

  /** The worker that will delete it if nothing names it in the meantime. */
  predicate OnDuty(s: System, w: Worker, f: nat)
    requires f in s.files
  {
    match w
    case Handed(us) => f in us
    case Pass(read, _, taken) => f in taken || (f in read && read[f] == s.files[f].claimedAt)
    case _ => false
  }

  ghost predicate NothingLeft(s: System) {
    forall f <- s.files | s.files[f].claimedAt.Some? && Unmentioned(s, f) && f !in s.missed :: exists p <- s.workers :: OnDuty(s, s.workers[p], f)
  }

  ghost predicate NoneOver(s: System) {
    forall f <- s.bucket | f !in s.files :: exists p <- s.workers :: s.workers[p].Discarding? && f in s.workers[p].objects
  }

  ghost predicate Safe(s: System) {
    && Stored(s)
    && (forall p <- s.workers :: Sound(s, s.workers[p]))
    && (forall p, q :: p in s.workers && q in s.workers && p != q ==> Apart(s.workers[p], s.workers[q]))
  }

  ghost predicate Inv(s: System) {
    Safe(s) && (!s.failed ==> NothingLeft(s) && NoneOver(s))
  }

  /** Whoever was on duty for a file still is, or somebody new is. */
  ghost predicate DutyStays(s: System, t: System) {
    forall f <- t.files | t.files[f].claimedAt.Some? && Unmentioned(t, f) && f !in t.missed ::
      || (exists p <- t.workers :: OnDuty(t, t.workers[p], f))
      || (&& f in s.files && s.files[f].claimedAt.Some? && Unmentioned(s, f) && f !in s.missed
          && forall p <- s.workers :: OnDuty(s, s.workers[p], f) ==> p in t.workers && OnDuty(t, t.workers[p], f))
  }

  ghost predicate ObjectsStay(s: System, t: System) {
    forall f <- t.bucket | f !in t.files ::
      || (exists p <- t.workers :: t.workers[p].Discarding? && f in t.workers[p].objects)
      || (&& f in s.bucket && f !in s.files
          && forall p <- s.workers :: s.workers[p].Discarding? && f in s.workers[p].objects ==> p in t.workers && t.workers[p].Discarding? && f in t.workers[p].objects)
  }

  /** Nobody was relieved, unless somebody died or the bucket refused. */
  ghost predicate Leaves(s: System, t: System) {
    !t.failed ==> !s.failed && DutyStays(s, t) && ObjectsStay(s, t)
  }

  lemma NothingMoves(s: System)
    ensures Leaves(s, s)
  {
  }

  lemma DutyIsKept(s: System, t: System)
    requires NothingLeft(s) && DutyStays(s, t)
    ensures NothingLeft(t)
  {
  }

  lemma ObjectsAreKept(s: System, t: System)
    requires NoneOver(s) && ObjectsStay(s, t)
    ensures NoneOver(t)
  {
  }

  lemma OfSafe(s: System, who: nat)
    requires Safe(s) && who in s.workers
    ensures Stored(s) && Sound(s, s.workers[who])
    ensures forall q <- s.workers :: q != who ==> Apart(s.workers[who], s.workers[q]) && Apart(s.workers[q], s.workers[who])
  {
  }

  /** A step of one worker that commits nothing but what was handed out asks only of that worker and of it beside each other one. */
  lemma OneMoves(s: System, t: System, who: nat, w: Worker)
    requires Safe(s) && t.workers == s.workers[who := w] && t.files == s.files && t.mentions == s.mentions
    requires t.bucket == s.bucket && s.known <= t.known && s.stamps <= t.stamps && t.commits == s.commits
    requires Sound(t, w) && forall q <- s.workers :: q != who ==> Apart(w, s.workers[q]) && Apart(s.workers[q], w)
    ensures Safe(t)
  {
    forall p <- t.workers ensures Sound(t, t.workers[p]) {
      if p != who {
        SoundStays(s, t, s.workers[p]);
      }
    }
    hide Sound, Apart;
  }

  lemma SoundStays(s: System, t: System, w: Worker)
    requires Sound(s, w) && t.files == s.files && t.mentions == s.mentions && t.commits == s.commits && s.known <= t.known && s.stamps <= t.stamps
    ensures Sound(t, w)
  {
  }

  /** Nor is anybody else relieved of a file by it. */
  lemma OneStays(s: System, t: System, who: nat, w: Worker)
    requires t.workers == s.workers[who := w] && t.files == s.files && t.mentions == s.mentions
    requires t.bucket == s.bucket && t.failed == s.failed && t.missed == s.missed
    requires who in s.workers ==> !s.workers[who].Discarding? && forall f <- s.files :: Unmentioned(s, f) && OnDuty(s, s.workers[who], f) ==> OnDuty(t, w, f)
    ensures Leaves(s, t)
  {
    assert forall f :: Unmentioned(t, f) <==> Unmentioned(s, f);
    assert forall p, f :: p in s.workers && p != who && f in s.files ==> OnDuty(s, s.workers[p], f) == OnDuty(t, t.workers[p], f);
    hide Unmentioned, OnDuty;
  }

  lemma NarrowedIsApart(w: Worker, v: Worker, other: Worker)
    requires w.Pass? && v.Pass? && v.taken == w.taken && v.read.Keys <= w.read.Keys && forall f <- v.read :: v.read[f] == w.read[f]
    requires Apart(w, other) && Apart(other, w)
    ensures Apart(v, other) && Apart(other, v)
  {
  }

  lemma CheckIsSound(s: System, who: nat, f: nat)
    requires who in s.workers && Sound(s, s.workers[who])
    ensures var t := Checked(s, who, f); Sound(t, t.workers[who])
  {
  }

  lemma TakeIsSound(s: System, who: nat, f: nat)
    requires who in s.workers && Sound(s, s.workers[who])
    ensures var t := Taken(s, who, f); Sound(t, t.workers[who])
  {
  }

  lemma StampIsSound(s: System, who: nat, f: nat, at: nat)
    requires Stored(s) && who in s.workers && Sound(s, s.workers[who])
    ensures var t := Stamped(s, who, f, at); Sound(t, t.workers[who])
  {
    hide Locked, Sound, Stored;
    var (t, w) := (Stamped(s, who, f, at), s.workers[who]);
    if t != s && f in s.files {
      NewStampIsSound(s, w, f, at);
      SoundStays(s.(stamps := s.stamps + {(f, at)}), t, t.workers[who]);
    } else if t != s {
      GoneIsSound(s, w, f);
      SoundStays(s, t, t.workers[who]);
    }
  }

  lemma GoneIsSound(s: System, w: Worker, f: nat)
    requires w.Save? && Sound(s, w) && f !in s.files
    ensures Sound(s, w.(todo := w.todo - {f}))
  {
    assert Added(w.(todo := w.todo - {f})) == Added(w);
  }

  lemma NewStampIsSound(s: System, w: Worker, f: nat, at: nat)
    requires Stored(s) && w.Save? && Sound(s, w) && f in w.todo && f in s.files && (f, at) !in s.stamps
    ensures Sound(s.(stamps := s.stamps + {(f, at)}), w.(todo := w.todo - {f}, stamped := w.stamped[f := at]))
  {
    assert Added(w.(todo := w.todo - {f}, stamped := w.stamped[f := at])) == Added(w);
  }

  lemma StampIsApart(s: System, who: nat, f: nat, at: nat, q: nat)
    requires who in s.workers && q in s.workers && q != who && Sound(s, s.workers[q])
    requires Apart(s.workers[who], s.workers[q]) && Apart(s.workers[q], s.workers[who])
    ensures var t := Stamped(s, who, f, at); Apart(t.workers[who], s.workers[q]) && Apart(s.workers[q], t.workers[who])
  {
  }

  lemma UploadKeepsSound(s: System, f: nat, path: nat, w: Worker)
    requires f !in s.known && Stored(s) && Sound(s, w)
    ensures Sound(Uploaded(s, f, path), w)
  {
  }

  lemma UploadIsSafe(s: System, f: nat, path: nat)
    requires Safe(s)
    ensures Safe(Uploaded(s, f, path))
  {
    var t := Uploaded(s, f, path);
    if t != s {
      forall p <- s.workers ensures Sound(t, s.workers[p]) {
        UploadKeepsSound(s, f, path, s.workers[p]);
      }
      assert Stored(t);
      hide Sound, Stored, Apart;
    }
  }

  lemma UploadLeaves(s: System, f: nat, path: nat)
    requires Safe(s)
    ensures Leaves(s, Uploaded(s, f, path))
  {
    var t := Uploaded(s, f, path);
    if t != s {
      assert forall g :: Unmentioned(t, g) <==> Unmentioned(s, g);
      assert forall g <- t.files :: g != f ==> g in s.files && t.files[g] == s.files[g];
      hide Safe, Unmentioned, Uploaded;
    }
  }

  lemma BeginIsSafe(s: System, e: Event)
    requires Safe(s) && e.Begin?
    ensures Safe(Begun(s, e))
  {
    var t := Begun(s, e);
    if t != s {
      assert Sound(t, t.workers[e.who]);
      hide Stored, Sound, Unmentioned, Held;
      OneMoves(s, t, e.who, t.workers[e.who]);
    }
  }

  lemma BeginLeaves(s: System, e: Event)
    requires e.Begin?
    ensures Leaves(s, Begun(s, e))
  {
    hide Leaves, Unmentioned, Held;
    var t := Begun(s, e);
    if t == s {
      NothingMoves(s);
    } else {
      OneStays(s, t, e.who, t.workers[e.who]);
    }
  }

  lemma UnmentionIsSound(s: System, who: nat, f: nat)
    requires who in s.workers && Sound(s, s.workers[who])
    ensures var t := Removed(s, who, f); Sound(t, t.workers[who])
  {
  }

  lemma UnmentionIsApart(s: System, who: nat, f: nat, q: nat)
    requires who in s.workers && q in s.workers && q != who
    requires Apart(s.workers[who], s.workers[q]) && Apart(s.workers[q], s.workers[who])
    ensures var t := Removed(s, who, f); Apart(t.workers[who], s.workers[q]) && Apart(s.workers[q], t.workers[who])
  {
  }

  lemma UnmentionIsSafe(s: System, who: nat, f: nat)
    requires Safe(s)
    ensures Safe(Removed(s, who, f))
  {
    hide Safe, Sound, Stored, Apart, Unmentioned, Locked, Refused;
    var t := Removed(s, who, f);
    if t != s {
      OfSafe(s, who);
      UnmentionIsSound(s, who, f);
      forall q <- s.workers | q != who ensures Apart(t.workers[who], s.workers[q]) && Apart(s.workers[q], t.workers[who]) {
        UnmentionIsApart(s, who, f, q);
      }
      OneMoves(s, t, who, t.workers[who]);
    }
  }

  lemma WriteIsSound(s: System, who: nat, f: nat)
    requires who in s.workers && Sound(s, s.workers[who])
    ensures var t := Wrote(s, who, f); Sound(t, t.workers[who])
  {
    hide Refused;
  }

  lemma WriteIsApart(s: System, who: nat, f: nat, q: nat)
    requires who in s.workers && q in s.workers && q != who
    requires Apart(s.workers[who], s.workers[q]) && Apart(s.workers[q], s.workers[who])
    ensures var t := Wrote(s, who, f); Apart(t.workers[who], s.workers[q]) && Apart(s.workers[q], t.workers[who])
  {
    hide Refused;
  }

  lemma WriteIsSafe(s: System, who: nat, f: nat)
    requires Safe(s)
    ensures Safe(Wrote(s, who, f))
  {
    hide Safe, Sound, Stored, Apart, Unmentioned, Locked, Refused;
    var t := Wrote(s, who, f);
    if t != s {
      OfSafe(s, who);
      WriteIsSound(s, who, f);
      forall q <- s.workers | q != who ensures Apart(t.workers[who], s.workers[q]) && Apart(s.workers[q], t.workers[who]) {
        WriteIsApart(s, who, f, q);
      }
      OneMoves(s, t, who, t.workers[who]);
    }
  }

  /** The statements of a save relieve nobody: it is on duty for nothing yet. */
  lemma SaveLeaves(s: System, t: System, who: nat)
    requires who in s.workers && s.workers[who].Save? && who in t.workers && t.workers[who].Save?
    requires t == s.(workers := s.workers[who := t.workers[who]], stamps := t.stamps)
    ensures Leaves(s, t)
  {
    OneStays(s, t, who, t.workers[who]);
  }

  lemma StampIsSafe(s: System, who: nat, f: nat, at: nat)
    requires Safe(s)
    ensures Safe(Stamped(s, who, f, at))
  {
    hide Safe, Sound, Stored, Apart, Unmentioned, Locked, Refused;
    var t := Stamped(s, who, f, at);
    if t != s {
      OfSafe(s, who);
      StampIsSound(s, who, f, at);
      forall q <- s.workers | q != who ensures Apart(t.workers[who], s.workers[q]) && Apart(s.workers[q], t.workers[who]) {
        OfSafe(s, q);
        StampIsApart(s, who, f, at, q);
      }
      OneMoves(s, t, who, t.workers[who]);
    }
  }

  lemma ReadIsSafe(s: System, who: nat)
    requires Safe(s)
    ensures Safe(Reads(s, who))
  {
    var t := Reads(s, who);
    if t != s {
      OneMoves(s, t, who, t.workers[who]);
    }
  }

  lemma ReadLeaves(s: System, who: nat)
    ensures Leaves(s, Reads(s, who))
  {
    hide Leaves, Unmentioned, Locked;
    var t := Reads(s, who);
    if t == s {
      NothingMoves(s);
    } else {
      OneStays(s, t, who, t.workers[who]);
    }
  }

  lemma CheckIsSafe(s: System, who: nat, f: nat)
    requires Safe(s)
    ensures Safe(Checked(s, who, f))
  {
    hide Safe, Sound, Stored, Apart, Unmentioned, Locked, Refused;
    var t := Checked(s, who, f);
    if t != s {
      OfSafe(s, who);
      CheckIsSound(s, who, f);
      forall q <- s.workers | q != who ensures Apart(t.workers[who], s.workers[q]) && Apart(s.workers[q], t.workers[who]) {
        NarrowedIsApart(s.workers[who], t.workers[who], s.workers[q]);
      }
      OneMoves(s, t, who, t.workers[who]);
    }
  }

  lemma CheckLeaves(s: System, who: nat, f: nat)
    ensures Leaves(s, Checked(s, who, f))
  {
    hide Leaves, Unmentioned, Locked;
    var t := Checked(s, who, f);
    if t == s {
      NothingMoves(s);
    } else {
      CheckKeepsDuty(s, who, f);
      OneStays(s, t, who, t.workers[who]);
    }
  }

  /** A deletion is given up only on a file somebody names or whose stamp moved, and neither was its duty. */
  lemma CheckKeepsDuty(s: System, who: nat, f: nat)
    requires who in s.workers && s.workers[who].Pass?
    ensures var t := Checked(s, who, f);
            forall g <- s.files :: Unmentioned(s, g) && OnDuty(s, s.workers[who], g) ==> OnDuty(t, t.workers[who], g)
  {
  }

  lemma TakeIsSafe(s: System, who: nat, f: nat)
    requires Safe(s)
    ensures Safe(Taken(s, who, f))
  {
    hide Safe, Sound, Stored, Apart, Unmentioned, Locked, Refused;
    var t := Taken(s, who, f);
    if t != s {
      OfSafe(s, who);
      TakeIsSound(s, who, f);
      forall q <- s.workers | q != who ensures Apart(t.workers[who], s.workers[q]) && Apart(s.workers[q], t.workers[who]) {
        TakeIsApart(s, who, f, q);
      }
      OneMoves(s, t, who, t.workers[who]);
    }
  }

  lemma TakeIsApart(s: System, who: nat, f: nat, q: nat)
    requires who in s.workers && q in s.workers && q != who
    requires Apart(s.workers[who], s.workers[q]) && Apart(s.workers[q], s.workers[who])
    ensures var t := Taken(s, who, f); Apart(t.workers[who], s.workers[q]) && Apart(s.workers[q], t.workers[who])
  {
  }

  lemma TakeLeaves(s: System, who: nat, f: nat)
    ensures Leaves(s, Taken(s, who, f))
  {
    hide Leaves, Unmentioned, Locked;
    var t := Taken(s, who, f);
    if t == s {
      NothingMoves(s);
    } else {
      TakeKeepsDuty(s, who, f);
      OneStays(s, t, who, t.workers[who]);
    }
  }

  lemma TakeKeepsDuty(s: System, who: nat, f: nat)
    requires who in s.workers && s.workers[who].Pass?
    ensures var t := Taken(s, who, f);
            forall g <- s.files :: OnDuty(s, s.workers[who], g) ==> OnDuty(t, t.workers[who], g)
  {
    hide Unmentioned, Locked;
  }

  lemma SweepIsSound(s: System, who: nat, batch: set<nat>)
    requires Stored(s) && who !in s.workers
    ensures var t := Swept(s, who, batch); Sound(t, t.workers[who])
  {
  }

  lemma SweepIsSafe(s: System, who: nat, batch: set<nat>)
    requires Safe(s)
    ensures Safe(Swept(s, who, batch))
  {
    var t := Swept(s, who, batch);
    if t != s {
      SweepIsSound(s, who, batch);
      hide Stored, Sound, Unmentioned;
      OneMoves(s, t, who, t.workers[who]);
    }
  }

  lemma SweepLeaves(s: System, who: nat, batch: set<nat>)
    ensures Leaves(s, Swept(s, who, batch))
  {
    hide Leaves, Unmentioned;
    var t := Swept(s, who, batch);
    if t == s {
      NothingMoves(s);
    } else {
      OneStays(s, t, who, t.workers[who]);
    }
  }

  lemma DiscardIsSafe(s: System, who: nat, f: nat, refused: bool)
    requires Safe(s)
    ensures Safe(Discarded(s, who, f, refused))
  {
    var t := Discarded(s, who, f, refused);
    if t != s {
      hide Safe, Stored, Sound, Apart;
      OfSafe(s, who);
      DiscardIsSound(s, who, f, refused);
      forall p <- s.workers ensures Sound(t, t.workers[p]) {
        OfSafe(s, p);
        SoundStays(s, t, s.workers[p]);
      }
      DiscardIsApart(s, t, who);
    }
  }

  /** A worker that lets go of objects is still apart. */
  lemma DiscardIsApart(s: System, t: System, who: nat)
    requires Safe(s) && Stored(t) && who in s.workers && s.workers[who].Discarding? && who in t.workers && t.workers[who].Discarding?
    requires t.workers == s.workers[who := t.workers[who]] && forall p <- t.workers :: Sound(t, t.workers[p])
    ensures Safe(t)
  {
    hide Stored, Sound;
  }

  lemma DiscardIsSound(s: System, who: nat, f: nat, refused: bool)
    requires Stored(s) && who in s.workers && Sound(s, s.workers[who])
    ensures var t := Discarded(s, who, f, refused); Stored(t) && Sound(t, t.workers[who])
  {
    hide Unmentioned;
  }

  lemma DiscardLeaves(s: System, who: nat, f: nat, refused: bool)
    ensures Leaves(s, Discarded(s, who, f, refused))
  {
    var t := Discarded(s, who, f, refused);
    if t != s && !t.failed {
      assert forall g :: Unmentioned(t, g) <==> Unmentioned(s, g);
      assert forall p, g :: p in s.workers && g in s.files ==> OnDuty(s, s.workers[p], g) == OnDuty(t, t.workers[p], g);
      hide Unmentioned, OnDuty;
    }
  }

  lemma EndIsSafe(s: System, who: nat, refused: bool)
    requires Safe(s)
    ensures Safe(Ended(s, who, refused))
  {
    var t := Ended(s, who, refused);
    hide Safe, Stored, Sound, Apart;
    forall p <- t.workers ensures Sound(t, t.workers[p]) {
      OfSafe(s, p);
      SoundStays(s, t, s.workers[p]);
    }
    StoredStays(s, t);
    AllApart(s, t);
  }

  lemma StoredStays(s: System, t: System)
    requires Safe(s) && t.files == s.files && t.mentions == s.mentions && t.bucket == s.bucket && t.known == s.known && t.stamps == s.stamps && t.commits == s.commits
    ensures Stored(t)
  {
  }

  /** Fewer workers are still apart. */
  lemma AllApart(s: System, t: System)
    requires Safe(s) && Stored(t) && (forall p <- t.workers :: Sound(t, t.workers[p])) && forall p <- t.workers :: p in s.workers && t.workers[p] == s.workers[p]
    ensures Safe(t)
  {
    hide Stored, Sound, Apart;
  }

  lemma EndLeaves(s: System, who: nat, refused: bool)
    requires Safe(s)
    ensures var t := Ended(s, who, refused); Leaves(s, t)
  {
    var t := Ended(s, who, refused);
    if t != s && !t.failed {
      assert s.workers[who].Save? && t == s.(workers := s.workers - {who});
      SaveGone(s, who);
    }
  }

  lemma SaveGone(s: System, who: nat)
    requires who in s.workers && s.workers[who].Save?
    ensures var t := s.(workers := s.workers - {who}); DutyStays(s, t) && ObjectsStay(s, t)
  {
    var t := s.(workers := s.workers - {who});
    assert forall f :: Unmentioned(t, f) <==> Unmentioned(s, f);
    forall p, f | p in s.workers && f in s.files && OnDuty(s, s.workers[p], f) ensures p in t.workers && OnDuty(t, t.workers[p], f) {}
    hide Unmentioned, OnDuty;
  }

  lemma PassCommitStores(s: System, who: nat)
    requires Stored(s) && who in s.workers && s.workers[who].Pass? && Sound(s, s.workers[who])
    ensures var t := Committed(s, who); Stored(t) && (t != s ==> Sound(t, t.workers[who]))
  {
  }

  lemma PassCommitIsSafe(s: System, who: nat)
    requires Safe(s) && who in s.workers && s.workers[who].Pass?
    ensures Safe(Committed(s, who))
  {
    var t := Committed(s, who);
    if t != s {
      PassCommitStores(s, who);
      hide Stored;
      forall p <- s.workers | p != who ensures Sound(t, s.workers[p]) && Apart(t.workers[who], s.workers[p]) && Apart(s.workers[p], t.workers[who]) {
        PassCommitKeepsSound(s, who, s.workers[p]);
      }
      hide Sound, Apart;
    }
  }

  lemma PassCommitKeepsSound(s: System, who: nat, w: Worker)
    requires who in s.workers && s.workers[who].Pass? && s.workers[who].read == map[]
    requires Sound(s, w) && Apart(s.workers[who], w)
    ensures Sound(Committed(s, who), w)
  {
    var (t, taken) := (Committed(s, who), s.workers[who].taken);
    assert t.files == s.files - taken && t.mentions == s.mentions && t.known == s.known && t.stamps == s.stamps;
    assert forall f <- taken :: Holds(s.workers[who], f);
    hide Committed;
    assert w.Save? ==> forall f <- w.stamped :: Holds(w, f);
    assert w.Pass? ==> forall f <- w.taken :: Holds(w, f);
    assert forall f :: Unmentioned(s, f) <==> Unmentioned(t, f);
    hide Unmentioned;
  }

  /** Its rows go, and it is the one left to see to their objects. */
  lemma PassCommitLeaves(s: System, who: nat)
    requires who in s.workers && s.workers[who].Pass?
    ensures Leaves(s, Committed(s, who))
  {
    var (t, taken) := (Committed(s, who), s.workers[who].taken);
    if t != s {
      assert t == s.(workers := s.workers[who := Discarding(taken)], files := s.files - taken);
      assert s.workers[who].read == map[];
      hide Committed;
      assert forall f :: Unmentioned(t, f) <==> Unmentioned(s, f);
      assert forall f <- t.files :: !OnDuty(s, s.workers[who], f);
      forall p, f | p in s.workers && f in t.files && OnDuty(s, s.workers[p], f) ensures p in t.workers && OnDuty(t, t.workers[p], f) {}
      hide Unmentioned, OnDuty;
      ObjectsAreSeenTo(s, t, who, taken);
      assert DutyStays(s, t);
    }
  }

  lemma ObjectsAreSeenTo(s: System, t: System, who: nat, taken: set<nat>)
    requires who in s.workers && s.workers[who].Pass?
    requires t == s.(workers := s.workers[who := Discarding(taken)], files := s.files - taken)
    ensures ObjectsStay(s, t)
  {
    assert who in t.workers && t.workers[who].Discarding? && t.workers[who].objects == taken;
  }

  /** What a save that may commit stamped: every file it newly names that is there, and it looked for a mention of each. */
  lemma WrittenIsStamped(s: System, w: Worker)
    requires w.Save? && Sound(s, w) && Written(s, w)
    ensures w.stamped.Keys == w.settled == Added(w) * s.files.Keys
  {
  }

  /** The mentions after a save lands, one by one. */
  lemma RenamedNames(s: System, w: Worker, m: (nat, nat))
    requires w.Save? && Sound(s, w)
    ensures m in Renamed(s, w) <==> (m in s.mentions && (m.0 != w.owner || m.1 !in w.removed)) || (m.0 == w.owner && m.1 in w.written)
    ensures m in Renamed(s, w) ==> Renamed(s, w)[m] == if m in s.mentions then s.mentions[m] else s.commits
  {
    hide Refused;
  }

  /** What a save that lands leaves of the others' sight: rows it did not stamp, mentions of those, and mention rows it did not write. */
  lemma SaveCommitFrames(s: System, who: nat, w: Worker)
    requires who in s.workers && s.workers[who].Save? && Written(s, s.workers[who])
    requires Sound(s, s.workers[who]) && Apart(s.workers[who], w)
    ensures var (t, a) := (Committed(s, who), s.workers[who]);
            && t.files.Keys == s.files.Keys && t.stamps == s.stamps && t.known == s.known
            && (forall f <- s.files :: f !in a.stamped ==> t.files[f] == s.files[f])
            && (forall f <- s.files :: f in a.stamped ==> t.files[f].claimedAt == Some(a.stamped[f]))
            && (forall f :: Unmentioned(s, f) && f !in a.stamped ==> Unmentioned(t, f))
            && (forall f :: Holds(w, f) ==> f !in a.stamped)
            && (forall m <- s.mentions :: m !in t.mentions ==> m.0 == a.owner && m.1 in a.removed)
            && (forall m <- t.mentions :: m !in s.mentions ==> m.0 == a.owner && m.1 in a.stamped)
            && t.commits == s.commits + 1 && (forall m <- t.mentions :: t.mentions[m] == if m in s.mentions then s.mentions[m] else s.commits)
  {
    var (t, a) := (Committed(s, who), s.workers[who]);
    WrittenIsStamped(s, a);
    assert forall f <- a.stamped :: Holds(a, f);
    hide Written, Lost;
    forall m: (nat, nat) ensures m in t.mentions <==> (m in s.mentions && (m.0 != a.owner || m.1 !in a.removed)) || (m.0 == a.owner && m.1 in a.written) {
      RenamedNames(s, a, m);
    }
  }

  lemma SaveCommitKeepsSound(s: System, who: nat, w: Worker)
    requires who in s.workers && s.workers[who].Save? && Written(s, s.workers[who])
    requires Sound(s, s.workers[who]) && Sound(s, w) && Apart(s.workers[who], w)
    ensures Sound(Committed(s, who), w)
  {
    SaveCommitFrames(s, who, w);
    var (t, a) := (Committed(s, who), s.workers[who]);
    hide Committed, Written, Refused;
    if w.Save? {
      SaveBesideSave(s, t, a, w);
    } else if w.Pass? {
      PassBesideSave(s, t, a, w);
    }
  }

  lemma SaveBesideSave(s: System, t: System, a: Worker, w: Worker)
    requires a.Save? && w.Save? && Sound(s, w) && Apart(a, w) && t.files.Keys == s.files.Keys && t.stamps == s.stamps && t.known == s.known
    requires forall f <- s.files :: f !in a.stamped ==> t.files[f] == s.files[f]
    requires forall m <- s.mentions :: m !in t.mentions ==> m.0 == a.owner && m.1 in a.removed
    requires forall m <- t.mentions :: m !in s.mentions ==> m.0 == a.owner && m.1 in a.stamped
    requires t.commits == s.commits + 1 && forall m <- t.mentions :: t.mentions[m] == if m in s.mentions then s.mentions[m] else s.commits
    ensures Sound(t, w)
  {
    assert forall f <- w.stamped :: Holds(w, f) && !Holds(a, f);
    assert forall f <- a.stamped :: Holds(a, f);
  }

  lemma PassBesideSave(s: System, t: System, a: Worker, w: Worker)
    requires a.Save? && w.Pass? && Sound(s, w) && Apart(a, w) && t.files.Keys == s.files.Keys && t.stamps == s.stamps
    requires forall f <- s.files :: f !in a.stamped ==> t.files[f] == s.files[f]
    requires forall f <- s.files :: f in a.stamped ==> t.files[f].claimedAt == Some(a.stamped[f])
    requires forall f :: Unmentioned(s, f) && f !in a.stamped ==> Unmentioned(t, f)
    ensures Sound(t, w)
  {
    hide Unmentioned;
    assert forall f <- w.taken :: Holds(w, f);
    assert forall f <- a.stamped :: Holds(a, f);
  }

  lemma SaveCommitStores(s: System, who: nat)
    requires Stored(s) && who in s.workers && s.workers[who].Save? && Sound(s, s.workers[who])
    ensures Stored(Committed(s, who))
  {
    var (t, a) := (Committed(s, who), s.workers[who]);
    if t != s {
      WrittenIsStamped(s, a);
      hide Written, Lost;
      forall m <- t.mentions ensures m in s.mentions || m.1 in a.stamped {
        RenamedNames(s, a, m);
      }
    }
  }

  lemma SaveCommitIsSafe(s: System, who: nat)
    requires Safe(s) && who in s.workers && s.workers[who].Save?
    ensures Safe(Committed(s, who))
  {
    var t := Committed(s, who);
    if t != s {
      SaveCommitStores(s, who);
      hide Stored;
      forall p <- s.workers | p != who ensures Sound(t, s.workers[p]) && Apart(t.workers[who], s.workers[p]) && Apart(s.workers[p], t.workers[who]) {
        SaveCommitKeepsSound(s, who, s.workers[p]);
      }
      assert Sound(t, t.workers[who]);
      hide Sound, Apart;
    }
  }

  /** A file whose last mention goes with a save is one the save hands over. */
  lemma SaveCommitLeaves(s: System, who: nat)
    requires Safe(s) && who in s.workers && s.workers[who].Save?
    ensures Leaves(s, Committed(s, who))
  {
    var (t, a) := (Committed(s, who), s.workers[who]);
    if t == s {
      NothingMoves(s);
    } else {
      SaveCommitDuties(s, who);
    }
  }

  lemma SaveCommitDuties(s: System, who: nat)
    requires Safe(s) && who in s.workers && s.workers[who].Save? && Written(s, s.workers[who])
    ensures Leaves(s, Committed(s, who))
  {
    var (t, a) := (Committed(s, who), s.workers[who]);
    WrittenIsStamped(s, a);
    hide Safe, Written, Lost, Unmentioned, Renamed, Refused, Leaves;
    forall f <- t.files | t.files[f].claimedAt.Some? && Unmentioned(t, f) && f !in t.missed
      ensures (exists p <- t.workers :: OnDuty(t, t.workers[p], f)) || (f !in a.stamped && s.files[f] == t.files[f] && Unmentioned(s, f))
    {
      LeftIsHanded(s, who, f);
    }
    HandsOver(s, t, who, (a.held.Keys - a.named) + a.extra, a.stamped.Keys);
  }

  lemma HandsOver(s: System, t: System, who: nat, us: set<nat>, stamped: set<nat>)
    requires who in s.workers && s.workers[who].Save? && t.workers == s.workers[who := Handed(us)]
    requires t.bucket == s.bucket && t.files.Keys == s.files.Keys && t.failed == s.failed && s.missed <= t.missed
    requires forall f <- s.files :: f !in stamped ==> t.files[f] == s.files[f]
    requires forall f <- t.files :: t.files[f].claimedAt.Some? && Unmentioned(t, f) && f !in t.missed ==>
               (exists p <- t.workers :: OnDuty(t, t.workers[p], f)) || (f !in stamped && s.files[f] == t.files[f] && Unmentioned(s, f))
    ensures Leaves(s, t)
  {
    forall p, f | p in s.workers && f in t.files && f !in stamped && OnDuty(s, s.workers[p], f) ensures p in t.workers && OnDuty(t, t.workers[p], f) {}
    hide OnDuty, Unmentioned;
  }

  lemma LeftIsHanded(s: System, who: nat, f: nat)
    requires Safe(s) && who in s.workers && s.workers[who].Save? && Written(s, s.workers[who])
    requires var t := Committed(s, who); f in t.files && t.files[f].claimedAt.Some? && Unmentioned(t, f) && f !in t.missed
    ensures var (t, a) := (Committed(s, who), s.workers[who]);
            (exists p <- t.workers :: OnDuty(t, t.workers[p], f)) || (f !in a.stamped && s.files[f] == t.files[f] && Unmentioned(s, f))
  {
    var (t, a) := (Committed(s, who), s.workers[who]);
    NoMentionLeft(s, who, f);
    assert Sound(s, a);
    hide Safe, Written, Renamed, Refused;
    if f in (a.held.Keys - a.named) + a.extra {
      assert who in t.workers && OnDuty(t, t.workers[who], f);
    } else {
      assert f !in a.removed && Unmentioned(s, f);
      if f in a.stamped {
        assert f !in Lost(s, who);
        var q :| q in s.workers && s.workers[q].Handed? && f in s.workers[q].files;
        assert q in t.workers && OnDuty(t, t.workers[q], f);
      }
    }
  }

  /** Where no mention is left after a save, it wrote none, and there was none it did not delete itself. */
  lemma NoMentionLeft(s: System, who: nat, f: nat)
    requires who in s.workers && s.workers[who].Save? && Written(s, s.workers[who]) && Sound(s, s.workers[who])
    ensures var (t, a) := (Committed(s, who), s.workers[who]);
            Unmentioned(t, f) <==> f !in a.written && forall m <- s.mentions :: m.1 == f ==> m.0 == a.owner && f in a.removed
  {
    var (t, a) := (Committed(s, who), s.workers[who]);
    hide Written, Lost;
    RenamedNames(s, a, (a.owner, f));
    forall m: (nat, nat) | m.1 == f ensures m in t.mentions <==> (m in s.mentions && (m.0 != a.owner || f !in a.removed)) || (m.0 == a.owner && f in a.written) {
      RenamedNames(s, a, m);
    }
    hide Sound, Renamed;
    if f in a.written {
      assert (a.owner, f) in t.mentions;
    }
  }

  /**
   A save leaves a file behind exactly when it is one of those it lost: it stamped the file on the strength of a mention another save of the
   row wrote after it read them, that mention is gone again, and the release that saw it go has read a stamp that is no longer there.
   */
  lemma SaveLosesExactly(s: System, who: nat, f: nat)
    requires Safe(s) && who in s.workers && s.workers[who].Save? && Written(s, s.workers[who]) && f in s.workers[who].stamped
    ensures var t := Committed(s, who);
            f in t.files && t.files[f].claimedAt.Some? &&
            ((Unmentioned(t, f) && forall p <- t.workers :: !OnDuty(t, t.workers[p], f)) <==> f in Lost(s, who))
  {
    var (t, a) := (Committed(s, who), s.workers[who]);
    OfSafe(s, who);
    assert f in s.files && f !in a.held && f !in a.removed;
    NoMentionLeft(s, who, f);
    assert t.workers == s.workers[who := Handed((a.held.Keys - a.named) + a.extra)];
    assert t.files[f].claimedAt == Some(a.stamped[f]) && t.files.Keys == s.files.Keys;
    hide Safe, Stored, Renamed, Written, Refused, Committed, Sound;
    assert Unmentioned(t, f) <==> f !in a.written && Unmentioned(s, f);
    hide Unmentioned;
    forall p <- s.workers | p != who ensures OnDuty(t, s.workers[p], f) <==> s.workers[p].Handed? && f in s.workers[p].files {
      NobodyReadsIt(s, t, who, p, f);
    }
    assert OnDuty(t, t.workers[who], f) <==> f in a.extra;
    hide OnDuty, Apart;
    if forall p <- t.workers :: !OnDuty(t, t.workers[p], f) {
      assert !OnDuty(t, t.workers[who], f);
      forall q <- s.workers ensures !(s.workers[q].Handed? && f in s.workers[q].files) {
        assert q != who ==> !OnDuty(t, t.workers[q], f);
      }
    }
  }

  lemma NobodyReadsIt(s: System, t: System, who: nat, p: nat, f: nat)
    requires who in s.workers && p in s.workers && s.workers[who].Save? && f in s.workers[who].stamped
    requires Apart(s.workers[who], s.workers[p]) && f in t.files && t.files[f].claimedAt == Some(s.workers[who].stamped[f])
    ensures OnDuty(t, s.workers[p], f) <==> s.workers[p].Handed? && f in s.workers[p].files
  {
    assert Holds(s.workers[who], f);
  }

  // ---------------------------------------------------------------- over whole runs

  lemma EventKeepsInv(s: System, e: Event)
    requires Inv(s)
    ensures Inv(Apply(s, e))
  {
    EventIsSafe(s, e);
    EventLeaves(s, e);
    hide Safe, Apply, DutyStays, ObjectsStay, NothingLeft, NoneOver;
    if !Apply(s, e).failed {
      DutyIsKept(s, Apply(s, e));
      ObjectsAreKept(s, Apply(s, e));
    }
  }

  lemma EventIsSafe(s: System, e: Event)
    requires Safe(s)
    ensures Safe(Apply(s, e))
  {
    hide Safe, Uploaded, Begun, Removed, Stamped, Wrote, Ended, Reads, Checked, Taken, Swept, Discarded;
    match e {
      case Upload(f, path) => UploadIsSafe(s, f, path);
      case Begin(_, _, _, _, _) => BeginIsSafe(s, e);
      case Unmention(who, f) => UnmentionIsSafe(s, who, f);
      case Stamp(who, f, at) => StampIsSafe(s, who, f, at);
      case Write(who, f) => WriteIsSafe(s, who, f);
      case Refuse(who) => EndIsSafe(s, who, true);
      case Commit(who) => CommitIsSafe(s, who);
      case Read(who) => ReadIsSafe(s, who);
      case Check(who, f) => CheckIsSafe(s, who, f);
      case Take(who, f) => TakeIsSafe(s, who, f);
      case Sweep(who, batch) => SweepIsSafe(s, who, batch);
      case Discard(who, f, refused) => DiscardIsSafe(s, who, f, refused);
      case Crash(who) => EndIsSafe(s, who, false);
    }
  }

  lemma CommitIsSafe(s: System, who: nat)
    requires Safe(s)
    ensures Safe(Committed(s, who))
  {
    hide Safe;
    if who in s.workers && s.workers[who].Pass? {
      PassCommitIsSafe(s, who);
    } else if who in s.workers && s.workers[who].Save? {
      SaveCommitIsSafe(s, who);
    }
  }

  lemma CommitLeaves(s: System, who: nat)
    requires Safe(s)
    ensures Leaves(s, Committed(s, who))
  {
    hide Safe, Leaves;
    if who in s.workers && s.workers[who].Pass? {
      PassCommitLeaves(s, who);
    } else if who in s.workers && s.workers[who].Save? {
      SaveCommitLeaves(s, who);
    } else {
      NothingMoves(s);
    }
  }

  lemma EventLeaves(s: System, e: Event)
    requires Safe(s)
    ensures Leaves(s, Apply(s, e))
  {
    hide Safe, Leaves, Committed;
    match e {
      case Upload(f, path) => UploadLeaves(s, f, path);
      case Begin(_, _, _, _, _) => BeginLeaves(s, e);
      case Unmention(who, f) => SaveStepLeaves(s, who, Apply(s, e));
      case Stamp(who, f, at) => SaveStepLeaves(s, who, Apply(s, e));
      case Write(who, f) => SaveStepLeaves(s, who, Apply(s, e));
      case Refuse(who) => EndLeaves(s, who, true);
      case Commit(who) => CommitLeaves(s, who);
      case Read(who) => ReadLeaves(s, who);
      case Check(who, f) => CheckLeaves(s, who, f);
      case Take(who, f) => TakeLeaves(s, who, f);
      case Sweep(who, batch) => SweepLeaves(s, who, batch);
      case Discard(who, f, refused) => DiscardLeaves(s, who, f, refused);
      case Crash(who) => EndLeaves(s, who, false);
    }
  }

  lemma SaveStepLeaves(s: System, who: nat, t: System)
    requires t == s || (&& who in s.workers && s.workers[who].Save? && who in t.workers && t.workers[who].Save?
                        && t == s.(workers := s.workers[who := t.workers[who]], stamps := t.stamps))
    ensures Leaves(s, t)
  {
    hide Leaves;
    if t == s {
      NothingMoves(s);
    } else {
      SaveLeaves(s, t, who);
    }
  }

  lemma {:induction false} RunKeepsInv(s: System, events: seq<Event>)
    requires Inv(s)
    ensures Inv(Run(s, events))
    decreases |events|
  {
    hide Inv, Apply;
    if events != [] {
      EventKeepsInv(s, events[0]);
      RunKeepsInv(Apply(s, events[0]), events[1..]);
    }
  }

  /** However saves, releases and sweeps interleave and die, any number of them on one row, what a committed mention names is still stored, row and object. */
  lemma EveryRunKeepsWhatIsNamed(events: seq<Event>)
    ensures var t := Run(START, events); forall m <- t.mentions :: m.1 in t.files && m.1 in t.bucket
  {
    RunKeepsInv(START, events);
  }

  predicate Quiet(s: System) {
    forall p <- s.workers :: s.workers[p].Discarding?
  }

  predicate Idle(s: System) {
    forall p <- s.workers :: s.workers[p] == Discarding({})
  }

  /**
   Whoever dropped a file last saw it deleted: once no save, release or sweep is open and none died on the way, a file that was ever named is
   named now or is one of those a save lost, and once the bucket answered too it holds the objects of the stored files and nothing else.
   */
  lemma EveryRunLeaksNothing(events: seq<Event>)
    requires var t := Run(START, events); !t.failed && Quiet(t)
    ensures var t := Run(START, events);
            && (forall f <- t.files :: t.files[f].claimedAt.Some? ==> f in t.missed || exists m <- t.mentions :: m.1 == f)
            && (Idle(t) ==> t.bucket == t.files.Keys)
  {
    RunKeepsInv(START, events);
    var t := Run(START, events);
    forall f <- t.files | t.files[f].claimedAt.Some? && f !in t.missed ensures exists m <- t.mentions :: m.1 == f {
      assert forall p <- t.workers :: !OnDuty(t, t.workers[p], f);
    }
  }

  // ---------------------------------------------------------------- one writer of a row at a time

  /** A save that begins while another save of its row is open. */
  predicate Crosses(s: System, e: Event) {
    e.Begin? && Saving(s, e.owner)
  }

  predicate NoneCross(s: System, events: seq<Event>)
    decreases |events|
  {
    events != [] ==> !Crosses(s, events[0]) && NoneCross(Apply(s, events[0]), events[1..])
  }

  /** What a save read of its row's mentions is what is there, and it wrote every mention it looked for. */
  ghost predicate UpToDateSave(s: System, w: Worker)
    requires w.Save?
  {
    && (forall f: nat :: f in w.held <==> (w.owner, f) in s.mentions)
    && (forall f <- w.held :: w.held[f] == s.mentions[(w.owner, f)])
    && w.written == w.settled
  }

  ghost predicate UpToDate(s: System) {
    && (forall p <- s.workers :: s.workers[p].Save? ==> UpToDateSave(s, s.workers[p]))
    && (forall p, q :: p in s.workers && q in s.workers && p != q && s.workers[p].Save? && s.workers[q].Save? ==> s.workers[p].owner != s.workers[q].owner)
  }

  /** A step of one worker that leaves the mentions alone. */
  lemma OneStaysUpToDate(s: System, t: System, who: nat, w: Worker)
    requires UpToDate(s) && t.workers == s.workers[who := w] && t.mentions == s.mentions
    requires w.Save? ==> UpToDateSave(s, w) && if who in s.workers && s.workers[who].Save? then w.owner == s.workers[who].owner else !Saving(s, w.owner)
    ensures UpToDate(t)
  {
    forall p <- t.workers | t.workers[p].Save? ensures UpToDateSave(t, t.workers[p]) {
      assert p != who ==> UpToDateSave(s, s.workers[p]);
    }
    hide UpToDateSave;
  }

  lemma BeginIsUpToDate(s: System, e: Event)
    requires e.Begin? && e.who !in s.workers
    ensures UpToDateSave(s, Begun(s, e).workers[e.who])
  {
  }

  lemma StampIsUpToDate(s: System, e: Event)
    requires (e.Unmention? || e.Stamp?) && e.who in s.workers && s.workers[e.who].Save? && UpToDateSave(s, s.workers[e.who])
    ensures var t := Apply(s, e); t.workers[e.who].Save? && t.workers[e.who].owner == s.workers[e.who].owner && UpToDateSave(s, t.workers[e.who])
  {
    hide Locked, Unmentioning;
  }

  lemma WriteIsUpToDate(s: System, who: nat, f: nat)
    requires who in s.workers && s.workers[who].Save? && UpToDateSave(s, s.workers[who])
    ensures var t := Wrote(s, who, f); t.workers[who].Save? && t.workers[who].owner == s.workers[who].owner && UpToDateSave(s, t.workers[who])
  {
    hide Refused;
  }

  lemma SaveStepMovesOne(s: System, e: Event)
    requires e.Begin? || e.Unmention? || e.Stamp? || e.Write?
    ensures var t := Apply(s, e);
            && t.mentions == s.mentions && t.missed == s.missed
            && (t != s ==>
                  && e.who in t.workers && t.workers == s.workers[e.who := t.workers[e.who]] && t.workers[e.who].Save?
                  && (if e.Begin? then e.who !in s.workers && t.workers[e.who].owner == e.owner && t == Begun(s, e)
                      else e.who in s.workers && s.workers[e.who].Save? && t.workers[e.who].owner == s.workers[e.who].owner))
  {
    hide Refused, Locked, Unmentioning, Held;
  }

  lemma SaveStepKeepsUpToDate(s: System, e: Event)
    requires UpToDate(s) && !Crosses(s, e) && (e.Begin? || e.Unmention? || e.Stamp? || e.Write?)
    ensures UpToDate(Apply(s, e)) && Apply(s, e).missed == s.missed
  {
    var t := Apply(s, e);
    SaveStepMovesOne(s, e);
    if t != s {
      if e.Begin? {
        BeginIsUpToDate(s, e);
      } else {
        assert UpToDateSave(s, s.workers[e.who]);
        if e.Write? {
          assert t == Wrote(s, e.who, e.file);
          WriteIsUpToDate(s, e.who, e.file);
        } else {
          StampIsUpToDate(s, e);
        }
      }
      hide UpToDateSave, UpToDate, Apply, Begun, Wrote;
      OneStaysUpToDate(s, t, e.who, t.workers[e.who]);
    }
  }

  /** The other steps open no save, change none and leave the mentions alone. */
  lemma OtherStepKeepsUpToDate(s: System, e: Event)
    requires UpToDate(s) && !(e.Begin? || e.Unmention? || e.Stamp? || e.Write?)
    requires e.Commit? ==> e.who !in s.workers || !s.workers[e.who].Save?
    ensures UpToDate(Apply(s, e)) && Apply(s, e).missed == s.missed
  {
    hide UpToDate;
    OtherStepKeepsSaves(s, e);
    SameSavesUpToDate(s, Apply(s, e));
  }

  lemma OtherStepKeepsSaves(s: System, e: Event)
    requires !(e.Begin? || e.Unmention? || e.Stamp? || e.Write?)
    requires e.Commit? ==> e.who !in s.workers || !s.workers[e.who].Save?
    ensures var t := Apply(s, e);
            && t.mentions == s.mentions && t.missed == s.missed
            && forall p <- t.workers :: t.workers[p].Save? ==> p in s.workers && t.workers[p] == s.workers[p]
  {
    hide Unmentioned, Locked, Refused;
  }

  lemma SameSavesUpToDate(s: System, t: System)
    requires UpToDate(s) && t.mentions == s.mentions
    requires forall p <- t.workers :: t.workers[p].Save? ==> p in s.workers && t.workers[p] == s.workers[p]
    ensures UpToDate(t)
  {
    forall p <- t.workers | t.workers[p].Save? ensures UpToDateSave(t, t.workers[p]) {
      assert UpToDateSave(s, s.workers[p]);
    }
    hide UpToDateSave;
  }

  lemma CommitKeepsUpToDate(s: System, who: nat)
    requires Safe(s) && UpToDate(s) && who in s.workers && s.workers[who].Save?
    ensures UpToDate(Committed(s, who)) && Committed(s, who).missed == s.missed
  {
    var (t, a) := (Committed(s, who), s.workers[who]);
    if t != s {
      OfSafe(s, who);
      WrittenIsStamped(s, a);
      assert UpToDateSave(s, a);
      assert Lost(s, who) == {};
      assert t.workers == s.workers[who := Handed((a.held.Keys - a.named) + a.extra)] && t.missed == s.missed && t.mentions == Renamed(s, a);
      hide Safe, Written, Committed, Lost;
      forall p <- t.workers | t.workers[p].Save? ensures UpToDateSave(t, t.workers[p]) {
        assert p != who && s.workers[p].owner != a.owner && UpToDateSave(s, s.workers[p]);
        OtherRowsKeep(s, a, t, s.workers[p]);
      }
      hide UpToDateSave;
    }
  }

  lemma OtherRowsKeep(s: System, a: Worker, t: System, w: Worker)
    requires a.Save? && Sound(s, a) && t.mentions == Renamed(s, a) && w.Save? && w.owner != a.owner && UpToDateSave(s, w)
    ensures UpToDateSave(t, w)
  {
    forall f: nat ensures (w.owner, f) in t.mentions <==> (w.owner, f) in s.mentions {
      RenamedNames(s, a, (w.owner, f));
    }
  }

  lemma EventKeepsUpToDate(s: System, e: Event)
    requires Inv(s) && UpToDate(s) && !Crosses(s, e)
    ensures UpToDate(Apply(s, e)) && Apply(s, e).missed == s.missed
  {
    hide UpToDate, Safe;
    if e.Begin? || e.Unmention? || e.Stamp? || e.Write? {
      SaveStepKeepsUpToDate(s, e);
    } else if e.Commit? && e.who in s.workers && s.workers[e.who].Save? {
      CommitKeepsUpToDate(s, e.who);
    } else {
      OtherStepKeepsUpToDate(s, e);
    }
  }

  lemma {:induction false} RunKeepsUpToDate(s: System, events: seq<Event>)
    requires Inv(s) && UpToDate(s) && NoneCross(s, events)
    ensures UpToDate(Run(s, events)) && Run(s, events).missed == s.missed
    decreases |events|
  {
    hide Inv, UpToDate, Apply, Crosses;
    if events != [] {
      EventKeepsInv(s, events[0]);
      EventKeepsUpToDate(s, events[0]);
      RunKeepsUpToDate(Apply(s, events[0]), events[1..]);
    }
  }

  /** So no save loses a file as long as saves of one row do not cross, which is what the lock on the row gives an edit that changes it. */
  lemma EveryRunWithoutCrossingLosesNothing(events: seq<Event>)
    requires NoneCross(START, events)
    ensures Run(START, events).missed == {}
  {
    RunKeepsUpToDate(START, events);
  }

  /** The mentions of a row are some names, as far as those are stored. */
  ghost predicate MentionsAre(s: System, owner: nat, named: set<nat>) {
    forall f: nat :: (owner, f) in s.mentions <==> f in named && f in s.files
  }

  /** And each of them that lands leaves the mentions of its row at exactly what it names of what is stored. */
  lemma EveryUncrossedSaveIsExact(events: seq<Event>, who: nat)
    requires NoneCross(START, events) && who in Run(START, events).workers && Run(START, events).workers[who].Save?
    requires Apply(Run(START, events), Commit(who)) != Run(START, events)
    ensures var w := Run(START, events).workers[who];
            MentionsAre(Apply(Run(START, events), Commit(who)), w.owner, w.named)
  {
    StartIsUpToDate();
    hide Safe, UpToDate, Committed, Run, NothingLeft, NoneOver, NoneCross;
    RunKeepsInv(START, events);
    RunKeepsUpToDate(START, events);
    var s := Run(START, events);
    assert Apply(s, Commit(who)) == Committed(s, who);
    hide Apply;
    UpToDateIsExact(s, who);
  }

  lemma StartIsUpToDate()
    ensures Inv(START) && UpToDate(START)
  {
  }

  lemma UpToDateIsExact(s: System, who: nat)
    requires Safe(s) && UpToDate(s) && who in s.workers && s.workers[who].Save? && Committed(s, who) != s
    ensures MentionsAre(Committed(s, who), s.workers[who].owner, s.workers[who].named)
  {
    var (t, w) := (Committed(s, who), s.workers[who]);
    OfSafe(s, who);
    assert UpToDateSave(s, w);
    WrittenIsStamped(s, w);
    assert t.files.Keys == s.files.Keys && t.mentions == Renamed(s, w);
    hide Safe, Written, Committed, Lost, UpToDate;
    forall f: nat ensures (w.owner, f) in t.mentions <==> f in w.named && f in t.files {
      RenamedNames(s, w, (w.owner, f));
      assert (w.owner, f) in s.mentions ==> f in s.files;
    }
  }

  // ---------------------------------------------------------------- what one save leaves

  /** A save is of the row, the names, the keys and the other candidates it was begun with, until it lands. */
  lemma SaveIsAsBegun(s: System, e: Event, who: nat)
    ensures e.Begin? && e.who !in s.workers ==>
              var w := Apply(s, e).workers[e.who];
              w.Save? && w.owner == e.owner && w.named == e.named && w.keys == e.keys && w.extra == e.extra
    ensures var t := Apply(s, e);
            who in s.workers && who in t.workers && s.workers[who].Save? && t.workers[who].Save? ==> SameSave(s.workers[who], t.workers[who])
  {
    hide Held, Refused, Unmentioned, Locked, Unmentioning, Lost, Renamed, Written;
    match e {
      case Begin(_, _, _, _, _) =>
      case Unmention(_, _) =>
      case Stamp(_, _, _) =>
      case Write(_, _) =>
      case Commit(_) =>
      case _ =>
    }
  }

  predicate SameSave(w: Worker, v: Worker)
    requires w.Save? && v.Save?
  {
    v.owner == w.owner && v.named == w.named && v.keys == w.keys && v.extra == w.extra
  }

  /** Crossed or not, a save that lands hands over what it read and does not name, with its other candidates, and the mention rows it read of those are gone. */
  lemma DroppedIsGone(s: System, who: nat, f: nat)
    requires Safe(s) && who in s.workers && s.workers[who].Save? && Committed(s, who) != s
    ensures var (t, w) := (Committed(s, who), s.workers[who]);
            && (f in w.held && f !in w.named && (w.owner, f) in s.mentions && s.mentions[(w.owner, f)] == w.held[f] ==> (w.owner, f) !in t.mentions)
            && who in t.workers && t.workers[who].Handed?
            && (f in t.workers[who].files <==> (f in w.held && f !in w.named) || f in w.extra)
  {
    var (t, w) := (Committed(s, who), s.workers[who]);
    OfSafe(s, who);
    assert t.mentions == Renamed(s, w) && t.workers[who] == Handed((w.held.Keys - w.named) + w.extra);
    assert w.drop == {};
    hide Safe, Written, Committed, Lost;
    RenamedNames(s, w, (w.owner, f));
  }

  /** What others did to the mentions of a row since a save of it read them: nothing it does not name came, and nothing it names went. */
  ghost predicate Unspoiled(s: System, w: Worker)
    requires w.Save?
  {
    && (forall f <- Held(s, w.owner) :: f in w.named || f in w.removed)
    && (forall f <- w.named * s.files.Keys :: f in Held(s, w.owner) || f in w.written)
  }

  /**
   A save whose statements ran is refused exactly when a file column newly names a key no stored file has. One that lands leaves every such
   file stored under that key, object included, and touches the mentions of no other row; its own are what it names of what is stored exactly
   when nobody who crossed it spoiled them.
   */
  lemma SaveLandsOrIsRefused(s: System, who: nat)
    requires Safe(s) && who in s.workers && s.workers[who].Save? && s.workers[who].drop + s.workers[who].todo == {}
    requires Added(s.workers[who]) * s.files.Keys <= s.workers[who].settled || Refused(s, s.workers[who])
    ensures var (t, w) := (Committed(s, who), s.workers[who]);
            && (t == s <==> exists k <- w.keys :: k.0 in w.named && k.0 !in w.held && !(k.0 in s.files && s.files[k.0].path == k.1))
            && (t != s ==> forall k <- w.keys | k.0 in w.named && k.0 !in w.held :: k.0 in t.files && t.files[k.0].path == k.1 && k.0 in t.bucket)
            && (t != s ==> (Held(t, w.owner).Keys == w.named * t.files.Keys <==> Unspoiled(s, w)))
            && (forall m: (nat, nat) :: m.0 != w.owner ==> (m in t.mentions <==> m in s.mentions))
  {
    var (t, w) := (Committed(s, who), s.workers[who]);
    hide Unspoiled;
    SaveLandsOrStays(s, who);
    if t != s {
      OfSafe(s, who);
      HeldIsStored(s, w.owner);
      hide Safe, Sound, Written, Refused, Lost, Committed, Renamed, Held;
      SaveLeavesItsNames(s, t, w);
    }
  }

  lemma SaveLandsOrStays(s: System, who: nat)
    requires Safe(s) && who in s.workers && s.workers[who].Save? && s.workers[who].drop + s.workers[who].todo == {}
    requires Added(s.workers[who]) * s.files.Keys <= s.workers[who].settled || Refused(s, s.workers[who])
    ensures var (t, w) := (Committed(s, who), s.workers[who]);
            && (t == s <==> Refused(s, w))
            && (t != s ==>
                  && t.files.Keys == s.files.Keys && t.bucket == s.bucket && (forall f <- s.files :: t.files[f].path == s.files[f].path)
                  && (forall f <- s.files :: f in s.bucket)
                  && (forall m: (nat, nat) :: m in t.mentions <==> (m in s.mentions && (m.0 != w.owner || m.1 !in w.removed)) || (m.0 == w.owner && m.1 in w.written)))
  {
    var (t, w) := (Committed(s, who), s.workers[who]);
    OfSafe(s, who);
    if t != s {
      assert t.files.Keys == s.files.Keys && t.bucket == s.bucket && t.mentions == Renamed(s, w) && forall f <- s.files :: t.files[f].path == s.files[f].path;
      hide Safe, Sound, Written, Refused, Lost, Committed;
      forall m: (nat, nat) ensures m in t.mentions <==> (m in s.mentions && (m.0 != w.owner || m.1 !in w.removed)) || (m.0 == w.owner && m.1 in w.written) {
        RenamedNames(s, w, m);
      }
    } else {
      assert t.workers[who].Save?;
    }
  }

  lemma HeldIsStored(s: System, o: nat)
    requires Stored(s)
    ensures forall f <- Held(s, o) :: f in s.files
  {
    forall f <- Held(s, o) ensures f in s.files {
      assert (o, f) in s.mentions;
    }
  }

  lemma HeldIs(s: System, o: nat, f: nat)
    ensures f in Held(s, o) <==> (o, f) in s.mentions
  {
  }

  lemma SaveLeavesItsNames(s: System, t: System, w: Worker)
    requires w.Save? && Sound(s, w) && t.files.Keys == s.files.Keys
    requires forall m: (nat, nat) :: m in t.mentions <==> (m in s.mentions && (m.0 != w.owner || m.1 !in w.removed)) || (m.0 == w.owner && m.1 in w.written)
    requires forall f <- Held(s, w.owner) :: f in s.files
    ensures Held(t, w.owner).Keys == w.named * t.files.Keys <==> Unspoiled(s, w)
  {
    assert forall f <- w.written :: f in w.named && f in s.files;
    assert forall f <- w.removed :: f !in w.named;
    hide Held, Sound;
    forall f: nat ensures f in Held(t, w.owner) <==> (f in Held(s, w.owner) && f !in w.removed) || f in w.written {
      HeldIs(t, w.owner, f);
      HeldIs(s, w.owner, f);
    }
  }

  lemma OthersUnnameNothing(s: System, e: Event, o: nat, f: nat)
    requires (o, f) in s.mentions && !Saving(s, o) && (e.Begin? ==> e.owner != o)
    ensures var t := Apply(s, e); (o, f) in t.mentions && !Saving(t, o)
  {
    hide Refused, Held, Unmentioned, Locked, Unmentioning, Lost;
  }

  /** Once a save named a file, nobody but another save of the same row ever takes it away. */
  lemma {:induction false} NamedFileStays(s: System, events: seq<Event>, o: nat, f: nat)
    requires Inv(s) && (o, f) in s.mentions && !Saving(s, o)
    requires forall i :: 0 <= i < |events| && events[i].Begin? ==> events[i].owner != o
    ensures var t := Run(s, events); (o, f) in t.mentions && f in t.files && f in t.bucket
    decreases |events|
  {
    hide Apply, NothingLeft, NoneOver;
    if events != [] {
      OthersUnnameNothing(s, events[0], o, f);
      EventKeepsInv(s, events[0]);
      NamedFileStays(Apply(s, events[0]), events[1..], o, f);
    }
  }

  // ---------------------------------------------------------------- nothing stands still

  /** No row and no mention another open transaction wrote stands in the way of a worker. */
  predicate Free(s: System, who: nat) {
    forall q <- s.workers :: q != who ==>
      match s.workers[q]
      case Save(_, _, _, _, _, _, removed, _, stamped, _, _) => removed == {} && stamped == map[]
      case Pass(_, _, taken) => taken == {}
      case _ => true
  }

  /** What a save has left to do of its own statements. */
  function Left(files: set<nat>, w: Worker): nat
    requires w.Save?
  {
    |w.drop| + |w.todo| + |Added(w) * files - w.settled|
  }

  /** A deletion of a mention that nobody else is deleting is done: it took the row it read, and passed over one that is gone or another one. */
  lemma UnmentionDoes(s: System, who: nat, f: nat)
    requires who in s.workers && s.workers[who].Save? && f in s.workers[who].drop && f in s.workers[who].held
    requires !exists q <- s.workers :: q != who && s.workers[q].Save? && s.workers[q].owner == s.workers[who].owner && f in s.workers[q].removed
    ensures var (w, t) := (s.workers[who], Apply(s, Unmention(who, f)));
            var there := (w.owner, f) in s.mentions && s.mentions[(w.owner, f)] == w.held[f];
            t == s.(workers := s.workers[who := w.(drop := w.drop - {f}, removed := if there then w.removed + {f} else w.removed)])
  {
  }

  /** A stamp on a row nobody else has written is done, and a row that is gone is passed over. */
  lemma StampDoes(s: System, who: nat, f: nat, at: nat)
    requires who in s.workers && s.workers[who].Save? && s.workers[who].drop == {} && f in s.workers[who].todo && (f, at) !in s.stamps
    requires !exists q <- s.workers :: q != who && Holds(s.workers[q], f)
    ensures var (w, t) := (s.workers[who], Apply(s, Stamp(who, f, at)));
            && who in t.workers && t.files == s.files && t.mentions == s.mentions
            && t.workers == s.workers[who := w.(todo := w.todo - {f}, stamped := if f in s.files then w.stamped[f := at] else w.stamped)]
  {
  }

  /** A release reads the files it was handed that are there, each under its stamp, and a sweep the files of its batch that were never claimed; neither reads another. */
  lemma PassesRead(s: System, who: nat, batch: set<nat>, f: nat)
    ensures who in s.workers && s.workers[who].Handed? ==>
              var t := Apply(s, Read(who));
              && who in t.workers && t == s.(workers := s.workers[who := t.workers[who]]) && t.workers[who].Pass? && t.workers[who].ready == t.workers[who].taken == {}
              && (f in t.workers[who].read <==> f in s.workers[who].files && f in s.files)
              && (f in t.workers[who].read ==> t.workers[who].read[f] == s.files[f].claimedAt)
    ensures who !in s.workers ==>
              var t := Apply(s, Sweep(who, batch));
              && who in t.workers && t == s.(workers := s.workers[who := t.workers[who]]) && t.workers[who].Pass? && t.workers[who].taken == {}
              && (f in t.workers[who].read <==> f in batch && f in s.files && s.files[f].claimedAt == None)
              && (f in t.workers[who].read ==> f in t.workers[who].ready && t.workers[who].read[f] == None)
  {
  }

  /** A deletion of a file is readied exactly when the stamp it read stands and nothing names the file, and is given up otherwise. */
  lemma CheckDoes(s: System, who: nat, f: nat)
    requires who in s.workers && s.workers[who].Pass? && f in s.workers[who].read && f !in s.workers[who].ready
    ensures var (w, t) := (s.workers[who], Apply(s, Check(who, f)));
            var right := f in s.files && s.files[f].claimedAt == w.read[f] && forall m <- s.mentions :: m.1 != f;
            t == s.(workers := s.workers[who := if right then w.(ready := w.ready + {f}) else w.(read := w.read - {f})])
  {
  }

  /** One that is ready, on a row nobody else has written, takes the file exactly when it is there under the stamp it read. */
  lemma TakeDoes(s: System, who: nat, f: nat)
    requires who in s.workers && s.workers[who].Pass? && f in s.workers[who].ready && f in s.workers[who].read
    requires !exists q <- s.workers :: q != who && Holds(s.workers[q], f)
    ensures var (w, t) := (s.workers[who], Apply(s, Take(who, f)));
            var right := f in s.files && s.files[f].claimedAt == w.read[f];
            t == s.(workers := s.workers[who := w.(read := w.read - {f}, ready := w.ready - {f}, taken := if right then w.taken + {f} else w.taken)])
  {
  }

  /** A worker that dies or is refused is gone with what it had not committed, which is missed only where it was no save. */
  lemma EndDoes(s: System, who: nat)
    requires who in s.workers
    ensures Apply(s, Crash(who)) == s.(workers := s.workers - {who}, failed := s.failed || !s.workers[who].Save?)
    ensures Apply(s, Refuse(who)) == if s.workers[who].Save? then s.(workers := s.workers - {who}) else s
  {
  }

  /** An object is gone from the bucket, or the bucket refused, and either way it is seen to. */
  lemma DiscardDoes(s: System, who: nat, f: nat, refused: bool)
    requires who in s.workers && s.workers[who].Discarding? && f in s.workers[who].objects
    ensures var t := Apply(s, Discard(who, f, refused));
            t == s.(workers := s.workers[who := Discarding(s.workers[who].objects - {f})],
                    bucket := if refused then s.bucket else s.bucket - {f}, failed := s.failed || refused)
  {
  }

  lemma {:induction false} Above(ks: set<nat>) returns (at: nat)
    ensures forall k <- ks :: k < at
    decreases |ks|
  {
    if ks == {} {
      at := 0;
    } else {
      var k :| k in ks;
      var rest := Above(ks - {k});
      at := if k < rest then rest else k + 1;
      forall j <- ks ensures j < at {
        assert j != k ==> j in ks - {k};
      }
    }
  }

  /** A stamp nobody was given for a file. */
  lemma SomeStamp(stamps: set<(nat, nat)>, f: nat) returns (at: nat)
    ensures (f, at) !in stamps
  {
    var ks := set m <- stamps | m.0 == f :: m.1;
    at := Above(ks);
    assert (f, at) in stamps ==> at in ks;
  }

  /** The save has landed, or a key it newly names is of no stored file. */
  predicate IsOver(s: System, who: nat) {
    who in s.workers && (s.workers[who].Handed? || (s.workers[who].Save? && s.workers[who].drop + s.workers[who].todo == {} && Refused(s, s.workers[who])))
  }

  /** A save nobody stands in the way of comes to its end by its own statements. */
  lemma {:induction false} SaveFinishes(s: System, who: nat) returns (events: seq<Event>)
    requires Inv(s) && Free(s, who) && who in s.workers && s.workers[who].Save?
    ensures IsOver(Run(s, events), who)
    decreases Left(s.files.Keys, s.workers[who])
  {
    var w := s.workers[who];
    OfSafe(s, who);
    if w.drop + w.todo == {} && (Refused(s, w) || Added(w) * s.files.Keys <= w.settled) {
      events := if Refused(s, w) then [] else [Commit(who)];
      Ends(s, who);
    } else {
      var e := NextStatement(s, who);
      EventKeepsInv(s, e);
      events := SaveFinishes(Apply(s, e), who);
      events := [e] + events;
      hide Inv, Apply, IsOver;
      assert events[1..] == events[1..] && Run(s, events) == Run(Apply(s, e), events[1..]);
    }
  }

  lemma Ends(s: System, who: nat)
    requires Inv(s) && who in s.workers && s.workers[who].Save? && s.workers[who].drop + s.workers[who].todo == {}
    requires Refused(s, s.workers[who]) || Added(s.workers[who]) * s.files.Keys <= s.workers[who].settled
    ensures if Refused(s, s.workers[who]) then IsOver(Run(s, []), who) else IsOver(Run(s, [Commit(who)]), who)
  {
    hide Inv, Refused;
    assert [Commit(who)][1..] == [];
    assert Run(s, []) == s && Run(s, [Commit(who)]) == Run(Apply(s, Commit(who)), []);
  }

  /** A statement of the save was done, and less is left. */
  ghost predicate Progressed(s: System, who: nat, t: System) {
    && who in s.workers && s.workers[who].Save? && who in t.workers && t.workers[who].Save?
    && Free(t, who) && t.files == s.files && Left(t.files.Keys, t.workers[who]) < Left(s.files.Keys, s.workers[who])
  }

  lemma NextStatement(s: System, who: nat) returns (e: Event)
    requires Safe(s) && Free(s, who) && who in s.workers && s.workers[who].Save?
    requires var w := s.workers[who]; !(w.drop + w.todo == {} && (Refused(s, w) || Added(w) * s.files.Keys <= w.settled))
    ensures Progressed(s, who, Apply(s, e))
  {
    hide Progressed, Apply, Left;
    var w := s.workers[who];
    OfSafe(s, who);
    assert w.drop <= w.held.Keys;
    hide Safe, Sound, Stored;
    if w.drop != {} {
      var f :| f in w.drop;
      e := Unmention(who, f);
      UnmentionProgresses(s, who, f);
    } else if w.todo != {} {
      var f :| f in w.todo;
      var at := SomeStamp(s.stamps, f);
      e := Stamp(who, f, at);
      StampProgresses(s, who, f, at);
    } else {
      assert !(Added(w) * s.files.Keys <= w.settled);
      var f :| f in Added(w) * s.files.Keys && f !in w.settled;
      e := Write(who, f);
      WriteProgresses(s, who, f);
    }
  }

  lemma UnmentionProgresses(s: System, who: nat, f: nat)
    requires Free(s, who) && who in s.workers && s.workers[who].Save? && f in s.workers[who].drop && f in s.workers[who].held
    ensures Progressed(s, who, Apply(s, Unmention(who, f)))
  {
    UnmentionDoes(s, who, f);
    hide Apply;
    LessLeft(s.files.Keys, s.workers[who], Apply(s, Unmention(who, f)).workers[who]);
  }

  lemma StampProgresses(s: System, who: nat, f: nat, at: nat)
    requires Free(s, who) && who in s.workers && s.workers[who].Save? && s.workers[who].drop == {} && f in s.workers[who].todo && (f, at) !in s.stamps
    ensures Progressed(s, who, Apply(s, Stamp(who, f, at)))
  {
    StampDoes(s, who, f, at);
    var (t, w) := (Apply(s, Stamp(who, f, at)), s.workers[who]);
    assert t.workers[who].Save? && Added(t.workers[who]) == Added(w);
    hide Apply, Added;
    LessLeft(s.files.Keys, w, t.workers[who]);
    hide Left, Holds;
  }

  /** The mention of a file that is newly named and there is found or written. */
  lemma WriteDoes(s: System, who: nat, f: nat)
    requires who in s.workers && s.workers[who].Save? && s.workers[who].drop + s.workers[who].todo == {} && !Refused(s, s.workers[who])
    requires f in s.workers[who].named && f !in s.workers[who].held && f in s.files && f !in s.workers[who].settled
    ensures var (w, t) := (s.workers[who], Apply(s, Write(who, f)));
            t == s.(workers := s.workers[who := w.(settled := w.settled + {f}, written := if (w.owner, f) in s.mentions then w.written else w.written + {f})])
  {
    hide Refused;
  }

  lemma WriteProgresses(s: System, who: nat, f: nat)
    requires Free(s, who) && who in s.workers && s.workers[who].Save? && s.workers[who].drop + s.workers[who].todo == {} && !Refused(s, s.workers[who])
    requires f in Added(s.workers[who]) * s.files.Keys - s.workers[who].settled
    ensures Progressed(s, who, Apply(s, Write(who, f)))
  {
    WriteDoes(s, who, f);
    hide Apply, Refused;
    LessLeft(s.files.Keys, s.workers[who], Apply(s, Write(who, f)).workers[who]);
  }

  lemma LessLeft(files: set<nat>, w: Worker, v: Worker)
    requires w.Save? && v.Save? && Added(v) == Added(w) && v.drop <= w.drop && v.todo <= w.todo && w.settled <= v.settled
    requires v.drop < w.drop || v.todo < w.todo || Added(w) * files - v.settled < Added(w) * files - w.settled
    ensures Left(files, v) < Left(files, w)
  {
    Fewer(v.drop, w.drop);
    Fewer(v.todo, w.todo);
    Fewer(Added(w) * files - v.settled, Added(w) * files - w.settled);
  }

  lemma Fewer<T>(a: set<T>, b: set<T>)
    requires a <= b
    ensures |a| <= |b| && (a < b ==> |a| < |b|)
  {
    assert b == a + (b - a);
    assert |b| == |a| + |b - a|;
  }
}
