/**
 The dates of a recurring benefit under services/delivery_service.py: its walk of slots, where a walk
 lands, which slots each missed-cycle policy pays, and how a row's date moves.
 */
module Schedule {
  import opened Dates
  import opened Outcomes

  datatype Interval = Interval(u: Unit, value: int)

  /** A recurring benefit repeats at least every one of its unit; its catalog row is refused otherwise. */
  type Cadence = i: Interval | i.value >= 1 witness Interval(Day, 1)

  type Slot = t: Moment | Valid(t) witness Moment(Date(1, 1, 1), 0)

  datatype Policy = Skip | LatestOnly | CatchUp

  datatype GrantStatus = Processing | Completed | Skipped | Failed

  datatype BenefitStatus = Active | Paused | Ended

  /** The names a cycle is granted under: a slot by its second, or an activation by its cycle. */
  datatype CycleKey = OfSlot(date: Date, second: nat) | OfActivation(cycle: nat)

  function Next(t: Slot, c: Cadence): Slot {
    AddInterval(t, c.u, c.value)
  }

  lemma NextLater(t: Slot, c: Cadence)
    ensures Ordinal(Next(t, c).date) > Ordinal(t.date)
    ensures Instant(Next(t, c)) > Instant(t)
  {
    hide AddInterval, Ordinal;
    AddIntervalLater(t, c.u, c.value);
    assert Least(c.u) * c.value >= 1;
  }

  /** The k-th slot of the walk that starts at `t`. */
  function Walk(t: Slot, c: Cadence, k: nat): Slot {
    if k == 0 then t else Next(Walk(t, c, k - 1), c)
  }

  lemma WalkSteps(t: Slot, c: Cadence, k: nat)
    ensures Walk(t, c, 0) == t && Walk(t, c, k + 1) == AddInterval(Walk(t, c, k), c.u, c.value)
  {
  }

  lemma {:induction false} WalkFromNext(t: Slot, c: Cadence, k: nat)
    ensures Walk(Next(t, c), c, k) == Walk(t, c, k + 1)
  {
    if k > 0 {
      WalkFromNext(t, c, k - 1);
    }
  }

  lemma {:induction false} WalkAscends(t: Slot, c: Cadence, i: nat, j: nat)
    requires i < j
    ensures Ordinal(Walk(t, c, i).date) < Ordinal(Walk(t, c, j).date)
    ensures Instant(Walk(t, c, i)) < Instant(Walk(t, c, j))
    decreases j
  {
    hide Instant, AddInterval, Valid, Ordinal;
    NextLater(Walk(t, c, j - 1), c);
    if i < j - 1 {
      WalkAscends(t, c, i, j - 1);
    }
  }

  function SlotKey(t: Slot): CycleKey {
    OfSlot(t.date, t.time / 1_000_000)
  }

  /** A key drops the fraction of the second, and still no two slots of one walk share it. */
  lemma WalkKeysDiffer(t: Slot, c: Cadence, i: nat, j: nat)
    requires i != j
    ensures SlotKey(Walk(t, c, i)) != SlotKey(Walk(t, c, j))
  {
    if i < j {
      WalkAscends(t, c, i, j);
    } else {
      WalkAscends(t, c, j, i);
    }
  }

  /** How many slots of the walk from `t` are at or before `moment`. */
  function Behind(t: Slot, c: Cadence, moment: Slot): nat
    decreases Instant(moment) - Instant(t)
  {
    NextLater(t, c);
    if Instant(t) > Instant(moment) then 0 else 1 + Behind(Next(t, c), c, moment)
  }

  lemma {:induction false} BehindCounts(t: Slot, c: Cadence, moment: Slot, i: nat)
    ensures i < Behind(t, c, moment) <==> Instant(Walk(t, c, i)) <= Instant(moment)
    decreases i
  {
    hide Instant, AddInterval, Valid;
    NextLater(t, c);
    if i > 0 {
      WalkFromNext(t, c, i - 1);
      if Instant(t) <= Instant(moment) {
        BehindCounts(Next(t, c), c, moment, i - 1);
      } else {
        WalkAscends(t, c, 0, i);
      }
    }
  }

  lemma {:induction false} BehindDrops(t: Slot, c: Cadence, moment: Slot, k: nat)
    requires k <= Behind(t, c, moment)
    ensures Behind(Walk(t, c, k), c, moment) == Behind(t, c, moment) - k
    decreases k
  {
    hide Instant, AddInterval, Valid;
    if k > 0 {
      BehindDrops(t, c, moment, k - 1);
    }
  }

  // ---------------------------------------------------------------- landing

  /** `slot` is the cycle the walk from `since` is in at `moment`: the last slot reached, or `since` itself when that is still ahead. */
  ghost predicate LandsOn(since: Slot, c: Cadence, moment: Slot, slot: Slot) {
    exists k: nat :: slot == Walk(since, c, k) && IsLanding(since, c, moment, k)
  }

  ghost predicate IsLanding(since: Slot, c: Cadence, moment: Slot, k: nat) {
    && (k > 0 ==> Instant(Walk(since, c, k)) <= Instant(moment))
    && Instant(moment) < Instant(Walk(since, c, k + 1))
  }

  /** The landing counted rather than walked. */
  function Landed(since: Slot, c: Cadence, moment: Slot): Slot {
    var k := Behind(since, c, moment);
    if k == 0 then since else Walk(since, c, k - 1)
  }

  method Landing(since: Slot, c: Cadence, moment: Slot) returns (slot: Slot)
    ensures LandsOn(since, c, moment, slot)
    ensures slot == Landed(since, c, moment)
  {
    hide Instant, AddInterval, Valid;
    slot := since;
    ghost var k: nat := 0;
    var following := Next(slot, c);
    while Instant(following) <= Instant(moment)
      invariant slot == Walk(since, c, k) && following == Next(slot, c)
      invariant k > 0 ==> Instant(slot) <= Instant(moment)
      decreases Instant(moment) - Instant(following)
    {
      NextLater(following, c);
      slot := following;
      following := Next(slot, c);
      k := k + 1;
    }
    assert IsLanding(since, c, moment, k);
    LandingIsCounted(since, c, moment, k);
  }

  lemma LandingIsCounted(since: Slot, c: Cadence, moment: Slot, k: nat)
    requires IsLanding(since, c, moment, k)
    ensures Walk(since, c, k) == Landed(since, c, moment)
  {
    hide Instant, AddInterval, Valid, Behind;
    BehindCounts(since, c, moment, k);
    BehindCounts(since, c, moment, k + 1);
  }

  lemma LandedLands(since: Slot, c: Cadence, moment: Slot)
    ensures LandsOn(since, c, moment, Landed(since, c, moment))
  {
    hide Instant, AddInterval, Valid, Behind;
    var k := Behind(since, c, moment);
    BehindCounts(since, c, moment, k);
    if k > 0 {
      BehindCounts(since, c, moment, k - 1);
      assert IsLanding(since, c, moment, k - 1);
    } else {
      BehindCounts(since, c, moment, 1);
      assert Walk(since, c, 0) == since;
      assert IsLanding(since, c, moment, 0);
    }
  }

  lemma LandingIsOne(since: Slot, c: Cadence, moment: Slot, i: nat, j: nat)
    requires IsLanding(since, c, moment, i) && IsLanding(since, c, moment, j)
    ensures i == j
  {
    hide Instant, AddInterval, Valid;
    if i + 1 < j {
      WalkAscends(since, c, i + 1, j);
    } else if j + 1 < i {
      WalkAscends(since, c, j + 1, i);
    }
  }

  lemma {:induction false} WalkAdds(t: Slot, c: Cadence, i: nat, j: nat)
    ensures Walk(Walk(t, c, i), c, j) == Walk(t, c, i + j)
    decreases j
  {
    hide AddInterval, Valid;
    if j > 0 {
      WalkAdds(t, c, i, j - 1);
    }
  }

  /** There is one landing, it is reached again by landing from any landing before it, and landing twice at one moment is landing once. */
  lemma LandingComposes(since: Slot, c: Cadence, t1: Slot, t2: Slot, first: Slot, second: Slot, direct: Slot)
    requires Instant(t1) <= Instant(t2)
    requires LandsOn(since, c, t1, first) && LandsOn(first, c, t2, second) && LandsOn(since, c, t2, direct)
    ensures second == direct
    ensures t1 == t2 ==> second == first
  {
    hide Instant, AddInterval, Valid;
    var i: nat :| first == Walk(since, c, i) && IsLanding(since, c, t1, i);
    var j: nat :| second == Walk(first, c, j) && IsLanding(first, c, t2, j);
    var k: nat :| direct == Walk(since, c, k) && IsLanding(since, c, t2, k);
    WalkAdds(since, c, i, j);
    WalkAdds(since, c, i, j + 1);
    assert IsLanding(since, c, t2, i + j);
    LandingIsOne(since, c, t2, i + j, k);
    if t1 == t2 {
      LandingIsOne(since, c, t2, i, k);
    }
  }

  /** Wherever a walk lands, it is not before where it started and at most one of its slots is owed. */
  lemma LandingOwesOne(since: Slot, c: Cadence, moment: Slot, slot: Slot)
    requires LandsOn(since, c, moment, slot)
    ensures Instant(since) <= Instant(slot)
    ensures Instant(moment) < Instant(Next(slot, c))
    ensures Behind(slot, c, moment) == (if Instant(slot) <= Instant(moment) then 1 else 0)
    ensures Instant(since) > Instant(moment) ==> slot == since
  {
    hide Instant, AddInterval, Valid;
    var k: nat :| slot == Walk(since, c, k) && IsLanding(since, c, moment, k);
    if k > 0 {
      WalkAscends(since, c, 0, k);
    }
    NextLater(slot, c);
    BehindCounts(slot, c, moment, 1);
    assert Walk(slot, c, 1) == Next(slot, c) by { assert Walk(slot, c, 0) == slot; }
  }

  // ---------------------------------------------------------------- the row a subscription holds

  datatype Grant = Grant(cycle: nat, scheduled: Slot, status: GrantStatus)

  predicate Closed(s: GrantStatus) {
    s == Completed || s == Skipped
  }

  /** What a recurring benefit row and the grants of it say, as values. */
  datatype Row = Row(cadence: Cadence, policy: Policy, status: BenefitStatus, cycle: nat, last: Option<Slot>, next: Option<Slot>)

  /** Which slot a due row delivers and where that leaves its date, in terms of how many slots it is behind. */
  function Resolve(r: Row, moment: Slot): (Option<Slot>, Option<Slot>)
    requires r.next.Some?
  {
    var first := r.next.value;
    var k := Behind(first, r.cadence, moment);
    if k <= 1 || r.policy.CatchUp? then (Some(first), r.next)
    else if r.policy.LatestOnly? then (Some(Walk(first, r.cadence, k - 1)), r.next)
    else (None, Some(Walk(first, r.cadence, k)))
  }

  /** The move of the schedule past a grant, which only a closed grant of the row's own running cycle makes. */
  function Advanced(r: Row, g: Grant, moment: Slot): Row {
    if Closed(g.status) && g.cycle == r.cycle && r.status == Active
    then r.(last := Some(moment), next := Some(Next(g.scheduled, r.cadence)))
    else r
  }

  ghost predicate Resumed(before: Row, anchor: Slot, moment: Slot, after: Row) {
    if before.status == Active then after == before
    else
      var since := if before.last.Some? then Next(before.last.value, before.cadence) else anchor;
      && after.next.Some?
      && after == before.(status := Active, next := after.next)
      && LandsOn(since, before.cadence, moment, after.next.value)
  }

  class SubscriptionBenefit {
    const cadence: Cadence
    const policy: Policy
    var status: BenefitStatus
    var cycle: nat
    var lastGrantAt: Option<Slot>
    var nextGrantAt: Option<Slot>

    function Value(): Row
      reads this
    {
      Row(cadence, policy, status, cycle, lastGrantAt, nextGrantAt)
    }

    constructor (cadence: Cadence, policy: Policy, status: BenefitStatus, cycle: nat, last: Option<Slot>, next: Option<Slot>)
      ensures Value() == Row(cadence, policy, status, cycle, last, next)
    {
      this.cadence, this.policy, this.status := cadence, policy, status;
      this.cycle, lastGrantAt, nextGrantAt := cycle, last, next;
    }

    method ResolveDueSlot(moment: Slot) returns (due: Option<Slot>)
      requires nextGrantAt.Some? && Instant(nextGrantAt.value) <= Instant(moment)
      modifies this`nextGrantAt
      ensures (due, nextGrantAt) == Resolve(old(Value()), moment)
    {
      hide Instant, AddInterval, Valid, Behind;
      var latest := nextGrantAt.value;
      var following := Next(latest, cadence);
      ghost var k: nat := 0;
      NextLater(latest, cadence);
      BehindCounts(latest, cadence, moment, 0);
      BehindCounts(latest, cadence, moment, 1);

      if Instant(following) > Instant(moment) {
        return Some(latest);
      }

      ghost var first := latest;
      while Instant(following) <= Instant(moment)
        invariant latest == Walk(first, cadence, k) && following == Walk(first, cadence, k + 1)
        invariant Instant(latest) <= Instant(moment)
        invariant nextGrantAt == old(nextGrantAt)
        decreases Instant(moment) - Instant(following)
      {
        NextLater(following, cadence);
        latest := following;
        following := Next(latest, cadence);
        k := k + 1;
      }
      BehindCounts(first, cadence, moment, k);
      BehindCounts(first, cadence, moment, k + 1);

      if policy.CatchUp? {
        return nextGrantAt;
      }
      if policy.LatestOnly? {
        return Some(latest);
      }
      nextGrantAt := Some(following);
      return None;
    }

    method Advance(g: Grant, moment: Slot)
      modifies this`lastGrantAt, this`nextGrantAt
      ensures Value() == Advanced(old(Value()), g, moment)
    {
      if !Closed(g.status) {
        return;
      }
      var following := Next(g.scheduled, cadence);
      if cycle == g.cycle && status == Active {
        lastGrantAt := Some(moment);
        nextGrantAt := Some(following);
      }
    }

    method Resume(anchor: Slot, moment: Slot)
      modifies this`status, this`nextGrantAt
      ensures Resumed(old(Value()), anchor, moment, Value())
    {
      if status == Active {
        return;
      }
      status := Active;
      var since := anchor;
      if lastGrantAt.Some? {
        since := Next(lastGrantAt.value, cadence);
      }
      var slot := Landing(since, cadence, moment);
      nextGrantAt := Some(slot);
    }

    method Suspend(to: BenefitStatus)
      requires to != Active
      modifies this`status, this`nextGrantAt
      ensures Value() == old(Value()).(status := to, next := None)
    {
      status := to;
      nextGrantAt := None;
    }
  }

  /** A row that runs is not touched by a resume. */
  lemma RunningStays(before: Row, anchor: Slot, moment: Slot, after: Row)
    requires before.status == Active && Resumed(before, anchor, moment, after)
    ensures after == before
  {
  }

  /** However long a row was away, its date after a resume is its landing, so at most one slot is owed. */
  lemma ComingBackOwesOne(before: Row, anchor: Slot, moment: Slot, after: Row)
    requires before.status != Active && Resumed(before, anchor, moment, after)
    ensures after.status == Active && after.next.Some? && after.last == before.last && after.cycle == before.cycle
    ensures before.last.Some? ==> Instant(after.next.value) >= Instant(Next(before.last.value, before.cadence))
    ensures before.last.None? ==> Instant(after.next.value) >= Instant(anchor)
    ensures Instant(moment) < Instant(Next(after.next.value, before.cadence))
    ensures Behind(after.next.value, before.cadence, moment) <= 1
    ensures var since := if before.last == None then anchor else AddInterval(before.last.value, before.cadence.u, before.cadence.value);
            exists k: nat ::
              && after.next.value == Walk(since, before.cadence, k)
              && (k == 0 || Instant(Walk(since, before.cadence, k)) <= Instant(moment)) && Instant(moment) < Instant(Walk(since, before.cadence, k + 1))
  {
    var since := if before.last.Some? then Next(before.last.value, before.cadence) else anchor;
    LandingOwesOne(since, before.cadence, moment, after.next.value);
  }

  /** A pause in between changes nothing: resuming at t1, pausing, and resuming at t2 sets the date of one resume at t2. */
  lemma PausingTwiceIsPausingOnce(away: Row, anchor: Slot, t1: Slot, t2: Slot, back: Row, twice: Row, once: Row, to: BenefitStatus)
    requires Instant(t1) <= Instant(t2) && away.status != Active && to != Active
    requires Resumed(away, anchor, t1, back)
    requires Resumed(back.(status := to, next := None), anchor, t2, twice)
    requires Resumed(away, anchor, t2, once)
    ensures twice == once
  {
    var since := if away.last.Some? then Next(away.last.value, away.cadence) else anchor;
    var i: nat :| twice.next.value == Walk(since, away.cadence, i) && IsLanding(since, away.cadence, t2, i);
    var j: nat :| once.next.value == Walk(since, away.cadence, j) && IsLanding(since, away.cadence, t2, j);
    LandingIsOne(since, away.cadence, t2, i, j);
  }

  // ---------------------------------------------------------------- due passes

  datatype Book = Book(row: Row, grants: map<CycleKey, Grant>)

  /** What process_due selects: a running row past its date that no open grant of its own is waiting on. */
  predicate Due(b: Book, moment: Slot) {
    && b.row.status == Active
    && b.row.next.Some?
    && Instant(b.row.next.value) <= Instant(moment)
    && forall key <- b.grants :: Closed(b.grants[key].status)
  }

  /** A grant still processing, or failed, keeps its row from being due and moves nothing, and a completed or skipped one does neither. */
  lemma OpenGrantHolds(b: Book, key: CycleKey, moment: Slot)
    requires key in b.grants
    ensures b.grants[key].status == Processing || b.grants[key].status == Failed ==> !Due(b, moment) && Advanced(b.row, b.grants[key], moment) == b.row
    ensures b.grants == map[key := b.grants[key]] && (b.grants[key].status == Completed || b.grants[key].status == Skipped) ==>
              (Due(b, moment) <==> b.row.status == Active && b.row.next != None && Instant(b.row.next.value) <= Instant(moment))
  {
  }

  /** The grant of a cycle: the one already written under its key, or a new one that ends as `outcome`. */
  function Granted(b: Book, key: CycleKey, slot: Slot, outcome: GrantStatus): Grant {
    if key in b.grants then b.grants[key] else Grant(b.row.cycle, slot, outcome)
  }

  /** A cycle met again writes nothing new and only moves the schedule past itself. */
  function RunCycle(b: Book, key: CycleKey, slot: Slot, moment: Slot, outcome: GrantStatus): Book {
    var g := Granted(b, key, slot, outcome);
    Book(Advanced(b.row, g, moment), b.grants[key := g])
  }

  /** One pass over a due row, whose new grant, if it writes one, ends as `outcome`. */
  function DuePass(b: Book, moment: Slot, outcome: GrantStatus): Book
    requires Due(b, moment)
  {
    var (due, next) := Resolve(b.row, moment);
    if due.None? then b.(row := b.row.(next := next))
    else RunCycle(b, SlotKey(due.value), due.value, moment, outcome)
  }

  /** Passes for as long as the row is due, the n-th new grant ending as the n-th outcome says. */
  function Passes(b: Book, moment: Slot, outcomes: seq<GrantStatus>): Book
    decreases |outcomes|
  {
    if outcomes == [] || !Due(b, moment) then b
    else Passes(DuePass(b, moment, outcomes[0]), moment, outcomes[1..])
  }

  predicate AllClose(outcomes: seq<GrantStatus>) {
    forall o <- outcomes :: Closed(o)
  }

  /** A row behind on its walk, where a grant that holds the key of an owed slot is a closed one of that very slot. */
  ghost predicate Clear(b: Book, moment: Slot) {
    && b.row.status == Active && b.row.next.Some?
    && (forall key <- b.grants :: Closed(b.grants[key].status))
    && forall i: nat :: i < Behind(b.row.next.value, b.row.cadence, moment) ==> HoldsItsSlot(b, i)
  }

  ghost predicate HoldsItsSlot(b: Book, i: nat)
    requires b.row.next.Some?
  {
    var slot := Walk(b.row.next.value, b.row.cadence, i);
    SlotKey(slot) in b.grants ==> b.grants[SlotKey(slot)].scheduled == slot
  }

  /** The i-th owed slot was granted in a cycle that was replaced since. */
  ghost predicate Blocked(b: Book, i: nat)
    requires b.row.next.Some?
  {
    var key := SlotKey(Walk(b.row.next.value, b.row.cadence, i));
    key in b.grants && b.grants[key].cycle != b.row.cycle
  }

  /** Whether a policy pays the i-th of k slots a row is behind. */
  predicate Pays(p: Policy, k: nat, i: nat) {
    i < k && (p.CatchUp? || k == 1 || (p.LatestOnly? && i == k - 1))
  }

  /** Nothing a policy pays of k slots is blocked. */
  ghost predicate Open(b: Book, k: nat)
    requires b.row.next.Some?
  {
    forall i: nat :: Pays(b.row.policy, k, i) ==> !Blocked(b, i)
  }

  /** `after` holds what `before` did and, of the walk from the row's date, exactly the slots a policy pays of k, each once, in the row's cycle and closed. */
  ghost predicate PaidExactly(before: Book, after: Book, p: Policy, k: nat)
    requires before.row.next.Some?
  {
    var first := before.row.next.value;
    var c := before.row.cadence;
    && (forall i: nat :: Pays(p, k, i) ==> PaidSlot(before, after, i))
    && (forall key <- before.grants :: key in after.grants && after.grants[key] == before.grants[key])
    && (forall key <- after.grants :: key in before.grants || exists i: nat :: Pays(p, k, i) && key == SlotKey(Walk(first, c, i)))
  }

  ghost predicate PaidSlot(before: Book, after: Book, i: nat)
    requires before.row.next.Some?
  {
    var slot := Walk(before.row.next.value, before.row.cadence, i);
    && SlotKey(slot) in after.grants
    && after.grants[SlotKey(slot)].scheduled == slot
    && after.grants[SlotKey(slot)].cycle == before.row.cycle
    && Closed(after.grants[SlotKey(slot)].status)
  }

  /** Under catch-up n passes over slots nothing blocks pay the first n owed, in the order of the walk, whether a slot was granted before or is now. */
  lemma {:induction false} CatchUpPaysInOrder(b: Book, moment: Slot, outcomes: seq<GrantStatus>)
    requires Clear(b, moment) && AllClose(outcomes) && b.row.policy.CatchUp?
    requires |outcomes| <= Behind(b.row.next.value, b.row.cadence, moment) && Open(b, |outcomes|)
    ensures var after := Passes(b, moment, outcomes);
            && PaidExactly(b, after, CatchUp, |outcomes|)
            && after.row.next == Some(Walk(b.row.next.value, b.row.cadence, |outcomes|))
            && after.row == b.row.(last := after.row.last, next := after.row.next)
            && Clear(after, moment)
    decreases |outcomes|
  {
    assert b.row.next.Some?;
    hide Instant, AddInterval, Valid, Behind, Clear, DuePass;
    var first, c := b.row.next.value, b.row.cadence;
    var n := |outcomes|;
    if n > 0 {
      ClearIsDue(b, moment);
      assert Pays(CatchUp, n, 0);
      var one := DuePass(b, moment, outcomes[0]);
      OnePassPays(b, moment, outcomes[0]);
      forall i: nat | Pays(CatchUp, n - 1, i) ensures !Blocked(one, i) {
        assert Pays(CatchUp, n, i + 1);
        assert Blocked(one, i) <==> Blocked(b, i + 1);
      }
      CatchUpPaysInOrder(one, moment, outcomes[1..]);
      PaidOneMore(b, one, Passes(one, moment, outcomes[1..]), n);
      WalkFromNext(first, c, n - 1);
    }
  }

  lemma ClearIsDue(b: Book, moment: Slot)
    requires Clear(b, moment) && Behind(b.row.next.value, b.row.cadence, moment) > 0
    ensures Due(b, moment)
  {
  }

  /** The first slot paid by one pass, and the ones after it by the rest. */
  lemma PaidOneMore(b: Book, one: Book, after: Book, n: nat)
    requires n > 0 && b.row.next.Some? && one.row.next == Some(Next(b.row.next.value, b.row.cadence))
    requires one.row.cadence == b.row.cadence && one.row.cycle == b.row.cycle
    requires PaidExactly(b, one, CatchUp, 1) && PaidExactly(one, after, CatchUp, n - 1)
    ensures PaidExactly(b, after, CatchUp, n)
  {
    hide AddInterval, Valid, SlotKey;
    var first, c := b.row.next.value, b.row.cadence;
    forall i: nat | Pays(CatchUp, n, i) ensures PaidSlot(b, after, i) {
      if i > 0 {
        WalkFromNext(first, c, i - 1);
        assert Pays(CatchUp, n - 1, i - 1) && PaidSlot(one, after, i - 1);
      } else {
        assert Pays(CatchUp, 1, 0) && PaidSlot(b, one, 0);
      }
    }
    forall key <- after.grants ensures key in b.grants || exists i: nat :: Pays(CatchUp, n, i) && key == SlotKey(Walk(first, c, i)) {
      if key !in one.grants {
        var i: nat :| Pays(CatchUp, n - 1, i) && key == SlotKey(Walk(Next(first, c), c, i));
        WalkFromNext(first, c, i);
        assert Pays(CatchUp, n, i + 1);
      } else if key !in b.grants {
        assert Pays(CatchUp, n, 0) && key == SlotKey(Walk(first, c, 0));
      }
    }
  }

  /** One pass over a first slot nothing blocks pays it and leaves the row clear on the next one, with every other slot as it was. */
  lemma OnePassPays(b: Book, moment: Slot, outcome: GrantStatus)
    requires Clear(b, moment) && Due(b, moment) && Closed(outcome) && !Blocked(b, 0)
    requires b.row.policy.CatchUp? || Behind(b.row.next.value, b.row.cadence, moment) == 1
    ensures var first, c := b.row.next.value, b.row.cadence;
            var one := DuePass(b, moment, outcome);
            && one.row == b.row.(last := Some(moment), next := Some(Next(first, c)))
            && PaidExactly(b, one, CatchUp, 1)
            && (forall i: nat :: Blocked(one, i) <==> Blocked(b, i + 1))
            && Behind(Next(first, c), c, moment) == Behind(first, c, moment) - 1
            && Clear(one, moment)
  {
    hide Instant, AddInterval, Valid;
    var first, c := b.row.next.value, b.row.cadence;
    var one := DuePass(b, moment, outcome);
    assert Walk(first, c, 0) == first;
    assert HoldsItsSlot(b, 0);
    assert one.grants == b.grants[SlotKey(first) := one.grants[SlotKey(first)]];
    forall i: nat ensures Walk(Next(first, c), c, i) == Walk(first, c, i + 1) && SlotKey(Walk(first, c, i + 1)) != SlotKey(first) {
      WalkFromNext(first, c, i);
      WalkKeysDiffer(first, c, 0, i + 1);
    }
    hide SlotKey;
    forall i: nat | i < Behind(Next(first, c), c, moment) ensures HoldsItsSlot(one, i) {
      assert HoldsItsSlot(b, i + 1);
    }
    forall key <- one.grants ensures key in b.grants || exists i: nat :: Pays(CatchUp, 1, i) && key == SlotKey(Walk(first, c, i)) {
      assert key !in b.grants ==> Pays(CatchUp, 1, 0) && key == SlotKey(Walk(first, c, 0));
    }
  }

  /** What k passes leave of a row k slots behind: the slots its policy pays, and its date on the first slot after the moment. */
  ghost predicate SettledBy(b: Book, after: Book, moment: Slot, k: nat)
    requires b.row.next.Some?
  {
    var first, c := b.row.next.value, b.row.cadence;
    && PaidExactly(b, after, b.row.policy, k)
    && after.row == b.row.(last := after.row.last, next := Some(Walk(first, c, k)))
    && Instant(Walk(first, c, k)) > Instant(moment)
    && (k > 0 ==> Instant(Walk(first, c, k - 1)) <= Instant(moment))
  }

  /**
   With k slots due and every new grant closing, k passes settle the row exactly when a replaced cycle holds none of the slots its policy pays:
   catch-up pays all of them in order, latest-only the last one, skip the only one and otherwise none, no slot is paid twice, and every policy
   leaves the row on the same first slot after the moment.
   */
  lemma DuePassesSettle(b: Book, moment: Slot, outcomes: seq<GrantStatus>)
    requires Clear(b, moment) && AllClose(outcomes)
    requires |outcomes| == Behind(b.row.next.value, b.row.cadence, moment)
    ensures var after := Passes(b, moment, outcomes);
            && (!Due(after, moment) <==> Open(b, |outcomes|))
            && (Open(b, |outcomes|) ==> SettledBy(b, after, moment, |outcomes|))
  {
    if Open(b, |outcomes|) {
      OpenPassesSettle(b, moment, outcomes);
    } else {
      BlockedPassesStop(b, moment, outcomes);
    }
  }

  lemma OpenPassesSettle(b: Book, moment: Slot, outcomes: seq<GrantStatus>)
    requires Clear(b, moment) && AllClose(outcomes)
    requires |outcomes| == Behind(b.row.next.value, b.row.cadence, moment) && Open(b, |outcomes|)
    ensures var after := Passes(b, moment, outcomes);
            SettledBy(b, after, moment, |outcomes|) && !Due(after, moment)
  {
    assert b.row.next.Some?;
    hide Valid, Clear, DuePass, PaidExactly, Open, Passes, Walk, AddInterval, Behind, Instant, Due, AllClose;
    PassesPay(b, moment, outcomes);
    var first, c, k := b.row.next.value, b.row.cadence, |outcomes|;
    BehindEnds(first, c, moment);
    PastIsNotDue(Passes(b, moment, outcomes), moment);
  }

  lemma BehindEnds(t: Slot, c: Cadence, moment: Slot)
    ensures var k := Behind(t, c, moment);
            && Instant(Walk(t, c, k)) > Instant(moment)
            && (k > 0 ==> Instant(Walk(t, c, k - 1)) <= Instant(moment))
  {
    hide Instant, AddInterval, Valid, Walk, Behind;
    var k := Behind(t, c, moment);
    BehindCounts(t, c, moment, k);
    if k > 0 {
      BehindCounts(t, c, moment, k - 1);
    }
  }

  lemma PassesPay(b: Book, moment: Slot, outcomes: seq<GrantStatus>)
    requires Clear(b, moment) && AllClose(outcomes)
    requires |outcomes| == Behind(b.row.next.value, b.row.cadence, moment) && Open(b, |outcomes|)
    ensures var after := Passes(b, moment, outcomes);
            && PaidExactly(b, after, b.row.policy, |outcomes|)
            && after.row == b.row.(last := after.row.last, next := Some(Walk(b.row.next.value, b.row.cadence, |outcomes|)))
  {
    if outcomes == [] {
      NothingOwed(b, moment);
    } else if b.row.policy.CatchUp? {
      CatchUpPaysInOrder(b, moment, outcomes);
    } else {
      OnePassIsEnough(b, moment, outcomes);
    }
  }

  lemma OnePassIsEnough(b: Book, moment: Slot, outcomes: seq<GrantStatus>)
    requires Clear(b, moment) && AllClose(outcomes) && outcomes != [] && !b.row.policy.CatchUp?
    requires |outcomes| == Behind(b.row.next.value, b.row.cadence, moment) && Open(b, |outcomes|)
    ensures var after := Passes(b, moment, outcomes);
            && PaidExactly(b, after, b.row.policy, |outcomes|)
            && after.row == b.row.(last := after.row.last, next := Some(Walk(b.row.next.value, b.row.cadence, |outcomes|)))
  {
    ClearIsDue(b, moment);
    hide Instant, AddInterval, Valid, Clear, DuePass, PaidExactly, Open, Walk, Behind, Due;
    SinglePassSettles(b, moment, outcomes[0]);
    BehindCounts(b.row.next.value, b.row.cadence, moment, |outcomes|);
    PastIsNotDue(DuePass(b, moment, outcomes[0]), moment);
  }

  lemma PastIsNotDue(b: Book, moment: Slot)
    requires b.row.next.Some? && Instant(b.row.next.value) > Instant(moment)
    ensures !Due(b, moment)
  {
  }

  lemma NothingOwed(b: Book, moment: Slot)
    requires Clear(b, moment) && Behind(b.row.next.value, b.row.cadence, moment) == 0
    ensures !Due(b, moment) && Open(b, 0) && PaidExactly(b, b, b.row.policy, 0) && b.row.next == Some(Walk(b.row.next.value, b.row.cadence, 0))
  {
    hide Instant, AddInterval, Valid;
  }

  lemma SinglePassSettles(b: Book, moment: Slot, outcome: GrantStatus)
    requires Clear(b, moment) && Due(b, moment) && Closed(outcome) && !b.row.policy.CatchUp?
    requires Open(b, Behind(b.row.next.value, b.row.cadence, moment))
    ensures var k := Behind(b.row.next.value, b.row.cadence, moment);
            var one := DuePass(b, moment, outcome);
            && PaidExactly(b, one, b.row.policy, k)
            && one.row == b.row.(last := one.row.last, next := Some(Walk(b.row.next.value, b.row.cadence, k)))
  {
    hide Instant, AddInterval, Valid;
    var first, c := b.row.next.value, b.row.cadence;
    var k := Behind(first, c, moment);
    var one := DuePass(b, moment, outcome);
    assert k >= 1;
    assert Walk(first, c, 0) == first;
    assert HoldsItsSlot(b, k - 1) && (Pays(b.row.policy, k, k - 1) ==> !Blocked(b, k - 1));
    assert Walk(first, c, k) == Next(Walk(first, c, k - 1), c);
    forall key <- one.grants ensures key in b.grants || exists i: nat :: Pays(b.row.policy, k, i) && key == SlotKey(Walk(first, c, i)) {
      if key !in b.grants {
        assert Pays(b.row.policy, k, k - 1) && key == SlotKey(Walk(first, c, k - 1));
      }
    }
  }

  /** The first of the slots a policy pays that a replaced cycle holds. */
  ghost predicate StopsAt(b: Book, k: nat, n: nat)
    requires b.row.next.Some?
  {
    Pays(b.row.policy, k, n) && Blocked(b, n) && forall i: nat :: i < n && Pays(b.row.policy, k, i) ==> !Blocked(b, i)
  }

  lemma {:induction false} SomeStop(b: Book, k: nat, n: nat) returns (stop: nat)
    requires b.row.next.Some? && n <= k && !Open(b, k) && forall i: nat :: i < n && Pays(b.row.policy, k, i) ==> !Blocked(b, i)
    ensures StopsAt(b, k, stop)
    decreases k - n
  {
    hide Blocked;
    if Pays(b.row.policy, k, n) && Blocked(b, n) {
      stop := n;
    } else {
      stop := SomeStop(b, k, n + 1);
    }
  }

  /** And otherwise they stop at the first slot a replaced cycle holds: everything before it is paid, and the row stays due there. */
  lemma BlockedPassesStop(b: Book, moment: Slot, outcomes: seq<GrantStatus>)
    requires Clear(b, moment) && AllClose(outcomes)
    requires |outcomes| == Behind(b.row.next.value, b.row.cadence, moment) && !Open(b, |outcomes|)
    ensures var after := Passes(b, moment, outcomes);
            && Due(after, moment)
            && (b.row.policy.CatchUp? ==> exists stop: nat :: StopsAt(b, |outcomes|, stop) && StoppedAt(b, after, stop))
            && (!b.row.policy.CatchUp? ==> after == b)
  {
    hide Instant, AddInterval, Valid, Behind, Clear, DuePass, PaidExactly;
    var k := |outcomes|;
    assert k > 0;
    ClearIsDue(b, moment);
    if b.row.policy.CatchUp? {
      var stop := SomeStop(b, k, 0);
      CatchUpStops(b, moment, outcomes, stop);
    } else {
      BlockedPassMovesNothing(b, moment);
      StuckPasses(b, moment, outcomes);
    }
  }

  ghost predicate StoppedAt(b: Book, after: Book, stop: nat)
    requires b.row.next.Some?
  {
    && PaidExactly(b, after, CatchUp, stop)
    && after.row == b.row.(last := after.row.last, next := Some(Walk(b.row.next.value, b.row.cadence, stop)))
  }

  lemma {:induction false} CatchUpStops(b: Book, moment: Slot, outcomes: seq<GrantStatus>, stop: nat)
    requires Clear(b, moment) && AllClose(outcomes) && b.row.policy.CatchUp?
    requires |outcomes| <= Behind(b.row.next.value, b.row.cadence, moment) && StopsAt(b, |outcomes|, stop)
    ensures var after := Passes(b, moment, outcomes); Due(after, moment) && StoppedAt(b, after, stop)
    decreases |outcomes|
  {
    hide Instant, AddInterval, Valid, Behind, Clear, DuePass;
    var n := |outcomes|;
    ClearIsDue(b, moment);
    assert Walk(b.row.next.value, b.row.cadence, 0) == b.row.next.value;
    if stop == 0 {
      hide Walk;
      BlockedPassMovesNothing(b, moment);
      StuckPasses(b, moment, outcomes);
    } else {
      assert Pays(CatchUp, n, 0);
      var one := DuePass(b, moment, outcomes[0]);
      OnePassPays(b, moment, outcomes[0]);
      forall i: nat | i < stop - 1 ensures !Blocked(one, i) {
        assert Pays(CatchUp, n, i + 1);
        assert Blocked(one, i) <==> Blocked(b, i + 1);
      }
      assert Blocked(one, stop - 1) <==> Blocked(b, stop);
      CatchUpStops(one, moment, outcomes[1..], stop - 1);
      PaidOneMore(b, one, Passes(one, moment, outcomes[1..]), stop);
      WalkFromNext(b.row.next.value, b.row.cadence, stop - 1);
    }
  }

  lemma BlockedPassMovesNothing(b: Book, moment: Slot)
    requires Clear(b, moment) && Due(b, moment)
    requires b.row.policy.CatchUp? ==> Blocked(b, 0)
    requires !b.row.policy.CatchUp? ==> !Open(b, Behind(b.row.next.value, b.row.cadence, moment))
    ensures forall o: GrantStatus :: DuePass(b, moment, o) == b
  {
    hide Instant, AddInterval, Valid, Behind;
    var first, c := b.row.next.value, b.row.cadence;
    assert Walk(first, c, 0) == first;
    var slot := Resolve(b.row, moment).0;
    assert slot.Some? && SlotKey(slot.value) in b.grants && b.grants[SlotKey(slot.value)].cycle != b.row.cycle by {
      if !b.row.policy.CatchUp? {
        var i: nat :| Pays(b.row.policy, Behind(first, c, moment), i) && Blocked(b, i);
      }
    }
    assert b.grants[SlotKey(slot.value) := b.grants[SlotKey(slot.value)]] == b.grants;
  }

  lemma {:induction false} StuckPasses(b: Book, moment: Slot, outcomes: seq<GrantStatus>)
    requires Due(b, moment) && forall o: GrantStatus :: DuePass(b, moment, o) == b
    ensures Passes(b, moment, outcomes) == b
    decreases |outcomes|
  {
    hide DuePass;
    if outcomes != [] {
      StuckPasses(b, moment, outcomes[1..]);
    }
  }

  // ---------------------------------------------------------------- what a pass cannot move

  /** Every slot key names a grant of that second. */
  ghost predicate WellKeyed(b: Book) {
    forall key <- b.grants :: key.OfSlot? ==> SlotKey(b.grants[key].scheduled) == key
  }

  /**
   A pass whose grant closes moves the date of the row exactly when it skips, when the slot's key is free, or when the grant
   under it is of the row's own cycle: a grant of a cycle that was replaced holds the slot and moves nothing.
   */
  lemma DuePassMovesExactlyWhen(b: Book, moment: Slot, outcome: GrantStatus)
    requires Due(b, moment) && WellKeyed(b) && Closed(outcome)
    ensures var slot := Resolve(b.row, moment).0;
            (DuePass(b, moment, outcome).row.next != b.row.next) <==>
            (slot.None? || SlotKey(slot.value) !in b.grants || b.grants[SlotKey(slot.value)].cycle == b.row.cycle)
  {
    hide Instant, AddInterval;
    var first, c := b.row.next.value, b.row.cadence;
    var k := Behind(first, c, moment);
    var slot := Resolve(b.row, moment).0;
    assert k >= 1;
    if k > 1 {
      WalkAscends(first, c, 0, k);
      WalkAscends(first, c, 0, k - 1);
    }
    assert Walk(first, c, 0) == first;
    if slot.Some? {
      var g := Granted(b, SlotKey(slot.value), slot.value, outcome);
      assert g.scheduled.date == slot.value.date;
      assert Ordinal(slot.value.date) >= Ordinal(first.date);
      NextLater(g.scheduled, c);
      assert Ordinal(Next(g.scheduled, c).date) > Ordinal(first.date);
    }
  }

  /** Under catch-up a slot whose key a replaced cycle holds stops the row for good: no pass, at no later moment, changes anything. */
  lemma ReplacedCycleStopsCatchUp(b: Book, moment: Slot, later: Slot, outcome: GrantStatus)
    requires Due(b, moment) && b.row.policy.CatchUp? && Instant(moment) <= Instant(later)
    requires SlotKey(b.row.next.value) in b.grants && b.grants[SlotKey(b.row.next.value)].cycle != b.row.cycle
    ensures Due(b, later) && DuePass(b, later, outcome) == b
  {
  }

  /** What a transfer does to a recurring row: it ends, opens a cycle of its own with nothing granted in it, and comes back. */
  ghost predicate HandedOver(before: Row, anchor: Slot, moment: Slot, after: Row) {
    Resumed(before.(status := Ended, cycle := before.cycle + 1, last := None, next := None), anchor, moment, after)
  }

  /** So a transfer inside a cycle already paid stops a catch-up row for good, unless an activation grant moves it on. */
  lemma TransferInsidePaidCycleStopsCatchUp(b: Book, anchor: Slot, moment: Slot, after: Row, later: Slot, outcome: GrantStatus)
    requires HandedOver(b.row, anchor, moment, after) && b.row.policy.CatchUp?
    requires Instant(anchor) <= Instant(moment) <= Instant(later)
    requires forall key <- b.grants :: Closed(b.grants[key].status) && b.grants[key].cycle <= b.row.cycle
    requires SlotKey(after.next.value) in b.grants
    ensures Due(Book(after, b.grants), later) && DuePass(Book(after, b.grants), later, outcome) == Book(after, b.grants)
  {
    hide Instant, AddInterval, Valid, Behind;
    var k: nat :| after.next.value == Walk(anchor, b.row.cadence, k) && IsLanding(anchor, b.row.cadence, moment, k);
    assert Walk(anchor, b.row.cadence, 0) == anchor;
    ReplacedCycleStopsCatchUp(Book(after, b.grants), moment, later, outcome);
  }

  // ---------------------------------------------------------------- activation

  /** The first date of a new row: the landing of a recurring one, and the anchor of another one that activation grants. */
  ghost predicate FirstDue(recurring: bool, c: Cadence, anchor: Slot, onActivation: bool, moment: Slot, due: Option<Slot>) {
    if recurring then due == Some(Landed(anchor, c, moment)) && LandsOn(anchor, c, moment, due.value)
    else due == if onActivation then Some(anchor) else None
  }

  method FirstSlot(recurring: bool, c: Cadence, anchor: Slot, onActivation: bool, moment: Slot) returns (due: Option<Slot>)
    ensures FirstDue(recurring, c, anchor, onActivation, moment, due)
  {
    if recurring {
      var slot := Landing(anchor, c, moment);
      return Some(slot);
    }
    return if onActivation then Some(anchor) else None;
  }

  /** An activation of a cycle opened again has a key of its own, and so has every one of a benefit that does not recur. */
  lemma ActivationKeysDiffer(recurring: bool, cycle: nat, slot: Slot, other: nat, at: Slot)
    requires (recurring ==> cycle > 0) && other != cycle
    ensures ActivationKey(recurring, cycle, slot) != SlotKey(at)
    ensures ActivationKey(recurring, cycle, slot) != ActivationKey(recurring, other, at)
    ensures ActivationKey(recurring, cycle, slot) == ActivationKey(recurring, cycle, at)
  {
  }

  function ActivationKey(recurring: bool, cycle: nat, slot: Slot): CycleKey {
    if recurring && cycle == 0 then SlotKey(slot) else OfActivation(cycle)
  }

  /**
   For a row in its first cycle an activation and a due pass are two doors to one grant. Whichever comes second, at its own later moment, writes no
   grant and leaves the date where it is; all it writes, on a row whose grant closed, is the moment of the last grant, which a later return walks from.
   */
  lemma TwoDoorsOneGrant(b: Book, slot: Slot, m1: Slot, m2: Slot, o1: GrantStatus, o2: GrantStatus)
    requires b.row.cycle == 0 && b.row.next == Some(slot) && Instant(slot) <= Instant(m1) < Instant(Next(slot, b.row.cadence))
    requires Due(b, m1) && Instant(m1) <= Instant(m2) && SlotKey(slot) !in b.grants
    ensures var activated := RunCycle(b, ActivationKey(true, 0, slot), slot, m1, o1);
            && DuePass(b, m1, o1) == activated
            && RunCycle(activated, SlotKey(slot), slot, m2, o2) == (if Closed(o1) then activated.(row := activated.row.(last := Some(m2))) else activated)
            && (Closed(o1) ==> activated.row.next == Some(Next(slot, b.row.cadence)) && activated.row.last == Some(m1) && !Due(activated, m1))
            && (!Closed(o1) ==> activated.row == b.row && !Due(activated, m1))
  {
    hide Instant, AddInterval, Valid;
    LandsHere(slot, b.row.cadence, m1);
    var activated := RunCycle(b, SlotKey(slot), slot, m1, o1);
    assert SlotKey(slot) in activated.grants && activated.grants[SlotKey(slot)].status == o1;
    assert activated.grants[SlotKey(slot) := activated.grants[SlotKey(slot)]] == activated.grants;
  }

  lemma LandsHere(slot: Slot, c: Cadence, moment: Slot)
    requires Instant(slot) <= Instant(moment) < Instant(Next(slot, c))
    ensures Behind(slot, c, moment) == 1
  {
  }
}
