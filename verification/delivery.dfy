/**
 Grants and their credits under services/delivery_service.py: one event per committed transaction, any number of workers, each of which may die
 between the commit of the ledger and the commit of the grant.
 */
module Delivery {
  import opened Outcomes
  import L = Ledger
  import S = Schedule

  /** The window of a claim in seconds, past which its worker counts as dead. */
  const ABANDONED_AFTER := 1800

  const MAX_ATTEMPTS := 5

  const RETRY_BATCH := 50

  datatype SubscriptionStatus = Pending | Trialing | Active | GracePeriod | Suspended | Expired | Revoked

  datatype Policy = Nothing | AccessOnly | All

  datatype Subscription = Subscription(user: nat, status: SubscriptionStatus, benefits: S.BenefitStatus, trialPolicy: Policy, gracePolicy: Policy)

  datatype Kind = Access | Credit

  datatype Cadence = OnActivation | Recurring | OncePerUser

  /** The snapshot of a catalog benefit a subscription holds, of which only the status, the cycle and the two dates ever change. */
  datatype Benefit = Benefit(subscription: nat, catalog: nat, kind: Kind, quantity: int, currency: nat, cadence: Cadence, interval: S.Cadence,
                             missed: S.Policy, status: S.BenefitStatus, cycle: nat, last: Option<S.Slot>, next: Option<S.Slot>)

  datatype Outcome = Delivered | Dropped | Raised

  /** Who is on a grant: nobody alive, a worker about to deliver, or one that delivered and has not committed the grant yet. */
  datatype Worker = Nobody | Delivering | Delivery(outcome: Outcome)

  datatype Grant = Grant(benefit: nat, key: S.CycleKey, cycle: nat, scheduled: S.Slot, status: S.GrantStatus, userKey: Option<(nat, nat)>,
                         attempts: nat, startedAt: int, worker: Worker)

  /** Rows are named by their position, which only grows. */
  datatype Engine = Engine(now: int, subscriptions: seq<Subscription>, benefits: seq<Benefit>, grants: seq<Grant>,
                           tables: L.Tables, tenants: map<nat, Option<nat>>, currencyTenants: map<nat, Option<nat>>)

  /** When a handler raises: not at all, before anything of it was committed, or after the ledger was. */
  datatype Raises = Never | Before | After

  /** One attempt at a delivery: how its handler ends, and the moment it is committed at. */
  datatype Attempt = Attempt(raises: Raises, moment: S.Slot)

  datatype Event =
    | Subscribe(subscription: Subscription)
    | Snapshot(benefit: Benefit)
    | Reconcile(s: nat, status: SubscriptionStatus, benefits: S.BenefitStatus, trial: Policy, grace: Policy)
    | SetBenefit(b: nat, running: S.BenefitStatus, next: Option<S.Slot>)
    | NewCycle(s: nat)
    | HandOver(s: nat, user: nat)
    | OtherMove(request: L.Request)
    | Tick(to: int)
    | RunCycle(b: nat, key: S.CycleKey, slot: S.Slot, moment: S.Slot)
    | Pick(g: nat, moment: S.Slot)
    | Deliver(g: nat, raises: Raises)
    | Mark(g: nat, moment: S.Slot)
    | Crash(g: nat)

  // ---------------------------------------------------------------- what the rows say

  predicate OfEligible(status: SubscriptionStatus) {
    status.Trialing? || status.Active? || status.GracePeriod?
  }

  predicate Eligible(s: Subscription) {
    OfEligible(s.status) && s.benefits == S.Active
  }

  /** The policy the plan sets for the subscription's status, where only two statuses have one. */
  function PolicyOf(s: Subscription): Policy {
    if s.status.Trialing? then s.trialPolicy else if s.status.GracePeriod? then s.gracePolicy else All
  }

  predicate Allows(s: Subscription, kind: Kind) {
    PolicyOf(s).All? || (PolicyOf(s).AccessOnly? && kind.Access?)
  }

  predicate Open(g: Grant) {
    g.status.Processing? || g.status.Failed?
  }

  ghost predicate Shaped(e: Engine) {
    && (forall b <- e.benefits :: b.subscription < |e.subscriptions|)
    && (forall g <- e.grants :: g.benefit < |e.benefits|)
  }

  function BenefitOf(e: Engine, g: Grant): Benefit
    requires g.benefit < |e.benefits|
  {
    e.benefits[g.benefit]
  }

  predicate Once(e: Engine, g: Grant)
    requires g.benefit < |e.benefits|
  {
    BenefitOf(e, g).cadence.OncePerUser?
  }

  function LedgerKey(g: Grant): L.Key {
    L.GrantKey(g.benefit, g.key)
  }

  predicate Taken(e: Engine, b: nat, key: S.CycleKey) {
    exists g <- e.grants :: g.benefit == b && g.key == key
  }

  predicate KeyHeld(e: Engine, userKey: (nat, nat)) {
    exists g <- e.grants :: g.userKey == Some(userKey)
  }

  /** The once-per-user check: a grant completed under the key, or a ledger entry of any grant of it to that person. */
  predicate AlreadyHeld(e: Engine, user: nat, catalog: nat)
    requires forall g <- e.grants :: g.benefit < |e.benefits|
  {
    || (exists g <- e.grants :: g.userKey == Some((user, catalog)) && g.status.Completed?)
    || (exists entry <- e.tables.entries :: entry.account.user == user && entry.grant.Some? && entry.grant.value < |e.grants|
          && BenefitOf(e, e.grants[entry.grant.value]).catalog == catalog)
  }

  predicate Takeable(now: int, g: Grant) {
    (g.status.Failed? || (g.status.Processing? && g.startedAt < now - ABANDONED_AFTER)) && g.attempts < MAX_ATTEMPTS
  }

  predicate Exhausted(now: int, g: Grant) {
    g.status.Processing? && g.startedAt < now - ABANDONED_AFTER && g.attempts >= MAX_ATTEMPTS
  }

  /** What the retry pass reads. */
  predicate Selectable(now: int, g: Grant) {
    Takeable(now, g) || Exhausted(now, g)
  }

  predicate StillOwed(e: Engine, g: Grant)
    requires Shaped(e) && g.benefit < |e.benefits|
  {
    BenefitOf(e, g).status == S.Active && Eligible(e.subscriptions[BenefitOf(e, g).subscription])
  }

  function CreditRequest(e: Engine, i: nat): L.Request
    requires Shaped(e) && i < |e.grants|
  {
    var g := e.grants[i];
    var b := BenefitOf(e, g);
    var user := e.subscriptions[b.subscription].user;
    L.Request(L.Account(user, b.currency), L.Credit, b.quantity, LedgerKey(g), Some(i), None,
              if user in e.tenants then e.tenants[user] else None,
              if b.currency in e.currencyTenants then e.currencyTenants[b.currency] else None)
  }

  // ---------------------------------------------------------------- the events

  function Closed(g: Grant): Grant {
    g.(status := S.Skipped, userKey := None, worker := Nobody)
  }

  function Write(e: Engine, i: nat, g: Grant): Engine
    requires i < |e.grants|
  {
    e.(grants := e.grants[i := g])
  }

  function Turn(e: Engine, s: nat): seq<Benefit> {
    seq(|e.benefits|, i requires 0 <= i < |e.benefits| =>
      if e.benefits[i].subscription == s then e.benefits[i].(cycle := e.benefits[i].cycle + 1, last := None) else e.benefits[i])
  }

  /** A cycle nobody wrote yet is skipped where nothing is owed in it, lost to whoever holds the person's key, or begun. */
  function Begun(e: Engine, b: nat, key: S.CycleKey, slot: S.Slot): Engine
    requires Shaped(e) && b < |e.benefits|
  {
    var benefit := e.benefits[b];
    var subscription := e.subscriptions[benefit.subscription];
    var userKey := (subscription.user, benefit.catalog);
    var grant := Grant(b, key, benefit.cycle, slot, S.Processing, None, 1, e.now, Delivering);
    if Taken(e, b, key) then e
    else if benefit.cadence.OncePerUser? && AlreadyHeld(e, userKey.0, userKey.1) then e.(grants := e.grants + [Closed(grant)])
    else if !Allows(subscription, benefit.kind) then e.(grants := e.grants + [Closed(grant)])
    else if !benefit.cadence.OncePerUser? then e.(grants := e.grants + [grant])
    else if KeyHeld(e, userKey) then e
    else e.(grants := e.grants + [grant.(userKey := Some(userKey))])
  }

  /** What the retry pass does with a grant it may have: drops it, closes it, or claims it. */
  function Picked(e: Engine, i: nat): Engine
    requires Shaped(e) && i < |e.grants|
  {
    var g := e.grants[i];
    if !Selectable(e.now, g) then e
    else if !StillOwed(e, g) || g.attempts >= MAX_ATTEMPTS then Write(e, i, Closed(g))
    else Write(e, i, g.(status := S.Processing, attempts := g.attempts + 1, startedAt := e.now, worker := Delivering))
  }

  /** The checks under the hold and whatever the handler commits. */
  function Delivered'(e: Engine, i: nat, raises: Raises): Engine
    requires Shaped(e) && i < |e.grants|
  {
    var g := e.grants[i];
    var b := BenefitOf(e, g);
    if !StillOwed(e, g) || g.cycle != b.cycle || !Allows(e.subscriptions[b.subscription], b.kind) then
      Write(e, i, g.(worker := Delivery(Dropped)))
    else if raises.Before? then Write(e, i, g.(worker := Delivery(Raised)))
    else
      var (tables, answer) := if b.kind.Access? then (e.tables, Success(0)) else
        var (t, a) := L.Moved(e.tables, CreditRequest(e, i)); (t, if a.Success? then Success(0) else Failure(a.error));
      if answer.Failure? || raises.After? then Write(e.(tables := tables), i, g.(worker := Delivery(Raised)))
      else Write(e.(tables := tables), i, g.(worker := Delivery(Delivered)))
  }

  function Marked(g: Grant): Grant
    requires g.worker.Delivery?
  {
    match g.worker.outcome
    case Delivered => g.(status := S.Completed, worker := Nobody)
    case Dropped => Closed(g)
    case Raised => if g.attempts >= MAX_ATTEMPTS then Closed(g) else g.(status := S.Failed, worker := Nobody)
  }

  /** Time may pass only as far as every worker still alive is inside its window. */
  ghost predicate MayTick(e: Engine, to: int) {
    e.now <= to && forall g <- e.grants :: g.worker != Nobody ==> g.startedAt >= to - ABANDONED_AFTER
  }

  /** What an event does to every row but the dates of a benefit. */
  ghost function Core(e: Engine, v: Event): Engine
    requires Shaped(e)
  {
    match v
    case Subscribe(s) => e.(subscriptions := e.subscriptions + [s])
    case Snapshot(b) => if b.subscription < |e.subscriptions| then e.(benefits := e.benefits + [b]) else e
    case Reconcile(s, status, benefits, trial, grace) =>
      if s < |e.subscriptions| then
        e.(subscriptions := e.subscriptions[s := Subscription(e.subscriptions[s].user, status, benefits, trial, grace)])
      else e
    case SetBenefit(b, status, next) => if b < |e.benefits| then e.(benefits := e.benefits[b := e.benefits[b].(status := status, next := next)]) else e
    case NewCycle(s) => e.(benefits := Turn(e, s))
    case HandOver(s, user) =>
      if s < |e.subscriptions| then
        e.(subscriptions := e.subscriptions[s := e.subscriptions[s].(user := user)], benefits := Turn(e, s))
      else e
    case OtherMove(r) => if r.key.GrantKey? then e else e.(tables := L.Moved(e.tables, r).0)
    case Tick(to) => if MayTick(e, to) then e.(now := to) else e
    case RunCycle(b, key, slot, _) => if b < |e.benefits| then Begun(e, b, key, slot) else e
    case Pick(g, _) => if g < |e.grants| then Picked(e, g) else e
    case Deliver(g, raises) => if g < |e.grants| && e.grants[g].worker.Delivering? then Delivered'(e, g, raises) else e
    case Mark(g, _) => if g < |e.grants| && e.grants[g].worker.Delivery? then Write(e, g, Marked(e.grants[g])) else e
    case Crash(g) => if g < |e.grants| then Write(e, g, e.grants[g].(worker := Nobody)) else e
  }

  /** The move of the schedule past a grant, which only a closed grant of the row's own running cycle makes. */
  function Advanced(b: Benefit, g: Grant, moment: S.Slot): Benefit {
    if S.Closed(g.status) && g.cycle == b.cycle && b.status == S.Active
    then b.(last := Some(moment), next := if b.cadence.Recurring? then Some(S.Next(g.scheduled, b.interval)) else None)
    else b
  }

  function Dated(e: Engine, i: nat, moment: S.Slot): Engine {
    if i < |e.grants| && e.grants[i].benefit < |e.benefits|
    then e.(benefits := e.benefits[e.grants[i].benefit := Advanced(e.benefits[e.grants[i].benefit], e.grants[i], moment)])
    else e
  }

  function Found(grants: seq<Grant>, b: nat, key: S.CycleKey): (i: nat)
    ensures i <= |grants|
    ensures i < |grants| ==> grants[i].benefit == b && grants[i].key == key
    ensures i >= |grants| ==> forall g <- grants :: !(g.benefit == b && g.key == key)
  {
    if grants == [] then 0
    else if grants[0].benefit == b && grants[0].key == key then 0
    else Found(grants[1..], b, key) + 1
  }

  /** The grant an event moves the schedule past: the one a cycle met or wrote, one closed for want of attempts, and one that was delivered. */
  function Past(e: Engine, v: Event): Option<nat>
    requires Shaped(e)
  {
    match v
    case RunCycle(b, key, _, _) => if b < |e.benefits| then Some(Found(e.grants, b, key)) else None
    case Pick(g, _) =>
      if g < |e.grants| && Selectable(e.now, e.grants[g]) && StillOwed(e, e.grants[g]) && e.grants[g].attempts >= MAX_ATTEMPTS then Some(g) else None
    case Mark(g, _) => if g < |e.grants| && e.grants[g].worker.Delivery? then Some(g) else None
    case _ => None
  }

  function MomentOf(v: Event): S.Slot
    requires v.RunCycle? || v.Pick? || v.Mark?
  {
    match v
    case RunCycle(_, _, _, moment) => moment
    case Pick(_, moment) => moment
    case Mark(_, moment) => moment
  }

  /** One event: what it commits, and the dates it commits with it. */
  ghost function Apply(e: Engine, v: Event): Engine
    requires Shaped(e)
  {
    if Past(e, v).Some? then Dated(Core(e, v), Past(e, v).value, MomentOf(v)) else Core(e, v)
  }

  // ---------------------------------------------------------------- what every run keeps

  /** An open once-per-user grant holds the key of its benefit, and of the person the subscription is of while its cycle is the current one. */
  ghost predicate NamesItsPerson(e: Engine, g: Grant)
    requires Shaped(e) && g.benefit < |e.benefits|
  {
    var b := BenefitOf(e, g);
    g.userKey.Some? && g.userKey.value.1 == b.catalog && (g.cycle == b.cycle ==> g.userKey.value.0 == e.subscriptions[b.subscription].user)
  }

  ghost predicate GrantInv(e: Engine, g: Grant)
    requires Shaped(e) && g.benefit < |e.benefits|
  {
    var b := BenefitOf(e, g);
    && 1 <= g.attempts <= MAX_ATTEMPTS
    && (g.status.Failed? ==> g.attempts < MAX_ATTEMPTS)
    && (g.worker != Nobody ==> g.status.Processing? && e.now - ABANDONED_AFTER <= g.startedAt)
    && g.cycle <= b.cycle
    && (Open(g) && Once(e, g) ==> NamesItsPerson(e, g))
    && (b.kind.Credit? && (g.status.Completed? || g.worker == Delivery(Delivered)) ==> L.HasKey(e.tables.entries, LedgerKey(g)))
  }

  ghost predicate EntryInv(e: Engine, entry: L.Entry)
    requires Shaped(e)
  {
    entry.key.GrantKey? ==>
      && entry.grant.Some? && entry.grant.value < |e.grants|
      && LedgerKey(e.grants[entry.grant.value]) == entry.key
      && entry.kind.Credit? && entry.amount == BenefitOf(e, e.grants[entry.grant.value]).quantity
  }

  /** The person and the catalog benefit a once-per-user entry credited. */
  function Credited(e: Engine, entry: L.Entry): Option<(nat, nat)>
    requires forall g <- e.grants :: g.benefit < |e.benefits|
  {
    if entry.key.GrantKey? && entry.grant.Some? && entry.grant.value < |e.grants| && Once(e, e.grants[entry.grant.value])
    then Some((entry.account.user, BenefitOf(e, e.grants[entry.grant.value]).catalog))
    else None
  }

  ghost predicate Unique(e: Engine) {
    forall i, j :: 0 <= i < j < |e.grants| ==>
      && LedgerKey(e.grants[i]) != LedgerKey(e.grants[j])
      && (e.grants[i].userKey.Some? ==> e.grants[i].userKey != e.grants[j].userKey)
  }

  /** Nobody is credited twice for a once-per-user benefit, and whoever was credited is not waited on by another open grant. */
  ghost predicate OnceInv(e: Engine)
    requires Shaped(e)
  {
    && (forall i, j :: 0 <= i < j < |e.tables.entries| && Credited(e, e.tables.entries[i]).Some?
          ==> Credited(e, e.tables.entries[i]) != Credited(e, e.tables.entries[j]))
    && (forall i, k :: 0 <= i < |e.tables.entries| && 0 <= k < |e.grants| ==> NotWaited(e, e.tables.entries[i], k))
  }

  ghost predicate NotWaited(e: Engine, entry: L.Entry, k: nat)
    requires Shaped(e) && k < |e.grants|
  {
    Credited(e, entry).Some? && Open(e.grants[k]) && Once(e, e.grants[k]) && e.grants[k].userKey == Credited(e, entry) ==> entry.grant == Some(k)
  }

  ghost predicate Inv(e: Engine) {
    && Shaped(e)
    && L.Balanced(e.tables)
    && Unique(e)
    && (forall g <- e.grants :: GrantInv(e, g))
    && (forall entry <- e.tables.entries :: EntryInv(e, entry))
    && OnceInv(e)
  }

  // ---------------------------------------------------------------- rows around the grants

  /** Benefit rows keep their snapshot, and a cycle that did not turn is still the same person's. */
  ghost predicate Keeps(e: Engine, after: Engine)
    requires Shaped(e) && Shaped(after)
  {
    && after.grants == e.grants && after.tables == e.tables && after.now == e.now
    && |e.benefits| <= |after.benefits|
    && forall b :: 0 <= b < |e.benefits| ==> KeepsBenefit(e, after, b)
  }

  ghost predicate KeepsBenefit(e: Engine, after: Engine, b: nat)
    requires Shaped(e) && Shaped(after) && b < |e.benefits| <= |after.benefits|
  {
    var old', new' := e.benefits[b], after.benefits[b];
    && old' == new'.(status := old'.status, cycle := old'.cycle, last := old'.last, next := old'.next)
    && old'.cycle <= new'.cycle
    && (old'.cycle == new'.cycle ==> after.subscriptions[new'.subscription].user == e.subscriptions[old'.subscription].user)
  }

  lemma RowsKeepInv(e: Engine, after: Engine)
    requires Inv(e) && Shaped(after) && Keeps(e, after)
    ensures Inv(after)
  {
    hide L.Balanced;
    forall g <- after.grants ensures GrantInv(after, g) {
      assert GrantInv(e, g) && KeepsBenefit(e, after, g.benefit);
    }
    forall entry <- after.tables.entries ensures EntryInv(after, entry) && Credited(after, entry) == Credited(e, entry) {
      assert EntryInv(e, entry);
      if entry.grant.Some? && entry.grant.value < |e.grants| {
        assert KeepsBenefit(e, after, e.grants[entry.grant.value].benefit);
      }
    }
    forall i, k | 0 <= i < |after.tables.entries| && 0 <= k < |after.grants| ensures NotWaited(after, after.tables.entries[i], k) {
      assert NotWaited(e, e.tables.entries[i], k);
      assert KeepsBenefit(e, after, e.grants[k].benefit);
      assert Credited(after, after.tables.entries[i]) == Credited(e, e.tables.entries[i]);
    }
  }

  lemma EnvironmentKeepsInv(e: Engine, v: Event)
    requires Inv(e)
    requires v.Subscribe? || v.Snapshot? || v.Reconcile? || v.SetBenefit? || v.NewCycle? || v.HandOver?
    ensures Inv(Core(e, v))
  {
    EnvironmentKeepsRows(e, v);
    RowsKeepInv(e, Core(e, v));
  }

  lemma EnvironmentKeepsRows(e: Engine, v: Event)
    requires Shaped(e)
    requires v.Subscribe? || v.Snapshot? || v.Reconcile? || v.SetBenefit? || v.NewCycle? || v.HandOver?
    ensures Shaped(Core(e, v)) && Keeps(e, Core(e, v))
  {
  }

  lemma TickKeepsInv(e: Engine, to: int)
    requires Inv(e) && MayTick(e, to)
    ensures Inv(e.(now := to))
  {
    hide L.Balanced;
    var after := e.(now := to);
    forall g <- after.grants ensures GrantInv(after, g) {
      assert GrantInv(e, g);
    }
    SameGrants(e, after);
  }

  /** What the ledger says of the grants depends on the benefits, the grants and the entries alone. */
  lemma SameGrants(e: Engine, after: Engine)
    requires Inv(e) && after == e.(now := after.now)
    ensures OnceInv(after) && forall entry <- after.tables.entries :: EntryInv(after, entry)
  {
    hide L.Balanced, GrantInv;
    forall entry <- after.tables.entries ensures EntryInv(after, entry) && Credited(after, entry) == Credited(e, entry) {
      assert EntryInv(e, entry);
    }
    forall i, k | 0 <= i < |after.tables.entries| && 0 <= k < |after.grants| ensures NotWaited(after, after.tables.entries[i], k) {
      assert NotWaited(e, e.tables.entries[i], k);
    }
  }

  // ---------------------------------------------------------------- one grant

  /** A grant may be rewritten in place as long as it keeps its name, opens nothing again and takes no key it did not hold. */
  ghost predicate Rewrites(g: Grant, new': Grant) {
    && new'.benefit == g.benefit && new'.key == g.key && new'.cycle == g.cycle
    && (new'.userKey == g.userKey || new'.userKey.None?)
    && (Open(new') ==> Open(g))
  }

  lemma WriteKeepsInv(e: Engine, i: nat, g: Grant)
    requires Inv(e) && i < |e.grants| && Rewrites(e.grants[i], g) && GrantInv(e, g)
    ensures Inv(Write(e, i, g))
  {
    hide L.Balanced;
    var after := Write(e, i, g);
    forall h <- after.grants ensures GrantInv(after, h) {
      assert GrantInv(e, h);
    }
    WriteKeepsOnce(e, i, g);
  }

  lemma WriteKeepsOnce(e: Engine, i: nat, g: Grant)
    requires Inv(e) && i < |e.grants| && Rewrites(e.grants[i], g)
    ensures OnceInv(Write(e, i, g)) && Unique(Write(e, i, g))
    ensures forall entry <- e.tables.entries :: EntryInv(Write(e, i, g), entry)
  {
    hide L.Balanced, GrantInv;
    var after := Write(e, i, g);
    forall entry <- after.tables.entries ensures EntryInv(after, entry) && Credited(after, entry) == Credited(e, entry) {
      assert EntryInv(e, entry);
    }
    forall n, k | 0 <= n < |after.tables.entries| && 0 <= k < |after.grants| ensures NotWaited(after, after.tables.entries[n], k) {
      assert NotWaited(e, e.tables.entries[n], k);
      assert Credited(after, after.tables.entries[n]) == Credited(e, e.tables.entries[n]);
    }
  }

  // ---------------------------------------------------------------- a new grant

  lemma AppendKeepsInv(e: Engine, g: Grant)
    requires Inv(e) && g.benefit < |e.benefits| && GrantInv(e, g) && !Taken(e, g.benefit, g.key)
    requires g.userKey.Some? ==> !KeyHeld(e, g.userKey.value) && forall entry <- e.tables.entries :: Credited(e, entry) != g.userKey
    requires Open(g) && Once(e, g) ==> g.userKey.Some?
    ensures Inv(e.(grants := e.grants + [g]))
  {
    hide L.Balanced;
    var after := e.(grants := e.grants + [g]);
    forall h <- after.grants ensures GrantInv(after, h) {
      assert h in e.grants ==> GrantInv(e, h);
    }
    assert Unique(after) by {
      forall i, j | 0 <= i < j < |after.grants|
        ensures LedgerKey(after.grants[i]) != LedgerKey(after.grants[j])
        ensures after.grants[i].userKey.Some? ==> after.grants[i].userKey != after.grants[j].userKey
      {
        assert after.grants[i] == e.grants[i];
      }
    }
    AppendKeepsOnce(e, g);
  }

  lemma AppendKeepsOnce(e: Engine, g: Grant)
    requires Inv(e) && g.benefit < |e.benefits|
    requires g.userKey.Some? ==> forall entry <- e.tables.entries :: Credited(e, entry) != g.userKey
    ensures OnceInv(e.(grants := e.grants + [g]))
    ensures forall entry <- e.tables.entries :: EntryInv(e.(grants := e.grants + [g]), entry)
  {
    hide L.Balanced, GrantInv, Unique;
    var after := e.(grants := e.grants + [g]);
    forall entry <- after.tables.entries ensures EntryInv(after, entry) && Credited(after, entry) == Credited(e, entry) {
      assert EntryInv(e, entry);
    }
    forall n, k | 0 <= n < |after.tables.entries| && 0 <= k < |after.grants| ensures NotWaited(after, after.tables.entries[n], k) {
      assert Credited(after, after.tables.entries[n]) == Credited(e, e.tables.entries[n]);
      if k < |e.grants| {
        assert NotWaited(e, e.tables.entries[n], k);
      }
    }
  }

  lemma BeginKeepsInv(e: Engine, b: nat, key: S.CycleKey, slot: S.Slot)
    requires Inv(e) && b < |e.benefits|
    ensures Inv(Begun(e, b, key, slot))
  {
    hide L.Balanced, Unique, OnceInv, EntryInv;
    var after := Begun(e, b, key, slot);
    if after != e {
      var g := after.grants[|e.grants|];
      if g.userKey.Some? {
        forall entry <- e.tables.entries ensures Credited(e, entry) != g.userKey {
        }
      }
      AppendKeepsInv(e, g);
    }
  }

  // ---------------------------------------------------------------- the ledger

  /** The ledger grows by one entry, which is either none of the engine's or the credit of a grant nobody credited before. */
  lemma EntryKeepsInv(e: Engine, tables: L.Tables, entry: L.Entry)
    requires Inv(e) && L.Balanced(tables) && tables.entries == e.tables.entries + [entry]
    requires EntryInv(e, entry) && !L.HasKey(e.tables.entries, entry.key)
    requires entry.key.GrantKey? ==>
               var i := entry.grant.value;
               Open(e.grants[i]) && (Once(e, e.grants[i]) ==> Credited(e, entry) == e.grants[i].userKey)
    ensures Inv(e.(tables := tables))
  {
    hide L.Balanced;
    var after := e.(tables := tables);
    forall g <- after.grants ensures GrantInv(after, g) {
      assert GrantInv(e, g);
      if L.HasKey(e.tables.entries, LedgerKey(g)) {
        var held :| held in e.tables.entries && held.key == LedgerKey(g);
        assert held in tables.entries;
      }
    }
    EntryKeepsOnce(e, tables, entry);
  }

  lemma EntryKeepsOnce(e: Engine, tables: L.Tables, entry: L.Entry)
    requires Inv(e) && tables.entries == e.tables.entries + [entry]
    requires EntryInv(e, entry) && !L.HasKey(e.tables.entries, entry.key)
    requires entry.key.GrantKey? ==>
               var i := entry.grant.value;
               Open(e.grants[i]) && (Once(e, e.grants[i]) ==> Credited(e, entry) == e.grants[i].userKey)
    ensures OnceInv(e.(tables := tables))
    ensures forall entry <- tables.entries :: EntryInv(e.(tables := tables), entry)
  {
    hide L.Balanced, GrantInv;
    var after := e.(tables := tables);
    var n := |e.tables.entries|;
    forall other <- tables.entries ensures EntryInv(after, other) && Credited(after, other) == Credited(e, other) {
      assert EntryInv(e, other);
    }
    forall m | 0 <= m < n && Credited(e, e.tables.entries[m]).Some? ensures Credited(e, e.tables.entries[m]) != Credited(e, entry) {
      if Credited(e, entry).Some? {
        assert NotWaited(e, e.tables.entries[m], entry.grant.value);
        assert EntryInv(e, e.tables.entries[m]);
      }
    }
    forall m, k | 0 <= m < |tables.entries| && 0 <= k < |after.grants| ensures NotWaited(after, tables.entries[m], k) {
      assert Credited(after, tables.entries[m]) == Credited(e, tables.entries[m]);
      if m < n {
        assert NotWaited(e, e.tables.entries[m], k);
      }
    }
  }

  lemma OtherMoveKeepsInv(e: Engine, r: L.Request)
    requires Inv(e) && !r.key.GrantKey?
    ensures Inv(e.(tables := L.Moved(e.tables, r).0))
  {
    hide L.Balanced, Unique, OnceInv, GrantInv;
    L.MovedKeepsBalanced(e.tables, r);
    var tables := L.Moved(e.tables, r).0;
    if tables != e.tables {
      EntryKeepsInv(e, tables, L.Written(e.tables, r));
    }
  }

  /** Crediting a grant under the hold enters its snapshot quantity once, to the person its key names. */
  lemma CreditKeepsInv(e: Engine, i: nat)
    requires Inv(e) && i < |e.grants| && Open(e.grants[i]) && BenefitOf(e, e.grants[i]).kind.Credit?
    requires e.grants[i].cycle == BenefitOf(e, e.grants[i]).cycle
    ensures var (tables, answer) := L.Moved(e.tables, CreditRequest(e, i));
            Inv(e.(tables := tables)) && (answer.Success? ==> L.HasKey(tables.entries, LedgerKey(e.grants[i])))
  {
    hide L.Balanced, Unique, OnceInv;
    var r := CreditRequest(e, i);
    L.MovedKeepsBalanced(e.tables, r);
    var tables := L.Moved(e.tables, r).0;
    if tables != e.tables {
      var entry := L.Written(e.tables, r);
      assert GrantInv(e, e.grants[i]);
      EntryKeepsInv(e, tables, entry);
      assert tables.entries[|e.tables.entries|] == entry;
    }
  }

  // ---------------------------------------------------------------- a worker's events

  lemma DeliverKeepsInv(e: Engine, i: nat, raises: Raises)
    requires Inv(e) && i < |e.grants| && e.grants[i].worker.Delivering?
    ensures Inv(Delivered'(e, i, raises))
  {
    hide L.Balanced, Unique, OnceInv, EntryInv, L.Moved;
    var g := e.grants[i];
    assert GrantInv(e, g);
    var after := Delivered'(e, i, raises);
    if after.grants[i].worker == Delivery(Dropped) || raises.Before? || BenefitOf(e, g).kind.Access? {
      WriteKeepsInv(e, i, after.grants[i]);
    } else {
      CreditKeepsInv(e, i);
      var credited := e.(tables := after.tables);
      assert GrantInv(credited, g) by { assert credited.grants[i] == g; }
      WriteKeepsInv(credited, i, after.grants[i]);
      assert after == Write(credited, i, after.grants[i]);
    }
  }

  lemma WorkerKeepsInv(e: Engine, v: Event)
    requires Inv(e) && (v.Pick? || v.Mark? || v.Crash?)
    ensures Inv(Core(e, v))
  {
    if v.g < |e.grants| {
      assert GrantInv(e, e.grants[v.g]);
      var after := Core(e, v);
      if after != e {
        WorkerRewrites(e, v);
        hide Inv, Core, Rewrites, GrantInv;
        WriteKeepsInv(e, v.g, after.grants[v.g]);
      }
    }
  }

  lemma WorkerRewrites(e: Engine, v: Event)
    requires Shaped(e) && (v.Pick? || v.Mark? || v.Crash?) && v.g < |e.grants| && GrantInv(e, e.grants[v.g]) && Core(e, v) != e
    ensures var after := Core(e, v);
            && |after.grants| == |e.grants| && after == Write(e, v.g, after.grants[v.g])
            && Rewrites(e.grants[v.g], after.grants[v.g]) && after.grants[v.g].benefit < |e.benefits| && GrantInv(e, after.grants[v.g])
  {
    hide StillOwed, L.HasKey, NamesItsPerson;
    var (g, after) := (e.grants[v.g], Core(e, v).grants[v.g]);
    assert Open(after) && Once(e, g) ==> NamesItsPerson(e, after) by {
      SameName(e, g, after);
    }
  }

  lemma SameName(e: Engine, g: Grant, after: Grant)
    requires Shaped(e) && g.benefit < |e.benefits| && after.benefit == g.benefit && after.cycle == g.cycle
    ensures after.userKey == g.userKey && NamesItsPerson(e, g) ==> NamesItsPerson(e, after)
  {
  }

  lemma CoreKeepsInv(e: Engine, v: Event)
    requires Inv(e)
    ensures Inv(Core(e, v))
  {
    if v.Tick? {
      if MayTick(e, v.to) {
        TickKeepsInv(e, v.to);
      }
    } else if v.OtherMove? {
      if !v.request.key.GrantKey? {
        OtherMoveKeepsInv(e, v.request);
      }
    } else if v.RunCycle? {
      if v.b < |e.benefits| {
        BeginKeepsInv(e, v.b, v.key, v.slot);
      }
    } else if v.Deliver? {
      if v.g < |e.grants| && e.grants[v.g].worker.Delivering? {
        DeliverKeepsInv(e, v.g, v.raises);
      }
    } else if v.Pick? || v.Mark? || v.Crash? {
      WorkerKeepsInv(e, v);
    } else {
      EnvironmentKeepsInv(e, v);
    }
  }

  /** Dates are nothing the rest depends on. */
  lemma DatedKeepsInv(e: Engine, i: nat, moment: S.Slot)
    requires Inv(e)
    ensures Inv(Dated(e, i, moment))
  {
    var after := Dated(e, i, moment);
    DatedKeepsRows(e, i, moment);
    RowsKeepInv(e, after);
  }

  lemma DatedKeepsRows(e: Engine, i: nat, moment: S.Slot)
    requires Shaped(e)
    ensures var after := Dated(e, i, moment); Shaped(after) && Keeps(e, after)
  {
    hide S.Next;
  }

  lemma EventKeepsInv(e: Engine, v: Event)
    requires Inv(e)
    ensures Inv(Apply(e, v))
  {
    CoreKeepsInv(e, v);
    hide L.Balanced, Unique, GrantInv, EntryInv, OnceInv, Core, Dated, Past;
    if Past(e, v).Some? {
      DatedKeepsInv(Core(e, v), Past(e, v).value, MomentOf(v));
    }
  }

  // ---------------------------------------------------------------- every run

  ghost function Run(e: Engine, events: seq<Event>): (after: Engine)
    requires Inv(e)
    ensures Inv(after)
    decreases |events|
  {
    if events == [] then e
    else
      EventKeepsInv(e, events[0]);
      Run(Apply(e, events[0]), events[1..])
  }

  /** What no event takes back: the entries, the snapshots, the names of the grants, and the end a grant came to. */
  ghost predicate Grows(e: Engine, after: Engine) {
    && e.tables.entries <= after.tables.entries
    && |e.benefits| <= |after.benefits|
    && (forall b :: 0 <= b < |e.benefits| ==> SameSnapshot(e.benefits[b], after.benefits[b]))
    && |e.grants| <= |after.grants|
    && (forall i :: 0 <= i < |e.grants| ==> GoesOn(e.grants[i], after.grants[i]))
  }

  ghost predicate SameSnapshot(old': Benefit, new': Benefit) {
    old'.cycle <= new'.cycle && old' == new'.(status := old'.status, cycle := old'.cycle, last := old'.last, next := old'.next)
  }

  ghost predicate GoesOn(g: Grant, after: Grant) {
    && LedgerKey(after) == LedgerKey(g) && after.cycle == g.cycle && g.attempts <= after.attempts
    && (!Open(g) ==> after.status == g.status)
  }

  /** What an open grant may still cost in attempts, and one already over its ceiling nothing. */
  function Weigh(g: Grant): int {
    if Open(g) then MAX_ATTEMPTS + 1 - g.attempts else 0
  }

  /** What a worker's event leaves of a grant, which is the only grant it touches. */
  lemma CoreTouchesOne(e: Engine, v: Event)
    requires Inv(e) && (v.Pick? || v.Deliver? || v.Mark? || v.Crash?) && v.g < |e.grants|
    ensures var after := Core(e, v);
            && |after.grants| == |e.grants| && after.benefits == e.benefits
            && after.grants == e.grants[v.g := after.grants[v.g]]
            && GoesOn(e.grants[v.g], after.grants[v.g])
            && Weigh(after.grants[v.g]) <= Weigh(e.grants[v.g]) - (if v.Pick? && Selectable(e.now, e.grants[v.g]) then 1 else 0)
            && (v.Deliver? || after.tables == e.tables)
  {
    assert GrantInv(e, e.grants[v.g]);
    var g := e.grants[v.g];
    assert g.attempts <= MAX_ATTEMPTS && (g.worker != Nobody ==> g.status.Processing?);
    hide Inv, GrantInv;
    match v {
      case Deliver(_, _) => DeliveryTouchesOne(e, v);
      case Pick(_, _) => PickTouchesOne(e, v);
      case _ => hide StillOwed, Selectable;
    }
  }

  lemma PickTouchesOne(e: Engine, v: Event)
    requires Shaped(e) && v.Pick? && v.g < |e.grants| && e.grants[v.g].attempts <= MAX_ATTEMPTS
    ensures var after := Core(e, v);
            && |after.grants| == |e.grants| && after.benefits == e.benefits && after.tables == e.tables
            && after.grants == e.grants[v.g := after.grants[v.g]]
            && GoesOn(e.grants[v.g], after.grants[v.g])
            && Weigh(after.grants[v.g]) <= Weigh(e.grants[v.g]) - (if Selectable(e.now, e.grants[v.g]) then 1 else 0)
  {
    hide StillOwed;
  }

  lemma DeliveryTouchesOne(e: Engine, v: Event)
    requires Shaped(e) && v.Deliver? && v.g < |e.grants|
    ensures var after := Core(e, v);
            && |after.grants| == |e.grants| && after.benefits == e.benefits
            && after.grants == e.grants[v.g := after.grants[v.g]]
            && after.grants[v.g] == e.grants[v.g].(worker := after.grants[v.g].worker)
            && (after.grants[v.g].worker == e.grants[v.g].worker || (e.grants[v.g].worker.Delivering? && after.grants[v.g].worker.Delivery?))
  {
  }

  lemma WriteGrows(e: Engine, tables: L.Tables, i: nat, g: Grant)
    requires i < |e.grants| && GoesOn(e.grants[i], g) && e.tables.entries <= tables.entries
    ensures Grows(e, Write(e.(tables := tables), i, g))
  {
  }

  lemma CoreGrows(e: Engine, v: Event)
    requires Inv(e)
    ensures Grows(e, Core(e, v))
  {
    hide Unique, OnceInv, EntryInv, GrantInv, AlreadyHeld, L.Balanced, Grows;
    if v.Pick? || v.Deliver? || v.Mark? || v.Crash? {
      if v.g < |e.grants| {
        CoreTouchesOne(e, v);
        var after := Core(e, v);
        CoreOnlyAdds(e, v);
        WriteGrows(e, after.tables, v.g, after.grants[v.g]);
        assert after == Write(e.(tables := after.tables), v.g, after.grants[v.g]);
      } else {
        RowsGrow(e, Core(e, v));
      }
    } else {
      RowsGrow(e, Core(e, v));
    }
  }

  lemma CoreOnlyAdds(e: Engine, v: Event)
    requires Inv(e) && (v.Pick? || v.Deliver? || v.Mark? || v.Crash?) && v.g < |e.grants|
    ensures var after := Core(e, v);
            e.tables.entries <= after.tables.entries && after == e.(tables := after.tables, grants := after.grants)
  {
    assert Shaped(e);
    hide Inv;
    if v.Deliver? {
      DeliveryOnlyAdds(e, v);
    } else {
      hide StillOwed, Allows;
    }
  }

  lemma DeliveryOnlyAdds(e: Engine, v: Event)
    requires Shaped(e) && v.Deliver? && v.g < |e.grants|
    ensures var after := Core(e, v);
            e.tables.entries <= after.tables.entries && after == e.(tables := after.tables, grants := after.grants)
  {
    hide StillOwed, Allows, L.HasKey, L.Refused, L.ByKey;
  }

  /** The dates of a benefit are all that is added to it. */
  lemma DatesAreAllElse(e: Engine, v: Event)
    requires Shaped(e)
    ensures var (core, after) := (Core(e, v), Apply(e, v));
            && after == core.(benefits := after.benefits) && |after.benefits| == |core.benefits|
            && forall b :: 0 <= b < |core.benefits| ==> SameSnapshot(core.benefits[b], after.benefits[b])
  {
    hide Core, Past, S.Next;
  }

  lemma WorkerTouchesOne(e: Engine, v: Event)
    requires Inv(e) && (v.Pick? || v.Deliver? || v.Mark? || v.Crash?) && v.g < |e.grants|
    ensures var after := Apply(e, v);
            && |after.grants| == |e.grants| && after.now == e.now
            && after.grants == e.grants[v.g := after.grants[v.g]]
            && GoesOn(e.grants[v.g], after.grants[v.g])
            && Weigh(after.grants[v.g]) <= Weigh(e.grants[v.g]) - (if v.Pick? && Selectable(e.now, e.grants[v.g]) then 1 else 0)
  {
    CoreTouchesOne(e, v);
    CoreOnlyAdds(e, v);
    DatesAreAllElse(e, v);
    hide Inv, Apply, Core;
  }

  lemma EventGrows(e: Engine, v: Event)
    requires Inv(e)
    ensures Grows(e, Apply(e, v))
  {
    CoreGrows(e, v);
    DatesAreAllElse(e, v);
    hide Inv, Apply, Core, Grows;
    RowsGrow(Core(e, v), Apply(e, v));
    GrowsOn(e, Core(e, v), Apply(e, v));
  }

  lemma RowsGrow(e: Engine, after: Engine)
    requires e.tables.entries <= after.tables.entries && e.grants <= after.grants
    requires |e.benefits| <= |after.benefits| && forall b :: 0 <= b < |e.benefits| ==> SameSnapshot(e.benefits[b], after.benefits[b])
    ensures Grows(e, after)
  {
  }

  lemma {:induction false} RunGrows(e: Engine, events: seq<Event>)
    requires Inv(e)
    ensures Grows(e, Run(e, events))
    decreases |events|
  {
    hide GrantInv, Unique, OnceInv, EntryInv, L.Balanced, Grows;
    if events == [] {
      RowsGrow(e, e);
    } else {
      EventKeepsInv(e, events[0]);
      EventGrows(e, events[0]);
      RunGrows(Apply(e, events[0]), events[1..]);
      GrowsOn(e, Apply(e, events[0]), Run(e, events));
    }
  }

  lemma GrowsOn(e: Engine, mid: Engine, after: Engine)
    requires Grows(e, mid) && Grows(mid, after)
    ensures Grows(e, after)
  {
  }

  /** Rows nobody has written yet. */
  ghost predicate Empty(e: Engine) {
    e.subscriptions == [] && e.benefits == [] && e.grants == [] && e.tables == L.Tables(map[], [])
  }

  /** The n-th entry of the ledger is the credit of the i-th grant. */
  ghost predicate CreditOf(e: Engine, n: nat, i: nat) {
    n < |e.tables.entries| && i < |e.grants| && e.tables.entries[n].key == LedgerKey(e.grants[i])
  }

  ghost predicate CompletedCredit(e: Engine, i: nat)
    requires Shaped(e)
  {
    i < |e.grants| && e.grants[i].status.Completed? && BenefitOf(e, e.grants[i]).kind.Credit?
  }

  /**
   In every run of cycles, retries, reconciliations, transfers and new cycles, with workers dying anywhere, also between the ledger and the grant:
   a grant has at most one entry, of exactly the quantity its benefit was snapshot with, and one once it is completed.
   */
  lemma EveryRunCreditsEachGrantOnce(e: Engine, events: seq<Event>)
    requires Empty(e)
    ensures Inv(e)
    ensures var after := Run(e, events);
            && Shaped(after)
            && (forall n: nat, m: nat, i: nat :: (CreditOf(after, n, i) && CreditOf(after, m, i)) ==> n == m)
            && (forall n: nat, i: nat :: CreditOf(after, n, i) ==> after.tables.entries[n].amount == BenefitOf(after, after.grants[i]).quantity)
            && (forall i: nat :: CompletedCredit(after, i) ==> exists n: nat :: CreditOf(after, n, i))
  {
    assert Inv(e);
    hide L.Balanced, OnceInv;
    var after := Run(e, events);
    DistinctKeys(after.tables);
    forall n: nat, i: nat | CreditOf(after, n, i) ensures after.tables.entries[n].amount == BenefitOf(after, after.grants[i]).quantity {
      assert EntryInv(after, after.tables.entries[n]);
      assert after.tables.entries[n].grant.value == i;
    }
    forall i: nat | CompletedCredit(after, i) ensures exists n: nat :: CreditOf(after, n, i) {
      assert GrantInv(after, after.grants[i]);
      var entry :| entry in after.tables.entries && entry.key == LedgerKey(after.grants[i]);
      var n: nat :| n < |after.tables.entries| && after.tables.entries[n] == entry;
      assert CreditOf(after, n, i);
    }
  }

  lemma DistinctKeys(t: L.Tables)
    requires L.Balanced(t)
    ensures forall n, m :: 0 <= n < m < |t.entries| ==> t.entries[n].key != t.entries[m].key
  {
  }

  /** And a once-per-user benefit credits one person at most once, whichever subscriptions it ran under. */
  lemma EveryRunCreditsAPersonOnce(e: Engine, events: seq<Event>, n: nat, m: nat)
    requires Empty(e)
    ensures Inv(e)
    ensures var after := Run(e, events);
            && (forall g <- after.grants :: g.benefit < |after.benefits|)
            && (n < |after.tables.entries| && m < |after.tables.entries|
                && Credited(after, after.tables.entries[n]).Some? && Credited(after, after.tables.entries[n]) == Credited(after, after.tables.entries[m])
                ==> n == m)
  {
  }

  /** Attempts are bounded, and a grant that failed always has one left. */
  lemma EveryRunBoundsAttempts(e: Engine, events: seq<Event>, i: nat)
    requires Empty(e)
    ensures Inv(e)
    ensures i < |Run(e, events).grants| ==>
              var g := Run(e, events).grants[i];
              1 <= g.attempts <= MAX_ATTEMPTS && (g.status.Failed? ==> g.attempts < MAX_ATTEMPTS)
  {
    var after := Run(e, events);
    if i < |after.grants| {
      assert GrantInv(after, after.grants[i]);
    }
  }

  // ---------------------------------------------------------------- the backlog

  predicate Bounded(grants: seq<Grant>) {
    forall g <- grants :: g.attempts <= MAX_ATTEMPTS
  }

  /** What all the open grants may still cost in attempts. */
  function Backlog(grants: seq<Grant>): nat
    requires Bounded(grants)
  {
    if grants == [] then 0 else Backlog(grants[..|grants| - 1]) + Weigh(grants[|grants| - 1])
  }

  lemma {:induction false} BacklogOfUpdate(grants: seq<Grant>, i: nat, g: Grant)
    requires Bounded(grants) && i < |grants| && g.attempts <= MAX_ATTEMPTS
    ensures Bounded(grants[i := g]) && Backlog(grants[i := g]) == Backlog(grants) - Weigh(grants[i]) + Weigh(g)
    decreases |grants|
  {
    var n := |grants| - 1;
    if i < n {
      assert grants[i := g][..n] == grants[..n][i := g];
      BacklogOfUpdate(grants[..n], i, g);
    } else {
      assert grants[i := g][..n] == grants[..n];
    }
  }

  lemma {:induction false} BacklogIsSpent(grants: seq<Grant>)
    requires Bounded(grants)
    ensures Backlog(grants) == 0 <==> forall g <- grants :: !Open(g)
    decreases |grants|
  {
    if grants != [] {
      BacklogIsSpent(grants[..|grants| - 1]);
      assert grants == grants[..|grants| - 1] + [grants[|grants| - 1]];
    }
  }

  lemma InvIsBounded(e: Engine)
    requires Inv(e)
    ensures Bounded(e.grants)
  {
  }

  /** An open grant with nobody on it is one a pass may have, at once if it failed and otherwise when its window is over. */
  lemma OpenIsSelectableInTime(e: Engine, g: Grant)
    requires Inv(e) && g in e.grants && Open(g)
    ensures Selectable(e.now, g) <==> g.status.Failed? || g.startedAt < e.now - ABANDONED_AFTER
    ensures Selectable(e.now, g) ==> g.worker == Nobody
  {
  }

  /** Handling a selectable grant, whatever comes of it, costs the backlog at least one attempt; no other worker event adds any. */
  lemma HandlingSpendsBacklog(e: Engine, v: Event)
    requires Inv(e) && (v.Pick? || v.Deliver? || v.Mark? || v.Crash?)
    ensures Inv(Apply(e, v)) && Bounded(e.grants) && Bounded(Apply(e, v).grants)
    ensures Backlog(Apply(e, v).grants) <= Backlog(e.grants) - (if v.Pick? && v.g < |e.grants| && Selectable(e.now, e.grants[v.g]) then 1 else 0)
  {
    EventKeepsInv(e, v);
    InvIsBounded(e);
    InvIsBounded(Apply(e, v));
    if v.g < |e.grants| {
      WorkerTouchesOne(e, v);
      hide Inv, Apply;
      BacklogOfUpdate(e.grants, v.g, Apply(e, v).grants[v.g]);
    }
  }

  // ---------------------------------------------------------------- the retry pass

  /** One grant handled by a pass that lives to the end of it: picked, delivered, committed. */
  ghost function Handled(e: Engine, i: nat, attempt: Attempt): (after: Engine)
    requires Inv(e)
    ensures Inv(after)
  {
    EventKeepsInv(e, Pick(i, attempt.moment));
    var picked := Apply(e, Pick(i, attempt.moment));
    EventKeepsInv(picked, Deliver(i, attempt.raises));
    var delivered := Apply(picked, Deliver(i, attempt.raises));
    EventKeepsInv(delivered, Mark(i, attempt.moment));
    Apply(delivered, Mark(i, attempt.moment))
  }

  /** A whole cycle: begun, delivered and committed, where what is not there to deliver is left as it is. */
  ghost function CycleRun(e: Engine, b: nat, key: S.CycleKey, slot: S.Slot, attempt: Attempt): (after: Engine)
    requires Inv(e)
    ensures Inv(after)
  {
    EventKeepsInv(e, RunCycle(b, key, slot, attempt.moment));
    var begun := Apply(e, RunCycle(b, key, slot, attempt.moment));
    EventKeepsInv(begun, Deliver(|e.grants|, attempt.raises));
    var delivered := Apply(begun, Deliver(|e.grants|, attempt.raises));
    EventKeepsInv(delivered, Mark(|e.grants|, attempt.moment));
    Apply(delivered, Mark(|e.grants|, attempt.moment))
  }

  /** The grants a pass reads: the first selectable ones of the rows from `from` on, no more than `limit`. */
  function Batch(now: int, grants: seq<Grant>, from: nat, limit: nat): seq<nat>
    requires from <= |grants|
    decreases |grants| - from
  {
    if from == |grants| || limit == 0 then []
    else if Selectable(now, grants[from]) then [from] + Batch(now, grants, from + 1, limit - 1)
    else Batch(now, grants, from + 1, limit)
  }

  /** Rows to work through, in order, all of them selectable. */
  ghost predicate Pickable(now: int, grants: seq<Grant>, ids: seq<nat>) {
    && (forall n :: 0 <= n < |ids| ==> ids[n] < |grants| && Selectable(now, grants[ids[n]]))
    && (forall n, m :: 0 <= n < m < |ids| ==> ids[n] < ids[m])
  }

  /** The batch is the selectable rows in order, all of them unless it is full. */
  lemma {:induction false} BatchIsSelectable(now: int, grants: seq<Grant>, from: nat, limit: nat)
    requires from <= |grants|
    ensures var ids := Batch(now, grants, from, limit);
            && Pickable(now, grants, ids) && |ids| <= limit
            && (forall i <- ids :: from <= i)
            && (forall i: nat :: from <= i < |grants| && Selectable(now, grants[i]) ==> i in ids || |ids| == limit)
    decreases |grants| - from
  {
    hide Selectable;
    if from < |grants| && limit > 0 {
      var left := if Selectable(now, grants[from]) then limit - 1 else limit;
      BatchIsSelectable(now, grants, from + 1, left);
      var rest := Batch(now, grants, from + 1, left);
      if Selectable(now, grants[from]) {
        assert Batch(now, grants, from, limit) == [from] + rest;
        assert forall n :: 0 <= n < |rest| ==> rest[n] in rest;
      }
    }
  }

  /** Handling touched no grant but these, nor the clock. */
  ghost predicate TouchedOnly(e: Engine, after: Engine, ids: seq<nat>) {
    && |after.grants| == |e.grants| && after.now == e.now
    && forall k: nat :: k < |e.grants| && k !in ids ==> after.grants[k] == e.grants[k]
  }

  ghost function Spent(e: Engine): nat
    requires Inv(e)
  {
    InvIsBounded(e);
    Backlog(e.grants)
  }

  lemma StepSpends(e: Engine, v: Event)
    requires Inv(e) && (v.Pick? || v.Deliver? || v.Mark?) && v.g < |e.grants|
    ensures var after := Apply(e, v);
            && Inv(after) && TouchedOnly(e, after, [v.g])
            && Spent(after) <= Spent(e) - (if v.Pick? && Selectable(e.now, e.grants[v.g]) then 1 else 0)
  {
    HandlingSpendsBacklog(e, v);
    WorkerTouchesOne(e, v);
    
    hide Inv, Apply, Backlog;
  }

  lemma HandledSpends(e: Engine, i: nat, attempt: Attempt)
    requires Inv(e) && i < |e.grants| && Selectable(e.now, e.grants[i])
    ensures var after := Handled(e, i, attempt);
            TouchedOnly(e, after, [i]) && Spent(after) < Spent(e)
  {
    hide GrantInv, Unique, OnceInv, EntryInv, L.Balanced, Backlog, Apply, Selectable, Spent;
    StepSpends(e, Pick(i, attempt.moment));
    var picked := Apply(e, Pick(i, attempt.moment));
    StepSpends(picked, Deliver(i, attempt.raises));
    StepSpends(Apply(picked, Deliver(i, attempt.raises)), Mark(i, attempt.moment));
  }

  /** Picking closes a grant or puts a worker on it, delivering takes the worker to an outcome, and committing ends it. */
  predicate MayAdvance(e: Engine, v: Event) {
    && (v.Pick? || v.Deliver? || v.Mark?) && v.g < |e.grants|
    && (v.Pick? ==> Selectable(e.now, e.grants[v.g]))
    && (v.Deliver? ==> !Open(e.grants[v.g]) || e.grants[v.g].worker.Delivering?)
    && (v.Mark? ==> !Open(e.grants[v.g]) || e.grants[v.g].worker.Delivery?)
  }

  predicate Advances(v: Event, g: Grant) {
    Open(g) ==> if v.Pick? then g.worker.Delivering? else if v.Deliver? then g.worker.Delivery? else g.status.Failed?
  }

  lemma StepAdvances(e: Engine, v: Event)
    requires Inv(e) && MayAdvance(e, v)
    ensures v.g < |Apply(e, v).grants| && Advances(v, Apply(e, v).grants[v.g])
  {
    assert GrantInv(e, e.grants[v.g]);
    assert e.grants[v.g].worker != Nobody ==> e.grants[v.g].status.Processing?;
    DatesAreAllElse(e, v);
    hide Inv, GrantInv, Apply;
    if v.Pick? {
      PickAdvances(e, v);
    } else if v.Deliver? {
      DeliveryAdvances(e, v);
    }
  }

  lemma PickAdvances(e: Engine, v: Event)
    requires Shaped(e) && v.Pick? && MayAdvance(e, v)
    ensures v.g < |Core(e, v).grants| && Advances(v, Core(e, v).grants[v.g])
  {
    hide StillOwed;
  }

  lemma DeliveryAdvances(e: Engine, v: Event)
    requires Shaped(e) && v.Deliver? && MayAdvance(e, v)
    ensures v.g < |Core(e, v).grants| && Advances(v, Core(e, v).grants[v.g])
  {
    hide L.Moved, StillOwed, Allows;
  }

  /** A pass that lives leaves a grant closed, or failed and selectable at once. */
  lemma HandledIsClosedOrFailed(e: Engine, i: nat, attempt: Attempt)
    requires Inv(e) && i < |e.grants| && Selectable(e.now, e.grants[i])
    ensures i < |Handled(e, i, attempt).grants|
    ensures var g := Handled(e, i, attempt).grants[i]; Open(g) ==> g.status.Failed? && Selectable(e.now, g)
  {
    hide Unique, OnceInv, EntryInv, L.Balanced, Apply, Spent, NamesItsPerson, L.HasKey;
    HandledSpends(e, i, attempt);
    EventKeepsInv(e, Pick(i, attempt.moment));
    StepSpends(e, Pick(i, attempt.moment));
    StepAdvances(e, Pick(i, attempt.moment));
    var picked := Apply(e, Pick(i, attempt.moment));
    EventKeepsInv(picked, Deliver(i, attempt.raises));
    StepSpends(picked, Deliver(i, attempt.raises));
    StepAdvances(picked, Deliver(i, attempt.raises));
    StepAdvances(Apply(picked, Deliver(i, attempt.raises)), Mark(i, attempt.moment));
    assert GrantInv(Handled(e, i, attempt), Handled(e, i, attempt).grants[i]);
  }

  ghost function HandledAll(e: Engine, ids: seq<nat>, attempts: seq<Attempt>): (after: Engine)
    requires Inv(e) && |ids| <= |attempts|
    ensures Inv(after)
  {
    if ids == [] then e else Handled(HandledAll(e, ids[..|ids| - 1], attempts), ids[|ids| - 1], attempts[|ids| - 1])
  }

  /** A pass spends one attempt at least for every grant of it, and leaves no grant open that the next one could not pick. */
  lemma {:induction false} PassSpends(e: Engine, ids: seq<nat>, attempts: seq<Attempt>)
    requires Inv(e) && |ids| <= |attempts| && Pickable(e.now, e.grants, ids)
    ensures var after := HandledAll(e, ids, attempts);
            && TouchedOnly(e, after, ids)
            && Spent(after) + |ids| <= Spent(e)
            && (forall i <- ids :: Open(after.grants[i]) ==> Selectable(e.now, after.grants[i]))
    decreases |ids|
  {
    hide Inv, Handled, Spent, Selectable;
    if ids != [] {
      var n := |ids| - 1;
      PassSpends(e, ids[..n], attempts);
      var mid := HandledAll(e, ids[..n], attempts);
      assert ids[n] !in ids[..n];
      HandledSpends(mid, ids[n], attempts[n]);
      HandledIsClosedOrFailed(mid, ids[n], attempts[n]);
      var after := HandledAll(e, ids, attempts);
      forall i <- ids ensures Open(after.grants[i]) ==> Selectable(e.now, after.grants[i]) {
        if i != ids[n] {
          assert i in ids[..n];
        }
      }
    }
  }

  lemma HandledNone(e: Engine, attempts: seq<Attempt>)
    requires Inv(e)
    ensures HandledAll(e, [], attempts) == e
  {
  }

  /** The next grant of a pass is still as the pass read it. */
  lemma NextOfPass(e: Engine, ids: seq<nat>, n: nat, attempts: seq<Attempt>)
    requires Inv(e) && Pickable(e.now, e.grants, ids) && n < |ids| <= |attempts|
    ensures var mid := HandledAll(e, ids[..n], attempts);
            && mid.now == e.now && ids[n] < |mid.grants| && Selectable(mid.now, mid.grants[ids[n]])
            && HandledAll(e, ids[..n + 1], attempts) == Handled(mid, ids[n], attempts[n])
  {
    hide Inv, Handled, Spent, Selectable;
    assert ids[..n + 1][..n] == ids[..n];
    PassSpends(e, ids[..n], attempts);
    assert ids[n] !in ids[..n];
  }

  /** A whole pass of the retry job, each of its handlers raising or not as it will. */
  ghost function RetryPass(e: Engine, attempts: seq<Attempt>): (after: Engine)
    requires Inv(e) && |attempts| == RETRY_BATCH
    ensures Inv(after)
  {
    BatchIsSelectable(e.now, e.grants, 0, RETRY_BATCH);
    HandledAll(e, Batch(e.now, e.grants, 0, RETRY_BATCH), attempts)
  }

  /** Nobody alive is inside a window: every open grant is one a pass may have. */
  ghost predicate AllSelectable(e: Engine) {
    forall g <- e.grants :: Open(g) ==> Selectable(e.now, g)
  }

  /** A pass spends something or reads nothing, and leaves no open grant the next one could not read. */
  lemma RetryPassSpends(e: Engine, attempts: seq<Attempt>)
    requires Inv(e) && |attempts| == RETRY_BATCH
    ensures var after := RetryPass(e, attempts);
            && after.now == e.now
            && (Spent(after) < Spent(e) || (after == e && forall g <- e.grants :: !Selectable(e.now, g)))
            && (AllSelectable(e) ==> AllSelectable(after))
  {
    BatchIsSelectable(e.now, e.grants, 0, RETRY_BATCH);
    var ids := Batch(e.now, e.grants, 0, RETRY_BATCH);
    hide Inv, Spent, Selectable, Open, Handled;
    PassSpends(e, ids, attempts);
    var after := RetryPass(e, attempts);
    if AllSelectable(e) {
      forall g <- after.grants | Open(g) ensures Selectable(e.now, g) {
        var k: nat :| k < |after.grants| && after.grants[k] == g;
        if k !in ids {
          assert g == e.grants[k];
        }
      }
    }
  }

  /** As many passes as rows of `attempts`. */
  ghost function RetryPasses(e: Engine, attempts: seq<seq<Attempt>>): (after: Engine)
    requires Inv(e) && forall r <- attempts :: |r| == RETRY_BATCH
    ensures Inv(after)
    decreases |attempts|
  {
    if attempts == [] then e else RetryPasses(RetryPass(e, attempts[0]), attempts[1..])
  }

  /** Passes drain any backlog, however often the handlers raise: as many of them as the backlog leave nothing to pick. */
  lemma {:induction false} RetryPassesDrain(e: Engine, attempts: seq<seq<Attempt>>)
    requires Inv(e) && forall r <- attempts :: |r| == RETRY_BATCH
    requires Spent(e) <= |attempts|
    ensures var after := RetryPasses(e, attempts);
            && (forall g <- after.grants :: !Selectable(e.now, g))
            && (AllSelectable(e) ==> forall g <- after.grants :: !Open(g))
    decreases |attempts|
  {
    hide Inv, Selectable, Open, RetryPass;
    if attempts == [] {
      NothingSpentNothingOpen(e);
    } else {
      RetryPassSpends(e, attempts[0]);
      var next := RetryPass(e, attempts[0]);
      if next == e {
        StuckPasses(e, attempts);
      } else {
        RetryPassesDrain(next, attempts[1..]);
      }
    }
  }

  /** What the due pass leaves to the retry pass: a benefit with a grant still open. */
  predicate Waiting(grants: seq<Grant>, b: nat) {
    exists g <- grants :: g.benefit == b && Open(g)
  }

  /** So no failing grant holds its benefit for good: once nobody alive is inside a window, as many passes as the backlog leave no benefit waiting. */
  lemma NoGrantHoldsItsBenefit(e: Engine, attempts: seq<seq<Attempt>>, b: nat)
    requires Inv(e) && AllSelectable(e) && forall r <- attempts :: |r| == RETRY_BATCH
    requires Spent(e) <= |attempts|
    ensures !Waiting(RetryPasses(e, attempts).grants, b)
  {
    hide Inv, Spent, Selectable, RetryPasses;
    RetryPassesDrain(e, attempts);
  }

  lemma NothingSpentNothingOpen(e: Engine)
    requires Inv(e) && Spent(e) == 0
    ensures forall g <- e.grants :: !Open(g) && !Selectable(e.now, g)
  {
    InvIsBounded(e);
    BacklogIsSpent(e.grants);
    hide Inv, Backlog;
  }

  lemma {:induction false} StuckPasses(e: Engine, attempts: seq<seq<Attempt>>)
    requires Inv(e) && (forall r <- attempts :: |r| == RETRY_BATCH) && forall g <- e.grants :: !Selectable(e.now, g)
    ensures RetryPasses(e, attempts) == e
    decreases |attempts|
  {
    hide Inv, Selectable, Spent, Open;
    if attempts != [] {
      BatchIsSelectable(e.now, e.grants, 0, RETRY_BATCH);
      BatchOfNone(e.now, e.grants, 0, RETRY_BATCH);
      StuckPasses(e, attempts[1..]);
    }
  }

  lemma {:induction false} BatchOfNone(now: int, grants: seq<Grant>, from: nat, limit: nat)
    requires from <= |grants| && forall g <- grants :: !Selectable(now, g)
    ensures Batch(now, grants, from, limit) == []
    decreases |grants| - from
  {
    hide Selectable;
    if from < |grants| {
      BatchOfNone(now, grants, from + 1, limit);
    }
  }

  /** Delivering and committing what no worker is on changes nothing. */
  lemma NothingToDeliver(e: Engine, i: nat, attempt: Attempt)
    requires Shaped(e) && (i < |e.grants| ==> e.grants[i].worker.Nobody?)
    ensures Apply(e, Deliver(i, attempt.raises)) == e && Apply(e, Mark(i, attempt.moment)) == e
  {
  }

  // ---------------------------------------------------------------- what a delivery decides

  /** What the status and the plan of a subscription let through of a kind: a trial and a grace period have a policy each. */
  predicate LetsThrough(s: Subscription, kind: Kind) {
    && (s.status.Trialing? ==> s.trialPolicy.All? || (s.trialPolicy.AccessOnly? && kind.Access?))
    && (s.status.GracePeriod? ==> s.gracePolicy.All? || (s.gracePolicy.AccessOnly? && kind.Access?))
  }

  /** A benefit that runs under a subscription that runs. */
  predicate IsOwed(e: Engine, b: nat)
    requires Shaped(e) && b < |e.benefits|
  {
    var s := e.subscriptions[e.benefits[b].subscription];
    e.benefits[b].status == S.Active && (s.status.Trialing? || s.status.Active? || s.status.GracePeriod?) && s.benefits == S.Active
  }

  /** A benefit that runs under a subscription that runs, with nothing withheld. */
  predicate Running(e: Engine, b: nat)
    requires Shaped(e) && b < |e.benefits|
  {
    var s := e.subscriptions[e.benefits[b].subscription];
    && e.benefits[b].status == S.Active
    && (s.status.Trialing? || s.status.Active? || s.status.GracePeriod?) && s.benefits == S.Active
    && LetsThrough(s, e.benefits[b].kind)
  }

  predicate InForce(e: Engine, i: nat)
    requires Shaped(e) && i < |e.grants|
  {
    Running(e, e.grants[i].benefit) && e.grants[i].cycle == e.benefits[e.grants[i].benefit].cycle
  }

  /** The credit of a grant: its snapshot quantity, to whoever the subscription is of, under the name of the grant. */
  lemma CreditIs(e: Engine, i: nat)
    requires Shaped(e) && i < |e.grants|
    ensures var (r, g, b) := (CreditRequest(e, i), e.grants[i], e.benefits[e.grants[i].benefit]);
            var user := e.subscriptions[b.subscription].user;
            && r.account == L.Account(user, b.currency) && r.kind == L.Credit && r.amount == b.quantity
            && r.key == L.GrantKey(g.benefit, g.key) && r.grant == Some(i) && r.product == None
            && (user in e.tenants ==> r.userTenant == e.tenants[user]) && (b.currency in e.currencyTenants ==> r.currencyTenant == e.currencyTenants[b.currency])
  {
  }

  /** The handler does not raise, and a ledger it moves does not refuse. */
  ghost predicate Succeeds(e: Engine, i: nat, raises: Raises)
    requires Shaped(e) && i < |e.grants|
  {
    raises.Never? && (e.benefits[e.grants[i].benefit].kind.Access? || L.Moved(e.tables, CreditRequest(e, i)).1.Success?)
  }

  /**
   A delivery outside what is in force hands over nothing and is dropped. Inside it an access is delivered, a credit is the movement of the
   ledger, and either ends delivered exactly when its handler does not raise and the ledger does not refuse.
   */
  lemma DeliveryDecides(e: Engine, i: nat, raises: Raises)
    requires Shaped(e) && i < |e.grants| && e.grants[i].worker.Delivering?
    ensures var (after, kind) := (Apply(e, Deliver(i, raises)), e.benefits[e.grants[i].benefit].kind);
            && |after.grants| == |e.grants|
            && (!InForce(e, i) ==> after.tables == e.tables && after.grants[i].worker == Delivery(Dropped))
            && (InForce(e, i) && (kind.Access? || raises.Before?) ==> after.tables == e.tables)
            && (InForce(e, i) && kind.Credit? && !raises.Before? ==> after.tables == L.Moved(e.tables, CreditRequest(e, i)).0)
            && (InForce(e, i) ==> after.grants[i].worker == Delivery(if Succeeds(e, i, raises) then Delivered else Raised))
            && after.grants == e.grants[i := e.grants[i].(worker := after.grants[i].worker)]
  {
    hide L.Moved;
    InForceIsOwed(e, i);
    hide StillOwed, Allows, LetsThrough, InForce;
  }

  lemma InForceIsOwed(e: Engine, i: nat)
    requires Shaped(e) && i < |e.grants|
    ensures var (g, b) := (e.grants[i], e.benefits[e.grants[i].benefit]);
            InForce(e, i) <==> StillOwed(e, g) && g.cycle == b.cycle && Allows(e.subscriptions[b.subscription], b.kind)
  {
  }

  /** And the commit completes what was delivered, closes what was dropped, and closes what raised only when it was the fifth attempt. */
  lemma MarkDecides(e: Engine, i: nat, moment: S.Slot)
    requires Shaped(e) && i < |e.grants| && e.grants[i].worker.Delivery?
    ensures var (after, g) := (Apply(e, Mark(i, moment)), e.grants[i]);
            && |after.grants| == |e.grants| && after.grants[i].worker == Nobody && after.tables == e.tables
            && (after.grants[i].status == S.Completed <==> g.worker.outcome == Delivered)
            && (after.grants[i].status == S.Failed <==> g.worker.outcome == Raised && g.attempts < 5)
            && (after.grants[i].status == S.Skipped <==> g.worker.outcome == Dropped || (g.worker.outcome == Raised && g.attempts >= 5))
            && (after.grants[i].status == S.Skipped ==> after.grants[i].userKey == None)
            && (after.grants[i].status != S.Skipped ==> after.grants[i].userKey == g.userKey)
  {
    hide Advanced;
  }

  /** The same of a live worker from the claim to the commit: completed, failed with attempts left, or closed. */
  lemma DeliveredEndsAs(e: Engine, i: nat, attempt: Attempt)
    requires Inv(e) && i < |e.grants| && e.grants[i].worker.Delivering?
    ensures Inv(Apply(e, Deliver(i, attempt.raises)))
    ensures var (after, g, ok) := (Apply(Apply(e, Deliver(i, attempt.raises)), Mark(i, attempt.moment)), e.grants[i], Succeeds(e, i, attempt.raises));
            && |after.grants| == |e.grants| && after.grants[i].attempts == g.attempts
            && (after.grants[i].status == S.Completed <==> InForce(e, i) && ok)
            && (after.grants[i].status == S.Failed <==> InForce(e, i) && !ok && g.attempts < 5)
            && (after.grants[i].status == S.Skipped <==> !InForce(e, i) || (!ok && g.attempts >= 5))
            && (!InForce(e, i) ==> after.tables == e.tables)
  {
    DeliveryDecides(e, i, attempt.raises);
    EventKeepsInv(e, Deliver(i, attempt.raises));
    var mid := Apply(e, Deliver(i, attempt.raises));
    assert mid.grants[i].worker.Delivery? && Shaped(mid);
    MarkDecides(mid, i, attempt.moment);
    MarkKeepsAttempts(mid, i, attempt.moment);
    hide Inv, Shaped, Apply, InForce, Succeeds;
  }

  lemma MarkKeepsAttempts(e: Engine, i: nat, moment: S.Slot)
    requires Shaped(e) && i < |e.grants| && e.grants[i].worker.Delivery?
    ensures i < |Apply(e, Mark(i, moment)).grants| && Apply(e, Mark(i, moment)).grants[i].attempts == e.grants[i].attempts
  {
    hide Advanced;
  }

  /** Whoever was credited for a catalog benefit, or completed a grant of it under the person's key, holds it. */
  ghost predicate Holds(e: Engine, user: nat, catalog: nat)
    requires Shaped(e)
  {
    || (exists g <- e.grants :: g.userKey == Some((user, catalog)) && g.status == S.Completed)
    || (exists entry <- e.tables.entries :: entry.account.user == user && entry.grant.Some? && entry.grant.value < |e.grants|
          && e.benefits[e.grants[entry.grant.value].benefit].catalog == catalog)
  }

  lemma HoldsIsHeld(e: Engine, user: nat, catalog: nat)
    requires Shaped(e)
    ensures Holds(e, user, catalog) <==> AlreadyHeld(e, user, catalog)
  {
  }

  lemma LetsThroughIsAllowed(s: Subscription, kind: Kind)
    ensures LetsThrough(s, kind) <==> Allows(s, kind)
  {
  }

  /**
   What becomes of a cycle nobody wrote before. A once-per-user one is skipped for a person who holds the benefit, and left alone while another
   grant has the person's key. Any other one is skipped where it is withheld, and otherwise begun: one attempt, for the slot, in the current cycle.
   */
  ghost predicate BegunAs(e: Engine, b: nat, key: S.CycleKey, slot: S.Slot, after: Engine)
    requires Shaped(e) && b < |e.benefits|
  {
    var (n, r) := (|e.grants|, e.benefits[b]);
    var (s, once) := (e.subscriptions[r.subscription], r.cadence.OncePerUser?);
    var (held, userKey) := (once && Holds(e, s.user, r.catalog), (s.user, r.catalog));
    && after.tables == e.tables
    && if once && !held && LetsThrough(s, r.kind) && exists g <- e.grants :: g.userKey == Some(userKey) then after.grants == e.grants
       else
         && |after.grants| == n + 1 && after.grants[..n] == e.grants
         && var g := after.grants[n];
            && g.benefit == b && g.key == key && g.cycle == r.cycle && g.scheduled == slot && g.attempts == 1 && g.startedAt == e.now
            && (if held || !LetsThrough(s, r.kind) then g.status == S.Skipped && g.worker == Nobody && g.userKey == None
                else g.status == S.Processing && g.worker == Delivering && g.userKey == (if once then Some(userKey) else None))
  }

  lemma BeginningDecides(e: Engine, b: nat, key: S.CycleKey, slot: S.Slot, moment: S.Slot)
    requires Shaped(e) && b < |e.benefits| && forall g <- e.grants :: !(g.benefit == b && g.key == key)
    ensures BegunAs(e, b, key, slot, Apply(e, RunCycle(b, key, slot, moment)))
  {
    BegunDecides(e, b, key, slot);
    BeginningDates(e, b, key, slot, moment);
    hide Begun, Apply, Holds, LetsThrough;
  }

  lemma BeginningDates(e: Engine, b: nat, key: S.CycleKey, slot: S.Slot, moment: S.Slot)
    requires Shaped(e) && b < |e.benefits|
    ensures var after := Apply(e, RunCycle(b, key, slot, moment)); after.grants == Begun(e, b, key, slot).grants && after.tables == Begun(e, b, key, slot).tables
  {
    hide Begun, Found, Advanced;
  }

  lemma BegunDecides(e: Engine, b: nat, key: S.CycleKey, slot: S.Slot)
    requires Shaped(e) && b < |e.benefits| && forall g <- e.grants :: !(g.benefit == b && g.key == key)
    ensures BegunAs(e, b, key, slot, Begun(e, b, key, slot))
  {
    var (s, r) := (e.subscriptions[e.benefits[b].subscription], e.benefits[b]);
    assert !Taken(e, b, key);
    HoldsIsHeld(e, s.user, r.catalog);
    LetsThroughIsAllowed(s, r.kind);
    hide Taken, Holds, AlreadyHeld, LetsThrough, Allows;
  }

  /** Picking a grant whose attempt failed or outlived its window closes it where it is not owed or out of attempts, and puts a worker on it for one more otherwise. */
  lemma PickDecides(e: Engine, i: nat, moment: S.Slot)
    requires Shaped(e) && i < |e.grants|
    requires e.grants[i].status == S.Failed || (e.grants[i].status == S.Processing && e.grants[i].startedAt < e.now - 1800)
    requires e.grants[i].status == S.Failed ==> e.grants[i].attempts < 5
    ensures var (after, g) := (Apply(e, Pick(i, moment)), e.grants[i]);
            && Shaped(after) && |after.grants| == |e.grants| && after.tables == e.tables
            && (after.grants[i].worker.Delivering? ==>
                  && g.attempts < 5 && after.grants[i].attempts == g.attempts + 1 && after.grants[i].startedAt == e.now
                  && InForce(after, i) == InForce(e, i) && CreditRequest(after, i) == CreditRequest(e, i)
                  && after.benefits[after.grants[i].benefit].kind == e.benefits[g.benefit].kind)
            && (!after.grants[i].worker.Delivering? ==> after.grants[i].worker == Nobody && after.grants[i].status == S.Skipped && (!InForce(e, i) || g.attempts >= 5))
            && (!IsOwed(e, g.benefit) || g.cycle != e.benefits[g.benefit].cycle || g.attempts < 5 ==> after.benefits == e.benefits)
            && (IsOwed(e, g.benefit) && g.cycle == e.benefits[g.benefit].cycle && g.attempts >= 5 ==>
                  && |after.benefits| == |e.benefits| && after.benefits[g.benefit].last == Some(moment)
                  && after.benefits[g.benefit].next == if e.benefits[g.benefit].cadence.Recurring? then Some(S.Next(g.scheduled, e.benefits[g.benefit].interval)) else None)
  {
    InForceIsOwed(e, i);
    hide LetsThrough, Allows, S.Next;
    assert e.benefits[e.grants[i].benefit := e.benefits[e.grants[i].benefit]] == e.benefits;
  }

  /** A retry by a worker that lives: closed where the grant is not in force or out of attempts, and otherwise ended as its one attempt more does. */
  lemma RetryEndsAs(e: Engine, i: nat, attempt: Attempt)
    requires Inv(e) && i < |e.grants|
    requires e.grants[i].status == S.Failed || (e.grants[i].status == S.Processing && e.grants[i].startedAt < e.now - 1800)
    ensures var (after, g, ok) := (Handled(e, i, attempt), e.grants[i], Succeeds(e, i, attempt.raises));
            && |after.grants| == |e.grants|
            && (after.grants[i].status == S.Completed <==> InForce(e, i) && g.attempts < 5 && ok)
            && (after.grants[i].status == S.Failed <==> InForce(e, i) && g.attempts + 1 < 5 && !ok)
            && (after.grants[i].status == S.Skipped <==> !InForce(e, i) || g.attempts >= 5 || (!ok && g.attempts + 1 >= 5))
            && (!InForce(e, i) || g.attempts >= 5 ==> after.tables == e.tables)
  {
    assert GrantInv(e, e.grants[i]);
    var picked := Apply(e, Pick(i, attempt.moment));
    PickDecides(e, i, attempt.moment);
    EventKeepsInv(e, Pick(i, attempt.moment));
    assert Succeeds(picked, i, attempt.raises) == Succeeds(e, i, attempt.raises) || !picked.grants[i].worker.Delivering?;
    hide Inv, GrantInv, Shaped, Apply, InForce, Succeeds, CreditRequest;
    if picked.grants[i].worker.Delivering? {
      DeliveredEndsAs(picked, i, attempt);
    } else {
      NothingToDeliver(picked, i, attempt);
    }
  }

  /** A whole cycle nobody wrote before, of a benefit that is not once per user: completed, failed with attempts left, or closed and nothing entered. */
  lemma CycleEndsAs(e: Engine, b: nat, key: S.CycleKey, slot: S.Slot, attempt: Attempt)
    requires Inv(e) && b < |e.benefits| && !e.benefits[b].cadence.OncePerUser? && forall g <- e.grants :: !(g.benefit == b && g.key == key)
    ensures var (begun, after, n) := (Apply(e, RunCycle(b, key, slot, attempt.moment)), CycleRun(e, b, key, slot, attempt), |e.grants|);
            && Shaped(begun) && n < |begun.grants| && |after.grants| == n + 1
            && (after.grants[n].status == S.Completed <==> Running(e, b) && Succeeds(begun, n, attempt.raises))
            && (after.grants[n].status == S.Failed <==> Running(e, b) && !Succeeds(begun, n, attempt.raises))
            && (after.grants[n].status == S.Skipped <==> !Running(e, b))
            && (!Running(e, b) ==> after.tables == e.tables)
  {
    var begun := Apply(e, RunCycle(b, key, slot, attempt.moment));
    var n := |e.grants|;
    BeginningDecides(e, b, key, slot, attempt.moment);
    EventKeepsInv(e, RunCycle(b, key, slot, attempt.moment));
    assert Shaped(begun) && begun.grants[n].attempts == 1;
    if begun.grants[n].worker.Delivering? {
      BegunInForce(e, b, key, slot, attempt.moment);
      hide Inv, Shaped, Apply, InForce, Succeeds, Running, Holds;
      DeliveredEndsAs(begun, n, attempt);
    } else {
      assert !Running(e, b);
      hide Inv, Shaped, Apply, InForce, Succeeds, Running, Holds;
      NothingToDeliver(begun, n, attempt);
    }
  }

  lemma BegunInForce(e: Engine, b: nat, key: S.CycleKey, slot: S.Slot, moment: S.Slot)
    requires Inv(e) && b < |e.benefits| && !e.benefits[b].cadence.OncePerUser? && forall g <- e.grants :: !(g.benefit == b && g.key == key)
    ensures var begun := Apply(e, RunCycle(b, key, slot, moment));
            Shaped(begun) && (|e.grants| < |begun.grants| && begun.grants[|e.grants|].worker.Delivering? ==> (InForce(begun, |e.grants|) <==> Running(e, b)))
  {
    var (begun, n) := (Apply(e, RunCycle(b, key, slot, moment)), |e.grants|);
    EventKeepsInv(e, RunCycle(b, key, slot, moment));
    assert Shaped(e) && Shaped(begun);
    hide Inv;
    BeginningDecides(e, b, key, slot, moment);
    BeginningMoves(e, b, key, slot, moment);
    BeginningKeepsRows(e, b, key, slot, moment);
    assert Found(e.grants, b, key) == n;
    hide Holds, Apply, Found, LetsThrough;
    if n < |begun.grants| && begun.grants[n].worker.Delivering? {
      NotAdvanced(e.benefits[b], begun.grants[n], moment);
    }
    hide Advanced;
  }

  lemma BeginningKeepsRows(e: Engine, b: nat, key: S.CycleKey, slot: S.Slot, moment: S.Slot)
    requires Shaped(e) && b < |e.benefits|
    ensures Apply(e, RunCycle(b, key, slot, moment)).subscriptions == e.subscriptions
  {
    hide Found, AlreadyHeld, KeyHeld, Taken, Allows, S.Next;
  }

  /** The entry is the credit of a grant that is in force as it is written. */
  ghost predicate CreditedInForce(e: Engine, v: Event, entry: L.Entry) {
    && Shaped(e) && v.Deliver? && v.g < |e.grants| && InForce(e, v.g)
    && var b := e.benefits[e.grants[v.g].benefit];
       && b.kind.Credit? && entry.account == L.Account(e.subscriptions[b.subscription].user, b.currency)
       && entry.kind == L.Credit && entry.amount == b.quantity && entry.grant == Some(v.g)
       && entry.key == L.GrantKey(e.grants[v.g].benefit, e.grants[v.g].key)
  }

  lemma OnlyDeliveriesCredit(e: Engine, v: Event, n: nat)
    requires Inv(e) && |e.tables.entries| <= n < |Apply(e, v).tables.entries| && Apply(e, v).tables.entries[n].key.GrantKey?
    ensures CreditedInForce(e, v, Apply(e, v).tables.entries[n])
  {
    if v.Deliver? && v.g < |e.grants| && e.grants[v.g].worker.Delivering? {
      DeliveryCreditsInForce(e, v.g, v.raises, n);
    } else if v.OtherMove? {
      DatesAreAllElse(e, v);
      hide Inv, Apply;
      MovedWrites(e.tables, v.request);
    } else {
      OthersCreditNothing(e, v);
    }
  }

  lemma DeliveryCreditsInForce(e: Engine, i: nat, raises: Raises, n: nat)
    requires Shaped(e) && i < |e.grants| && e.grants[i].worker.Delivering?
    requires |e.tables.entries| <= n < |Apply(e, Deliver(i, raises)).tables.entries|
    ensures CreditedInForce(e, Deliver(i, raises), Apply(e, Deliver(i, raises)).tables.entries[n])
  {
    DeliveryDecides(e, i, raises);
    CreditIs(e, i);
    MovedWrites(e.tables, CreditRequest(e, i));
    hide Apply, InForce, L.Moved, StillOwed, Allows, CreditRequest;
  }

  lemma OthersCreditNothing(e: Engine, v: Event)
    requires Shaped(e) && !v.OtherMove? && (v.Deliver? ==> v.g >= |e.grants| || !e.grants[v.g].worker.Delivering?)
    ensures Apply(e, v).tables == e.tables
  {
    hide StillOwed, Allows, AlreadyHeld, KeyHeld, Taken, Advanced, Found;
  }

  lemma MovedWrites(t: L.Tables, r: L.Request)
    ensures var after := L.Moved(t, r).0.entries;
            t.entries <= after && |after| <= |t.entries| + 1 &&
            (|after| == |t.entries| + 1 ==>
               var entry := after[|t.entries|];
               && entry.account == r.account && entry.kind == r.kind && entry.key == r.key && entry.grant == r.grant
               && (r.kind.Credit? ==> entry.amount == r.amount))
  {
  }

  /** One of the events of a run was the delivery that entered this, on a grant in force then. */
  ghost predicate WasInForce(e: Engine, events: seq<Event>, entry: L.Entry)
    requires Inv(e)
  {
    exists k :: 0 <= k < |events| && CreditedInForce(Run(e, events[..k]), events[k], entry)
  }

  lemma NowInForce(e: Engine, events: seq<Event>, entry: L.Entry)
    requires Inv(e) && events != [] && CreditedInForce(e, events[0], entry)
    ensures WasInForce(e, events, entry)
  {
    hide Inv, Apply, CreditedInForce;
    assert events[..0] == [] && Run(e, []) == e;
    assert CreditedInForce(Run(e, events[..0]), events[0], entry);
  }

  lemma RunOfMore(e: Engine, events: seq<Event>, k: nat)
    requires Inv(e) && k < |events| && Inv(Apply(e, events[0]))
    ensures Run(e, events[..k + 1]) == Run(Apply(e, events[0]), events[1..][..k])
  {
    assert Shaped(e);
    hide Inv, Shaped, Apply;
    assert events[..k + 1][0] == events[0] && events[..k + 1][1..] == events[1..][..k];
  }

  lemma LaterInForce(e: Engine, events: seq<Event>, entry: L.Entry)
    requires Inv(e) && events != [] && Inv(Apply(e, events[0])) && WasInForce(Apply(e, events[0]), events[1..], entry)
    ensures WasInForce(e, events, entry)
  {
    assert Shaped(e);
    hide Inv, Shaped, Apply, CreditedInForce, Run;
    var next := Apply(e, events[0]);
    var k :| 0 <= k < |events[1..]| && CreditedInForce(Run(next, events[1..][..k]), events[1..][k], entry);
    RunOfMore(e, events, k);
    assert CreditedInForce(Run(e, events[..k + 1]), events[k + 1], entry);
  }

  /** So in every run each credit of a grant was entered by a delivery, at a moment the grant was in force, to the person and in the amount that were then so. */
  lemma {:induction false} EveryCreditWasInForce(e: Engine, events: seq<Event>, n: nat)
    requires Inv(e) && |e.tables.entries| <= n < |Run(e, events).tables.entries| && Run(e, events).tables.entries[n].key.GrantKey?
    ensures WasInForce(e, events, Run(e, events).tables.entries[n])
    decreases |events|
  {
    assert Shaped(e);
    hide Inv, Shaped, Apply, CreditedInForce, WasInForce;
    var next := Apply(e, events[0]);
    EventKeepsInv(e, events[0]);
    RunGrows(next, events[1..]);
    if n < |next.tables.entries| {
      OnlyDeliveriesCredit(e, events[0], n);
      NowInForce(e, events, next.tables.entries[n]);
    } else {
      EveryCreditWasInForce(next, events[1..], n);
      LaterInForce(e, events, Run(e, events).tables.entries[n]);
    }
  }

  // ---------------------------------------------------------------- the schedule of a benefit

  /** What the schedule sees of a benefit: its row, and its grants by their cycle key. */
  function BookOf(e: Engine, b: nat): S.Book
    requires b < |e.benefits|
  {
    var r := e.benefits[b];
    S.Book(S.Row(r.interval, r.missed, r.status, r.cycle, r.last, r.next), GrantsOf(e.grants, b))
  }

  function GrantsOf(grants: seq<Grant>, b: nat): map<S.CycleKey, S.Grant> {
    map key <- (set g <- grants | g.benefit == b :: g.key) | Found(grants, b, key) < |grants| :: View(grants[Found(grants, b, key)])
  }

  function View(g: Grant): S.Grant {
    S.Grant(g.cycle, g.scheduled, g.status)
  }

  /** Rows come to be and change as the rest of the application writes them, and the clock moves as far as every live worker allows. */
  lemma RowsAreWritten(e: Engine, v: Event)
    requires Shaped(e)
    ensures v.Subscribe? ==> Apply(e, v) == e.(subscriptions := e.subscriptions + [v.subscription])
    ensures v.Snapshot? && v.benefit.subscription < |e.subscriptions| ==> Apply(e, v) == e.(benefits := e.benefits + [v.benefit])
    ensures v.Reconcile? && v.s < |e.subscriptions| ==>
              Apply(e, v) == e.(subscriptions := e.subscriptions[v.s := Subscription(e.subscriptions[v.s].user, v.status, v.benefits, v.trial, v.grace)])
    ensures v.SetBenefit? && v.b < |e.benefits| ==> Apply(e, v) == e.(benefits := e.benefits[v.b := e.benefits[v.b].(status := v.running, next := v.next)])
    ensures v.OtherMove? && !v.request.key.GrantKey? ==> Apply(e, v) == e.(tables := L.Moved(e.tables, v.request).0)
    ensures v.Tick? && v.to >= e.now && (forall g <- e.grants :: g.worker != Nobody ==> g.startedAt >= v.to - 1800) ==> Apply(e, v) == e.(now := v.to)
    ensures v.Crash? && v.g < |e.grants| ==> Apply(e, v) == e.(grants := e.grants[v.g := e.grants[v.g].(worker := Nobody)])
  {
    hide L.Moved;
  }

  /** A new cycle opens for each benefit of the subscription, with nothing granted in it, and for no other; a transfer opens one for its receiver. */
  lemma CycleTurns(e: Engine, v: Event, b: nat)
    requires Shaped(e) && b < |e.benefits| && (v.NewCycle? || v.HandOver?) && v.s < |e.subscriptions|
    ensures var (after, r) := (Apply(e, v), e.benefits[b]);
            && |after.benefits| == |e.benefits| && |after.subscriptions| == |e.subscriptions|
            && after.benefits[b] == (if r.subscription == v.s then r.(cycle := r.cycle + 1, last := None) else r)
            && after.subscriptions == (if v.HandOver? then e.subscriptions[v.s := e.subscriptions[v.s].(user := v.user)] else e.subscriptions)
            && after.grants == e.grants && after.tables == e.tables
  {
  }

  /** A benefit that does not recur has no date any more once a grant of its running cycle closed, and remembers when. */
  lemma OnceGrantedIsDone(e: Engine, i: nat, moment: S.Slot)
    requires i < |e.grants| && e.grants[i].benefit < |e.benefits|
    ensures var (g, b, after) := (e.grants[i], e.benefits[e.grants[i].benefit], Dated(e, i, moment));
            && |after.benefits| == |e.benefits|
            && (!b.cadence.Recurring? && (g.status == S.Completed || g.status == S.Skipped) && g.cycle == b.cycle && b.status == S.Active ==>
                  after.benefits[g.benefit].next == None && after.benefits[g.benefit].last == Some(moment))
            && (g.status == S.Processing || g.status == S.Failed || g.cycle != b.cycle || b.status != S.Active ==> after == e)
  {
    assert e.benefits[e.grants[i].benefit := e.benefits[e.grants[i].benefit]] == e.benefits;
  }

  /** One cycle by a worker that lives: at most one grant more, and the dates moved past the grant the cycle ended with. */
  ghost predicate RanTo(e: Engine, b: nat, key: S.CycleKey, slot: S.Slot, moment: S.Slot, after: Engine)
    requires b < |e.benefits|
  {
    var i := Found(e.grants, b, key);
    && OneMore(e.grants, after.grants, b, key)
    && (i == |e.grants| ==> after.grants[i].cycle == e.benefits[b].cycle && after.grants[i].scheduled == slot && !after.grants[i].status.Processing?)
    && after.benefits == e.benefits[b := Advanced(e.benefits[b], after.grants[i], moment)]
  }

  /** The first commit of a cycle: a grant met and moved past, one skipped and moved past, or one a worker is on. */
  ghost predicate BegunTo(e: Engine, b: nat, key: S.CycleKey, slot: S.Slot, moment: S.Slot, begun: Engine)
    requires b < |e.benefits|
  {
    var (i, n) := (Found(e.grants, b, key), |e.grants|);
    && OneMore(e.grants, begun.grants, b, key)
    && (i == n ==>
          && begun.grants[n].cycle == e.benefits[b].cycle && begun.grants[n].scheduled == slot
          && (if begun.grants[n].worker.Delivering? then begun.grants[n].status.Processing?
              else begun.grants[n].worker.Nobody? && begun.grants[n].status.Skipped?))
    && begun.benefits == e.benefits[b := Advanced(e.benefits[b], begun.grants[i], moment)]
  }

  lemma CycleBegins(e: Engine, b: nat, key: S.CycleKey, slot: S.Slot, moment: S.Slot)
    requires Shaped(e) && b < |e.benefits| && !e.benefits[b].cadence.OncePerUser?
    ensures BegunTo(e, b, key, slot, moment, Apply(e, RunCycle(b, key, slot, moment)))
  {
    var begun := Apply(e, RunCycle(b, key, slot, moment));
    BeginningDates(e, b, key, slot, moment);
    if Found(e.grants, b, key) < |e.grants| {
      assert Taken(e, b, key) by { assert e.grants[Found(e.grants, b, key)] in e.grants; }
      assert begun.grants == e.grants;
    } else {
      BegunDecides(e, b, key, slot);
      hide Begun, Holds, LetsThrough;
    }
    hide Apply, Advanced;
    BeginningMoves(e, b, key, slot, moment);
  }

  lemma BeginningMoves(e: Engine, b: nat, key: S.CycleKey, slot: S.Slot, moment: S.Slot)
    requires Shaped(e) && b < |e.benefits|
    ensures var (begun, i) := (Apply(e, RunCycle(b, key, slot, moment)), Found(e.grants, b, key));
            i < |begun.grants| && begun.grants[i].benefit == b ==> begun.benefits == e.benefits[b := Advanced(e.benefits[b], begun.grants[i], moment)]
  {
    hide Advanced, Found, AlreadyHeld, KeyHeld, Taken, Allows;
  }

  lemma BegunIsRun(e: Engine, b: nat, key: S.CycleKey, slot: S.Slot, moment: S.Slot, begun: Engine)
    requires b < |e.benefits| && BegunTo(e, b, key, slot, moment, begun)
    requires |e.grants| < |begun.grants| ==> !begun.grants[|e.grants|].worker.Delivering?
    ensures RanTo(e, b, key, slot, moment, begun)
  {
    hide Advanced;
  }

  lemma DeliveredIsRun(e: Engine, b: nat, key: S.CycleKey, slot: S.Slot, moment: S.Slot, begun: Engine, after: Engine)
    requires b < |e.benefits| && BegunTo(e, b, key, slot, moment, begun)
    requires |e.grants| < |begun.grants| && begun.grants[|e.grants|].worker.Delivering? && EndedTo(begun, |e.grants|, moment, after)
    ensures RanTo(e, b, key, slot, moment, after)
  {
    NotAdvanced(e.benefits[b], begun.grants[Found(e.grants, b, key)], moment);
    hide Advanced;
  }

  lemma CycleRunsTo(e: Engine, b: nat, key: S.CycleKey, slot: S.Slot, attempt: Attempt)
    requires Inv(e) && b < |e.benefits| && !e.benefits[b].cadence.OncePerUser?
    ensures RanTo(e, b, key, slot, attempt.moment, CycleRun(e, b, key, slot, attempt))
  {
    var v := RunCycle(b, key, slot, attempt.moment);
    CycleBegins(e, b, key, slot, attempt.moment);
    EventKeepsInv(e, v);
    var (begun, n) := (Apply(e, v), |e.grants|);
    assert n < |begun.grants| ==> begun.grants[n].worker.Delivering? || begun.grants[n].worker.Nobody?;
    assert Shaped(begun);
    hide Inv, Shaped, Apply, BegunTo, RanTo, EndedTo;
    if n < |begun.grants| && begun.grants[n].worker.Delivering? {
      DeliveredThenDated(begun, n, attempt);
      DeliveredIsRun(e, b, key, slot, attempt.moment, begun, CycleRun(e, b, key, slot, attempt));
    } else {
      NothingToDeliver(begun, n, attempt);
      BegunIsRun(e, b, key, slot, attempt.moment, begun);
    }
  }

  lemma NotAdvanced(b: Benefit, g: Grant, moment: S.Slot)
    requires g.status.Processing?
    ensures Advanced(b, g, moment) == b
  {
  }

  /** The rest of a cycle: one grant ended, and its schedule moved past it. */
  ghost predicate EndedTo(e: Engine, i: nat, moment: S.Slot, after: Engine) {
    && i < |e.grants| == |after.grants| && e.grants[i].benefit < |e.benefits|
    && after.grants == e.grants[i := after.grants[i]] && Ends(e.grants[i], after.grants[i])
    && after.benefits == e.benefits[e.grants[i].benefit := Advanced(e.benefits[e.grants[i].benefit], after.grants[i], moment)]
  }

  lemma DeliveredThenDated(e: Engine, i: nat, attempt: Attempt)
    requires Inv(e) && i < |e.grants| && e.grants[i].worker.Delivering?
    ensures Inv(Apply(e, Deliver(i, attempt.raises)))
    ensures EndedTo(e, i, attempt.moment, Apply(Apply(e, Deliver(i, attempt.raises)), Mark(i, attempt.moment)))
  {
    var v := Deliver(i, attempt.raises);
    EventKeepsInv(e, v);
    DeliveryTouchesOne(e, v);
    DeliversOn(e, i, attempt.raises);
    assert Apply(e, v) == Core(e, v) && Shaped(Apply(e, v));
    hide Inv, Shaped, Apply, Core, Advanced;
    MarkedThenDated(Apply(e, v), i, attempt.moment);
  }

  predicate Ends(g: Grant, after: Grant) {
    after.benefit == g.benefit && after.key == g.key && after.cycle == g.cycle && after.scheduled == g.scheduled && !after.status.Processing?
  }

  lemma DeliversOn(e: Engine, i: nat, raises: Raises)
    requires Shaped(e) && i < |e.grants| && e.grants[i].worker.Delivering?
    ensures Core(e, Deliver(i, raises)).grants[i].worker.Delivery?
  {
    hide L.Moved, StillOwed, Allows;
  }

  lemma MarkedThenDated(e: Engine, i: nat, moment: S.Slot)
    requires Shaped(e) && i < |e.grants| && e.grants[i].worker.Delivery?
    ensures EndedTo(e, i, moment, Apply(e, Mark(i, moment)))
  {
    hide Advanced;
  }

  /**
   What the schedule proves of its passes is so of the engine: a cycle of a recurring benefit does to its row and grants what the schedule says
   of a cycle whose grant ends as this one did, and nothing to the schedule of any other benefit.
   */
  lemma CycleRefinesTheSchedule(e: Engine, b: nat, key: S.CycleKey, slot: S.Slot, attempt: Attempt, other: nat)
    requires Inv(e) && b < |e.benefits| && e.benefits[b].cadence.Recurring? && other < |e.benefits|
    ensures var after := CycleRun(e, b, key, slot, attempt);
            var i := Found(e.grants, b, key);
            && |after.benefits| == |e.benefits| && i < |after.grants|
            && BookOf(after, b) == S.RunCycle(BookOf(e, b), key, slot, attempt.moment, after.grants[i].status)
            && (other != b ==> BookOf(after, other) == BookOf(e, other))
  {
    CycleRunsTo(e, b, key, slot, attempt);
    var after := CycleRun(e, b, key, slot, attempt);
    hide Inv, CycleRun, S.Next, GrantsOf, Found, OneMore;
    var i := Found(e.grants, b, key);
    assert i < |after.grants| by { OneMoreIsThere(e.grants, after.grants, b, key); }
    GrantsOfOne(e.grants, after.grants, b, key);
    if other != b {
      GrantsOfOther(e.grants, after.grants, b, key, other);
    }
  }

  /** So a due pass of the engine over a row that owes a slot is the due pass of the schedule, its grant ending as the handler did. */
  lemma DuePassRefinesTheSchedule(e: Engine, b: nat, attempt: Attempt)
    requires Inv(e) && b < |e.benefits| && e.benefits[b].cadence.Recurring? && S.Due(BookOf(e, b), attempt.moment)
    requires S.Resolve(BookOf(e, b).row, attempt.moment).0.Some?
    ensures var slot := S.Resolve(BookOf(e, b).row, attempt.moment).0.value;
            var after := CycleRun(e, b, S.SlotKey(slot), slot, attempt);
            var i := Found(e.grants, b, S.SlotKey(slot));
            && b < |after.benefits| && i < |after.grants|
            && BookOf(after, b) == S.DuePass(BookOf(e, b), attempt.moment, after.grants[i].status)
  {
    var slot := S.Resolve(BookOf(e, b).row, attempt.moment).0.value;
    CycleRefinesTheSchedule(e, b, S.SlotKey(slot), slot, attempt, b);
    hide Inv, CycleRun, BookOf, Found, S.Resolve, S.RunCycle, S.SlotKey;
  }

  lemma {:induction false} FoundFirst(grants: seq<Grant>, g: Grant, b: nat, key: S.CycleKey)
    ensures Found(grants + [g], b, key) == if Found(grants, b, key) < |grants| then Found(grants, b, key)
                                           else if g.benefit == b && g.key == key then |grants| else |grants| + 1
    decreases |grants|
  {
    if grants != [] {
      assert (grants + [g])[1..] == grants[1..] + [g];
      FoundFirst(grants[1..], g, b, key);
    } else {
      assert (grants + [g])[1..] == [];
    }
  }

  lemma GrantsOfHas(grants: seq<Grant>, b: nat, key: S.CycleKey)
    ensures key in GrantsOf(grants, b) <==> Found(grants, b, key) < |grants|
    ensures key in GrantsOf(grants, b) ==> GrantsOf(grants, b)[key] == View(grants[Found(grants, b, key)])
  {
    assert Found(grants, b, key) < |grants| ==> grants[Found(grants, b, key)] in grants;
  }

  /** At most one grant more than there were, and that one under this benefit and key. */
  ghost predicate OneMore(grants: seq<Grant>, after: seq<Grant>, b: nat, key: S.CycleKey) {
    var i := Found(grants, b, key);
    i < |after| && after[i].benefit == b && after[i].key == key && after == (if i < |grants| then grants else grants + [after[i]])
  }

  lemma OneMoreIsThere(grants: seq<Grant>, after: seq<Grant>, b: nat, key: S.CycleKey)
    requires OneMore(grants, after, b, key)
    ensures Found(grants, b, key) < |after|
  {
  }

  lemma FoundAfter(grants: seq<Grant>, after: seq<Grant>, b: nat, key: S.CycleKey, other: nat, k: S.CycleKey)
    requires OneMore(grants, after, b, key)
    ensures other == b && k == key ==> Found(after, other, k) == Found(grants, b, key)
    ensures !(other == b && k == key) ==> (Found(after, other, k) < |after| <==> Found(grants, other, k) < |grants|)
    ensures Found(grants, other, k) < |grants| ==> Found(after, other, k) == Found(grants, other, k) && after[Found(after, other, k)] == grants[Found(grants, other, k)]
  {
    var i := Found(grants, b, key);
    if i == |grants| {
      FoundFirst(grants, after[i], other, k);
    }
    hide Found;
  }

  lemma GrantsOfOne(grants: seq<Grant>, after: seq<Grant>, b: nat, key: S.CycleKey)
    requires OneMore(grants, after, b, key)
    ensures GrantsOf(after, b) == GrantsOf(grants, b)[key := View(after[Found(grants, b, key)])]
    ensures key in GrantsOf(grants, b) ==> GrantsOf(grants, b)[key] == View(after[Found(grants, b, key)])
  {
    hide GrantsOf, Found, View;
    var m := GrantsOf(grants, b)[key := View(after[Found(grants, b, key)])];
    forall k: S.CycleKey ensures (k in GrantsOf(after, b) <==> k in m) && (k in m ==> GrantsOf(after, b)[k] == m[k]) {
      GrantsOfHas(grants, b, k);
      GrantsOfHas(after, b, k);
      FoundAfter(grants, after, b, key, b, k);
    }
    GrantsOfHas(grants, b, key);
  }

  lemma GrantsOfOther(grants: seq<Grant>, after: seq<Grant>, b: nat, key: S.CycleKey, other: nat)
    requires OneMore(grants, after, b, key) && other != b
    ensures GrantsOf(after, other) == GrantsOf(grants, other)
  {
    hide GrantsOf, Found, View;
    var m := GrantsOf(grants, other);
    forall k: S.CycleKey ensures (k in GrantsOf(after, other) <==> k in m) && (k in m ==> GrantsOf(after, other)[k] == m[k]) {
      GrantsOfHas(grants, other, k);
      GrantsOfHas(after, other, k);
      FoundAfter(grants, after, b, key, other, k);
    }
  }

  // ---------------------------------------------------------------- one pass of one worker

  class DeliveryService {
    const credits: L.CreditTransactionService
    const tenants: map<nat, Option<nat>>
    const currencyTenants: map<nat, Option<nat>>
    var now: int
    var subscriptions: seq<Subscription>
    var benefits: seq<Benefit>
    var grants: seq<Grant>

    function Value(): Engine
      reads this, credits
    {
      Engine(now, subscriptions, benefits, grants, credits.Value(), tenants, currencyTenants)
    }

    constructor (credits: L.CreditTransactionService, now: int, subscriptions: seq<Subscription>, benefits: seq<Benefit>,
                 tenants: map<nat, Option<nat>>, currencyTenants: map<nat, Option<nat>>)
      ensures Value() == Engine(now, subscriptions, benefits, [], credits.Value(), tenants, currencyTenants)
      ensures this.credits == credits
    {
      this.credits, this.tenants, this.currencyTenants := credits, tenants, currencyTenants;
      this.now, this.subscriptions, this.benefits := now, subscriptions, benefits;
      grants := [];
    }

    /** The checks under the hold, and the handler of what the benefit is. */
    method RunHandler(i: nat, raises: Raises) returns (outcome: Outcome)
      requires Shaped(Value()) && L.Balanced(credits.Value()) && i < |grants|
      modifies credits
      ensures Write(Value(), i, grants[i].(worker := Delivery(outcome))) == Delivered'(old(Value()), i, raises)
    {
      hide L.Moved, L.Balanced;
      var g := grants[i];
      var b := benefits[g.benefit];
      var s := subscriptions[b.subscription];
      if b.status != S.Active || !Eligible(s) {
        return Dropped;
      }
      if g.cycle != b.cycle {
        return Dropped;
      }
      if !Allows(s, b.kind) {
        return Dropped;
      }
      if raises == Before {
        return Raised;
      }
      if b.kind == Credit {
        var request := L.Request(L.Account(s.user, b.currency), L.Credit, b.quantity, L.GrantKey(g.benefit, g.key), Some(i), None,
                                 if s.user in tenants then tenants[s.user] else None,
                                 if b.currency in currencyTenants then currencyTenants[b.currency] else None);
        assert request == CreditRequest(Value(), i);
        var moved := credits.Move(request);
        if moved.Failure? {
          return Raised;
        }
      }
      return if raises == After then Raised else Delivered;
    }

    /** Moves the schedule past a grant, as its row stands now. */
    method Advance(i: nat, moment: S.Slot)
      requires i < |grants| && grants[i].benefit < |benefits|
      modifies this`benefits
      ensures Value() == Dated(old(Value()), i, moment)
    {
      var g := grants[i];
      if g.status != S.Completed && g.status != S.Skipped {
        return;
      }
      var b := benefits[g.benefit];
      var following := None;
      if b.cadence.Recurring? {
        following := Some(S.Next(g.scheduled, b.interval));
      }
      if b.cycle == g.cycle && b.status == S.Active {
        benefits := benefits[g.benefit := b.(last := Some(moment), next := following)];
      }
    }

    /** Delivers a grant this worker claimed, and commits what came of it with the move of the schedule. */
    method DeliverGrant(i: nat, attempt: Attempt)
      requires Inv(Value()) && i < |grants| && grants[i].worker.Delivering?
      modifies this`grants, this`benefits, credits
      ensures Value() == Apply(Apply(old(Value()), Deliver(i, attempt.raises)), Mark(i, attempt.moment))
    {
      ghost var before := Value();
      EventKeepsInv(before, Deliver(i, attempt.raises));
      var outcome := RunHandler(i, attempt.raises);
      hide Inv, Delivered', Dated;
      ghost var delivered := Apply(before, Deliver(i, attempt.raises));
      assert delivered == Write(Value(), i, grants[i].(worker := Delivery(outcome)));
      var g := grants[i].(worker := Nobody);
      if outcome == Delivered {
        g := g.(status := S.Completed);
      } else if outcome == Dropped || g.attempts >= MAX_ATTEMPTS {
        g := g.(status := S.Skipped, userKey := None);
      } else {
        g := g.(status := S.Failed);
      }
      assert g == Marked(delivered.grants[i]);
      grants := grants[i := g];
      assert Value() == Core(delivered, Mark(i, attempt.moment));
      Advance(i, attempt.moment);
    }

    /** A batch of what failed or was abandoned, each grant dropped, closed, or claimed and delivered again. */
    method RetryFailedGrants(attempts: seq<Attempt>) returns (worked: seq<nat>)
      requires Inv(Value()) && |attempts| == RETRY_BATCH
      modifies this`grants, this`benefits, credits
      ensures Inv(old(Value())) && Value() == RetryPass(old(Value()), attempts)
      ensures Inv(Value()) && Spent(Value()) + |worked| <= Spent(old(Value()))
      ensures worked == Batch(old(now), old(grants), 0, RETRY_BATCH)
    {
      hide Inv, Apply, Spent, Selectable, Handled, HandledAll, Pickable, TouchedOnly;
      ghost var before := Value();
      var ids := Batch(now, grants, 0, RETRY_BATCH);
      BatchIsSelectable(now, grants, 0, RETRY_BATCH);
      PassSpends(before, ids, attempts);
      var n := 0;
      HandledNone(before, attempts);
      assert ids[..0] == [];
      while n < |ids|
        invariant n <= |ids|
        invariant Inv(Value()) && Value() == HandledAll(before, ids[..n], attempts)
        invariant now == before.now
      {
        NextOfPass(before, ids, n, attempts);
        HandleGrant(ids[n], attempts[n]);
        n := n + 1;
      }
      assert ids[..n] == ids;
      worked := ids;
    }

    /** What is no longer owed is dropped, what is out of attempts is closed and moved past, and anything else is claimed and delivered. */
    method HandleGrant(i: nat, attempt: Attempt)
      requires Inv(Value()) && i < |grants| && Selectable(now, grants[i])
      modifies this`grants, this`benefits, credits
      ensures Inv(old(Value())) && Value() == Handled(old(Value()), i, attempt)
    {
      hide Unique, OnceInv, EntryInv, GrantInv, L.Balanced, Delivered', Dated;
      ghost var before := Value();
      EventKeepsInv(before, Pick(i, attempt.moment));
      var g := grants[i];
      var b := benefits[g.benefit];
      if b.status != S.Active || !Eligible(subscriptions[b.subscription]) {
        grants := grants[i := g.(status := S.Skipped, userKey := None, worker := Nobody)];
        assert Value() == Apply(before, Pick(i, attempt.moment));
        NothingToDeliver(Value(), i, attempt);
      } else if g.attempts >= MAX_ATTEMPTS {
        grants := grants[i := g.(status := S.Skipped, userKey := None, worker := Nobody)];
        Advance(i, attempt.moment);
        assert Value() == Apply(before, Pick(i, attempt.moment));
        NothingToDeliver(Value(), i, attempt);
      } else {
        grants := grants[i := g.(status := S.Processing, attempts := g.attempts + 1, startedAt := now, worker := Delivering)];
        assert Value() == Apply(before, Pick(i, attempt.moment));
        DeliverGrant(i, attempt);
      }
    }

    method FindCycle(b: nat, key: S.CycleKey) returns (at: nat)
      ensures at == Found(grants, b, key)
    {
      at := 0;
      while at < |grants|
        invariant at <= |grants|
        invariant Found(grants, b, key) == at + Found(grants[at..], b, key)
      {
        if grants[at].benefit == b && grants[at].key == key {
          return;
        }
        assert grants[at..][1..] == grants[at + 1..];
        at := at + 1;
      }
    }

    /** The grant of a cycle as it is first committed, by whichever of two workers that passed the same read writes it. */
    method BeginCycle(b: nat, key: S.CycleKey, slot: S.Slot) returns (at: nat)
      requires Shaped(Value()) && b < |benefits|
      modifies this`grants
      ensures Value() == Begun(old(Value()), b, key, slot) && at == Found(old(grants), b, key)
    {
      at := FindCycle(b, key);
      if at < |grants| {
        assert Taken(Value(), b, key) by {
          assert grants[at] in grants;
        }
        return;
      }
      assert !Taken(Value(), b, key);
      hide L.Balanced, AlreadyHeld, Allows, Found, Taken;
      var benefit := benefits[b];
      var subscription := subscriptions[benefit.subscription];
      var grant := Grant(b, key, benefit.cycle, slot, S.Processing, None, 1, now, Delivering);
      var userKey := (subscription.user, benefit.catalog);
      if (benefit.cadence.OncePerUser? && AlreadyHeld(Value(), userKey.0, userKey.1)) || !Allows(subscription, benefit.kind) {
        grants := grants + [grant.(status := S.Skipped, worker := Nobody)];
        return;
      }
      if benefit.cadence.OncePerUser? {
        // The unique key settles which of two subscriptions of one person begins it.
        if exists g <- grants :: g.userKey == Some(userKey) {
          return;
        }
        grant := grant.(userKey := Some(userKey));
      }
      grants := grants + [grant];
    }

    /** A cycle run by a worker that lives to the end of it: met again it only moves the schedule, and begun here it is delivered and committed. */
    method RunCycle(b: nat, key: S.CycleKey, slot: S.Slot, attempt: Attempt)
      requires Inv(Value()) && b < |benefits|
      modifies this`grants, this`benefits, credits
      ensures Inv(old(Value())) && Value() == CycleRun(old(Value()), b, key, slot, attempt)
      ensures Inv(Value())
    {
      ghost var before := Value();
      EventKeepsInv(before, Event.RunCycle(b, key, slot, attempt.moment));
      var last := |grants|;
      var at := BeginCycle(b, key, slot);
      hide Inv, Delivered', Begun, Dated;
      assert Value() == Core(before, Event.RunCycle(b, key, slot, attempt.moment));
      if at < |grants| {
        Advance(at, attempt.moment);
      }
      assert Value() == Apply(before, Event.RunCycle(b, key, slot, attempt.moment));
      if last < |grants| && grants[last].worker.Delivering? {
        DeliverGrant(last, attempt);
      } else {
        NothingToDeliver(Value(), last, attempt);
      }
    }
  }
}
