/**
 What one subscription gives access to: the entitlement and benefit rows services/delivery_service.py
 reconciles on every activation, and every other transaction that moves them or what they hang on.
 */
module Entitlements {
  import opened Outcomes
  import S = Schedule
  import D = Delivery

  datatype Access = Granted | Expired

  /** A benefit of the catalog: the entitlement that promises it and how it is paid. */
  datatype CatalogBenefit = CatalogBenefit(entitlement: nat, active: bool, recurring: bool, cadence: S.Cadence, onActivation: bool)

  datatype Catalog = Catalog(plans: map<nat, set<nat>>, benefits: map<nat, CatalogBenefit>)

  /** A benefit row of the subscription, snapshot from the catalog. */
  datatype Benefit = Benefit(entitlement: nat, recurring: bool, cadence: S.Cadence, status: S.BenefitStatus,
                             cycle: nat, last: Option<S.Slot>, next: Option<S.Slot>)

  datatype Rows = Rows(status: D.SubscriptionStatus, benefitStatus: S.BenefitStatus, plan: nat,
                       entitlements: map<nat, Access>, benefits: map<nat, Benefit>)

  predicate Eligible(r: Rows) {
    D.OfEligible(r.status) && r.benefitStatus == S.Active
  }

  function Promised(c: Catalog, plan: nat): set<nat> {
    if plan in c.plans then c.plans[plan] else {}
  }

  /** What the plan promises of the catalog that is still sold. */
  predicate Owes(c: Catalog, plan: nat, b: nat) {
    b in c.benefits && c.benefits[b].active && c.benefits[b].entitlement in Promised(c, plan)
  }

  function Owed(c: Catalog, plan: nat): set<nat> {
    set b <- c.benefits | Owes(c, plan, b)
  }

  // ---------------------------------------------------------------- one activation

  function Came(b: Benefit, anchor: S.Slot, moment: S.Slot): Benefit {
    if b.status == S.Active then b
    else if !b.recurring then b.(status := S.Active)
    else
      var since := if b.last.Some? then S.Next(b.last.value, b.cadence) else anchor;
      b.(status := S.Active, next := Some(S.Landed(since, b.cadence, moment)))
  }

  function Stopped(b: Benefit, to: S.BenefitStatus): Benefit {
    b.(status := to, next := None)
  }

  function New(c: CatalogBenefit, anchor: S.Slot, moment: S.Slot): Benefit {
    Benefit(c.entitlement, c.recurring, c.cadence, S.Active, 0, None,
            if c.recurring then Some(S.Landed(anchor, c.cadence, moment)) else if c.onActivation then Some(anchor) else None)
  }

  function AllExpired(entitlements: map<nat, Access>): map<nat, Access> {
    map e <- entitlements :: Expired
  }

  function Reconciled(entitlements: map<nat, Access>, promised: set<nat>): map<nat, Access> {
    map e <- entitlements.Keys + promised :: if e in promised then Granted else Expired
  }

  /** The row of a promised benefit: the one there is, come back, or a new one. */
  function Kept(c: Catalog, benefits: map<nat, Benefit>, b: nat, anchor: S.Slot, moment: S.Slot): Benefit
    requires b in c.benefits
  {
    if b in benefits then Came(benefits[b], anchor, moment) else New(c.benefits[b], anchor, moment)
  }

  function Snapshots(c: Catalog, benefits: map<nat, Benefit>, owed: set<nat>, anchor: S.Slot, moment: S.Slot): map<nat, Benefit>
    requires owed <= c.benefits.Keys
  {
    map b <- benefits.Keys + owed ::
      if b in owed then Kept(c, benefits, b, anchor, moment) else Stopped(benefits[b], S.Ended)
  }

  lemma SamePromise(c: Catalog, one: map<nat, Benefit>, two: map<nat, Benefit>, b: nat, anchor: S.Slot, moment: S.Slot)
    requires b in c.benefits && (b in one <==> b in two) && (b in one ==> one[b] == two[b])
    ensures Kept(c, one, b, anchor, moment) == Kept(c, two, b, anchor, moment)
  {
  }

  function AllStopped(benefits: map<nat, Benefit>, to: S.BenefitStatus): map<nat, Benefit> {
    map b <- benefits :: Stopped(benefits[b], to)
  }

  /** An ineligible subscription pauses what was running and only that. */
  function Paused(benefits: map<nat, Benefit>): map<nat, Benefit> {
    map b <- benefits :: if benefits[b].status == S.Active then Stopped(benefits[b], S.Paused) else benefits[b]
  }

  function Activated(r: Rows, c: Catalog, anchor: S.Slot, moment: S.Slot): Rows {
    if !Eligible(r) then r.(entitlements := AllExpired(r.entitlements), benefits := Paused(r.benefits))
    else r.(entitlements := Reconciled(r.entitlements, Promised(c, r.plan)),
            benefits := Snapshots(c, r.benefits, Owed(c, r.plan), anchor, moment))
  }

  function Ended(r: Rows): Rows {
    r.(entitlements := AllExpired(r.entitlements), benefits := AllStopped(r.benefits, S.Ended))
  }

  function Turned(benefits: map<nat, Benefit>): map<nat, Benefit> {
    map b <- benefits :: benefits[b].(cycle := benefits[b].cycle + 1, last := None)
  }

  /** What the schedule sees of a recurring row; the policy it pays by is no part of these. */
  function RowOf(b: Benefit, policy: S.Policy): S.Row {
    S.Row(b.cadence, policy, b.status, b.cycle, b.last, b.next)
  }

  /** Coming back is the resume of the schedule for a recurring row, and for another one no more than running again. */
  lemma CameIsResumed(b: Benefit, policy: S.Policy, anchor: S.Slot, moment: S.Slot)
    ensures var after := Came(b, anchor, moment);
            && (b.recurring ==> S.Resumed(RowOf(b, policy), anchor, moment, RowOf(after, policy)))
            && (!b.recurring ==> after == b.(status := S.Active))
            && after.entitlement == b.entitlement && after.recurring == b.recurring && after.cadence == b.cadence
  {
    if b.recurring && b.status != S.Active {
      var since := if b.last.Some? then S.Next(b.last.value, b.cadence) else anchor;
      S.LandedLands(since, b.cadence, moment);
    }
  }

  /** Sold still, and promised by the plan. */
  predicate IsOwed(c: Catalog, plan: nat, b: nat) {
    b in c.benefits && c.benefits[b].active && plan in c.plans && c.benefits[b].entitlement in c.plans[plan]
  }

  /** A row new to the subscription: running, in its first cycle, never granted, dated as its first slot is. */
  ghost predicate StartsAs(sold: CatalogBenefit, anchor: S.Slot, moment: S.Slot, b: Benefit) {
    && b.entitlement == sold.entitlement && b.recurring == sold.recurring && b.cadence == sold.cadence
    && b.status == S.Active && b.cycle == 0 && b.last == None
    && S.FirstDue(sold.recurring, sold.cadence, anchor, sold.onActivation, moment, b.next)
  }

  /** What an activation under an eligible subscription makes of each entitlement and each benefit. */
  lemma EligibleActivation(r: Rows, c: Catalog, anchor: S.Slot, moment: S.Slot, n: nat, b: nat)
    requires (r.status.Trialing? || r.status.Active? || r.status.GracePeriod?) && r.benefitStatus == S.Active
    ensures var (after, promised, owed) := (Activated(r, c, anchor, moment), r.plan in c.plans && n in c.plans[r.plan], IsOwed(c, r.plan, b));
            && (after.status, after.benefitStatus, after.plan) == (r.status, r.benefitStatus, r.plan)
            && (n in after.entitlements <==> n in r.entitlements || promised)
            && (n in after.entitlements ==> (after.entitlements[n] == Granted <==> promised))
            && (b in after.benefits <==> b in r.benefits || owed)
            && (owed && b in r.benefits ==> after.benefits[b] == Came(r.benefits[b], anchor, moment))
            && (owed && b !in r.benefits ==> StartsAs(c.benefits[b], anchor, moment, after.benefits[b]))
            && (!owed && b in r.benefits ==> after.benefits[b] == r.benefits[b].(status := S.Ended, next := None))
  {
    hide S.Landed, Came;
    if IsOwed(c, r.plan, b) && c.benefits[b].recurring {
      S.LandedLands(anchor, c.benefits[b].cadence, moment);
    }
  }

  /** And under one that is not: every entitlement is expired, and a running benefit is paused with no date, one that is not running left as it is. */
  lemma IneligibleActivation(r: Rows, c: Catalog, anchor: S.Slot, moment: S.Slot, n: nat, b: nat)
    requires !((r.status.Trialing? || r.status.Active? || r.status.GracePeriod?) && r.benefitStatus == S.Active)
    ensures var after := Activated(r, c, anchor, moment);
            && (after.status, after.benefitStatus, after.plan) == (r.status, r.benefitStatus, r.plan)
            && (n in after.entitlements <==> n in r.entitlements) && (n in after.entitlements ==> after.entitlements[n] == Expired)
            && (b in after.benefits <==> b in r.benefits)
            && (b in r.benefits ==> after.benefits[b] == if r.benefits[b].status == S.Active then r.benefits[b].(status := S.Paused, next := None) else r.benefits[b])
  {
    hide S.Landed;
  }

  /** What a closing leaves: the status, and everything under it ended. */
  lemma ClosingEnds(r: Rows, to: D.SubscriptionStatus, n: nat, b: nat)
    ensures var after := CloseRows(r, to);
            && (r.status == to ==> after == r)
            && (r.status != to ==>
                  && after.status == to && after.benefitStatus == S.Ended && after.plan == r.plan
                  && (n in after.entitlements <==> n in r.entitlements) && (n in r.entitlements ==> after.entitlements[n] == Expired)
                  && (b in after.benefits <==> b in r.benefits)
                  && (b in r.benefits ==> after.benefits[b] == r.benefits[b].(status := S.Ended, next := None)))
  {
  }

  // ---------------------------------------------------------------- as the service does it

  class SubscriptionRows {
    const catalog: Catalog
    var status: D.SubscriptionStatus
    var benefitStatus: S.BenefitStatus
    var plan: nat
    var entitlements: map<nat, Access>
    var benefits: map<nat, Benefit>

    function Value(): Rows
      reads this
    {
      Rows(status, benefitStatus, plan, entitlements, benefits)
    }

    constructor (catalog: Catalog, r: Rows)
      ensures Value() == r && this.catalog == catalog
    {
      this.catalog := catalog;
      status, benefitStatus, plan, entitlements, benefits := r.status, r.benefitStatus, r.plan, r.entitlements, r.benefits;
    }

    method ExpireEntitlements()
      modifies this`entitlements
      ensures entitlements == AllExpired(old(entitlements))
    {
      var left := entitlements.Keys;
      while left != {}
        invariant left <= entitlements.Keys == old(entitlements).Keys
        invariant forall e <- entitlements :: entitlements[e] == if e in left then old(entitlements)[e] else Expired
      {
        var e :| e in left;
        entitlements := entitlements[e := Expired];
        left := left - {e};
      }
    }

    method EndBenefits()
      modifies this`entitlements, this`benefits
      ensures Value() == Ended(old(Value()))
    {
      EndAll(benefits.Keys);
      ExpireEntitlements();
    }

    method ReconcileEntitlements() returns (promised: set<nat>)
      modifies this`entitlements
      ensures promised == Promised(catalog, plan)
      ensures entitlements == Reconciled(old(entitlements), promised)
    {
      promised := if plan in catalog.plans then catalog.plans[plan] else {};
      var others := entitlements.Keys - promised;
      var left := promised;
      while left != {}
        invariant left <= promised
        invariant entitlements.Keys == old(entitlements).Keys + (promised - left)
        invariant forall e <- entitlements :: entitlements[e] == if e in promised - left then Granted else old(entitlements)[e]
      {
        var e :| e in left;
        entitlements := entitlements[e := Granted];
        left := left - {e};
      }
      while others != {}
        invariant others <= old(entitlements).Keys - promised
        invariant entitlements.Keys == old(entitlements).Keys + promised
        invariant forall e <- entitlements ::
                    entitlements[e] == if e in promised then Granted else if e in others then old(entitlements)[e] else Expired
      {
        var e :| e in others;
        entitlements := entitlements[e := Expired];
        others := others - {e};
      }
    }

    /** A benefit that was running stays as it is, one that was not is dated at its landing. */
    method Resume(b: nat, anchor: S.Slot, moment: S.Slot)
      requires b in benefits
      modifies this`benefits
      ensures benefits == old(benefits)[b := Came(old(benefits)[b], anchor, moment)]
    {
      var row := benefits[b];
      if row.status == S.Active {
        return;
      }
      row := row.(status := S.Active);
      if row.recurring {
        var since := anchor;
        if row.last.Some? {
          since := S.Next(row.last.value, row.cadence);
        }
        var slot := S.Landing(since, row.cadence, moment);
        row := row.(next := Some(slot));
      }
      benefits := benefits[b := row];
    }

    /** What the plan promises is resumed, or written when it is new to the subscription. */
    method Promise(b: nat, anchor: S.Slot, moment: S.Slot)
      requires b in catalog.benefits
      modifies this`benefits
      ensures benefits == old(benefits)[b := Kept(catalog, old(benefits), b, anchor, moment)]
    {
      if b in benefits {
        Resume(b, anchor, moment);
        return;
      }
      var sold := catalog.benefits[b];
      var due := S.FirstSlot(sold.recurring, sold.cadence, anchor, sold.onActivation, moment);
      benefits := benefits[b := Benefit(sold.entitlement, sold.recurring, sold.cadence, S.Active, 0, None, due)];
    }

    method SnapshotBenefits(promised: set<nat>, anchor: S.Slot, moment: S.Slot)
      requires promised == Promised(catalog, plan)
      modifies this`benefits
      ensures benefits == Snapshots(catalog, old(benefits), Owed(catalog, plan), anchor, moment)
    {
      hide Kept;
      var owed := set b <- catalog.benefits | catalog.benefits[b].active && catalog.benefits[b].entitlement in promised;
      assert owed == Owed(catalog, plan);
      ghost var before := benefits;
      var others := benefits.Keys - owed;
      var left := owed;
      while left != {}
        invariant left <= owed && benefits.Keys == before.Keys + (owed - left)
        invariant forall b <- benefits :: benefits[b] == if b in owed - left then Kept(catalog, before, b, anchor, moment) else before[b]
      {
        var b :| b in left;
        assert Kept(catalog, benefits, b, anchor, moment) == Kept(catalog, before, b, anchor, moment) by {
          SamePromise(catalog, benefits, before, b, anchor, moment);
        }
        Promise(b, anchor, moment);
        left := left - {b};
      }
      EndAll(others);
    }

    method EndAll(rows: set<nat>)
      requires rows <= benefits.Keys
      modifies this`benefits
      ensures benefits == map b <- old(benefits) :: if b in rows then Stopped(old(benefits)[b], S.Ended) else old(benefits)[b]
    {
      var left := rows;
      while left != {}
        invariant left <= rows <= benefits.Keys == old(benefits).Keys
        invariant forall b <- benefits :: benefits[b] == if b in rows - left then Stopped(old(benefits)[b], S.Ended) else old(benefits)[b]
      {
        var b :| b in left;
        benefits := benefits[b := benefits[b].(status := S.Ended, next := None)];
        left := left - {b};
      }
    }

    method Activate(anchor: S.Slot, moment: S.Slot)
      modifies this`entitlements, this`benefits
      ensures Value() == Activated(old(Value()), catalog, anchor, moment)
    {
      if !Eligible(Value()) {
        ExpireEntitlements();
        benefits := map b <- benefits :: if benefits[b].status == S.Active then benefits[b].(status := S.Paused, next := None) else benefits[b];
        return;
      }
      var promised := ReconcileEntitlements();
      SnapshotBenefits(promised, anchor, moment);
    }

    /** A closed subscription stays closed, and whatever ran under it ends with it. */
    method Close(to: D.SubscriptionStatus)
      modifies this
      ensures Value() == if old(status) == to then old(Value()) else Ended(old(Value()).(status := to, benefitStatus := S.Ended))
    {
      if status == to {
        return;
      }
      status := to;
      benefitStatus := S.Ended;
      EndBenefits();
    }
  }

  // ---------------------------------------------------------------- every transaction that moves them

  /**
   What commits on a subscription: an activation; a word of the gateway, with or without a new date, and the activation a change brings;
   a closing; the clock; a move to another plan, which may open a cycle; a transfer; a new cycle; an access delivered; a schedule advanced;
   and the date a skipping due pass writes on a row it loaded before.
   */
  datatype Event =
    | Activate(anchor: S.Slot, moment: S.Slot)
    | Word(status: D.SubscriptionStatus, benefitStatus: S.BenefitStatus, dated: bool, anchor: S.Slot, moment: S.Slot)
    | Close(to: D.SubscriptionStatus)
    | Expire
    | Repoint(plan: nat, newCycle: bool)
    | HandOver(status: D.SubscriptionStatus, benefitStatus: S.BenefitStatus, anchor: S.Slot, moment: S.Slot)
    | OpenCycle
    | DeliverAccess(b: nat)
    | Advance(b: nat, cycle: nat, scheduled: S.Slot, moment: S.Slot)
    | SkipWrite(b: nat, following: S.Slot)

  /** The rows, and whether the subscription moved to another plan since it was last activated. */
  datatype Account = Account(rows: Rows, moved: bool)

  function CloseRows(r: Rows, to: D.SubscriptionStatus): Rows {
    if r.status == to then r else Ended(r.(status := to, benefitStatus := S.Ended))
  }

  function AdvanceRow(b: Benefit, cycle: nat, scheduled: S.Slot, moment: S.Slot): Benefit {
    if cycle == b.cycle && b.status == S.Active
    then b.(last := Some(moment), next := if b.recurring then Some(S.Next(scheduled, b.cadence)) else None)
    else b
  }

  function Apply(a: Account, c: Catalog, e: Event): Account {
    var r := a.rows;
    match e
    case Activate(anchor, moment) => Account(Activated(r, c, anchor, moment), false)
    case Word(status, benefitStatus, dated, anchor, moment) =>
      if status == r.status && benefitStatus == r.benefitStatus && !dated then a
      else Account(Activated(r.(status := status, benefitStatus := benefitStatus), c, anchor, moment), false)
    case Close(to) => if to.Expired? || to.Revoked? then a.(rows := CloseRows(r, to)) else a
    case Expire => if D.OfEligible(r.status) then a.(rows := CloseRows(r, D.SubscriptionStatus.Expired)) else a
    case Repoint(plan, newCycle) => Account(r.(plan := plan, benefits := if newCycle then Turned(r.benefits) else r.benefits), true)
    case HandOver(status, benefitStatus, anchor, moment) =>
      var passed := Ended(r).(status := status, benefitStatus := benefitStatus);
      Account(Activated(passed.(benefits := Turned(passed.benefits)), c, anchor, moment), false)
    case OpenCycle => a.(rows := r.(benefits := Turned(r.benefits)))
    case DeliverAccess(b) =>
      if b in r.benefits && r.benefits[b].status == S.Active && Eligible(r)
      then a.(rows := r.(entitlements := r.entitlements[r.benefits[b].entitlement := Granted])) else a
    case Advance(b, cycle, scheduled, moment) =>
      if b in r.benefits then a.(rows := r.(benefits := r.benefits[b := AdvanceRow(r.benefits[b], cycle, scheduled, moment)])) else a
    case SkipWrite(b, following) =>
      if b in r.benefits && r.benefits[b].recurring then a.(rows := r.(benefits := r.benefits[b := r.benefits[b].(next := Some(following))])) else a
  }

  /** The move of a recurring row past a completed grant is the schedule's, and one that does not recur is left with no date. */
  lemma AdvanceIsAdvanced(b: Benefit, policy: S.Policy, cycle: nat, scheduled: S.Slot, moment: S.Slot)
    ensures var after := AdvanceRow(b, cycle, scheduled, moment);
            && (b.recurring ==> RowOf(after, policy) == S.Advanced(RowOf(b, policy), S.Grant(cycle, scheduled, S.Completed), moment))
            && (!b.recurring ==> after == if cycle == b.cycle && b.status == S.Active then b.(last := Some(moment), next := None) else b)
            && after.entitlement == b.entitlement && after.recurring == b.recurring
  {
    hide S.Next;
  }

  /** A row in a cycle of its own: the next one, with nothing granted in it. */
  predicate InNewCycle(before: Benefit, after: Benefit) {
    after.cycle == before.cycle + 1 && after.last == None && after == before.(cycle := after.cycle, last := None)
  }

  /** What each transaction says of the subscription and the cycles under it. */
  lemma EventsSay(a: Account, c: Catalog, e: Event, b: nat)
    ensures var (r, after) := (a.rows, Apply(a, c, e));
            var t := after.rows;
            && (e.Activate? ==> after == Account(Activated(r, c, e.anchor, e.moment), false))
            && (e.Word? ==> t.status == e.status && t.benefitStatus == e.benefitStatus && t.plan == r.plan)
            && (e.Word? && e.status == r.status && e.benefitStatus == r.benefitStatus && !e.dated ==> after == a)
            && (e.Word? && !(e.status == r.status && e.benefitStatus == r.benefitStatus && !e.dated) ==> !after.moved)
            && (e.Close? && (e.to == D.SubscriptionStatus.Expired || e.to == D.SubscriptionStatus.Revoked) ==> t.status == e.to)
            && (e.Close? && !(e.to == D.SubscriptionStatus.Expired || e.to == D.SubscriptionStatus.Revoked) ==> after == a)
            && (e.Expire? && (r.status.Trialing? || r.status.Active? || r.status.GracePeriod?) ==> t.status == D.SubscriptionStatus.Expired && t.benefitStatus == S.Ended)
            && (e.Expire? && !(r.status.Trialing? || r.status.Active? || r.status.GracePeriod?) ==> after == a)
            && (e.Repoint? ==> after.moved && t.plan == e.plan && (t.status, t.benefitStatus, t.entitlements) == (r.status, r.benefitStatus, r.entitlements))
            && (e.Repoint? && !e.newCycle ==> t.benefits == r.benefits)
            && ((e.Repoint? && e.newCycle) || e.OpenCycle? ==> (b in t.benefits <==> b in r.benefits) && (b in r.benefits ==> InNewCycle(r.benefits[b], t.benefits[b])))
            && (e.OpenCycle? ==> t == r.(benefits := t.benefits))
            && (e.HandOver? ==> t.status == e.status && t.benefitStatus == e.benefitStatus && t.plan == r.plan && !after.moved)
            && (e.HandOver? && b in r.benefits ==> b in t.benefits && t.benefits[b].cycle == r.benefits[b].cycle + 1 && t.benefits[b].last == None)
            && (e.Advance? && e.b in r.benefits ==> t == r.(benefits := r.benefits[e.b := AdvanceRow(r.benefits[e.b], e.cycle, e.scheduled, e.moment)]))
            && (e.SkipWrite? && e.b in r.benefits && r.benefits[e.b].recurring ==> t == r.(benefits := r.benefits[e.b := r.benefits[e.b].(next := Some(e.following))]))
            && (e.DeliverAccess? && e.b in r.benefits && r.benefits[e.b].status == S.Active && Eligible(r) ==>
                  t == r.(entitlements := r.entitlements[r.benefits[e.b].entitlement := Granted]))
  {
    hide S.Landed;
  }

  function Run(a: Account, c: Catalog, events: seq<Event>): Account
    decreases |events|
  {
    if events == [] then a else Run(Apply(a, c, events[0]), c, events[1..])
  }

  predicate Has(r: Rows, e: nat) {
    e in r.entitlements && r.entitlements[e] == Granted
  }

  predicate Runs(r: Rows, b: nat) {
    b in r.benefits && r.benefits[b].status == S.Active
  }

  ghost predicate NothingRuns(r: Rows) {
    (forall e: nat :: !Has(r, e)) && forall b: nat :: !Runs(r, b)
  }

  /** What the plan promises and nothing else. */
  ghost predicate Exact(r: Rows, c: Catalog) {
    && (forall e: nat :: Has(r, e) <==> e in Promised(c, r.plan))
    && (forall b: nat :: Runs(r, b) <==> Owes(c, r.plan, b))
  }

  ghost predicate Inv(a: Account, c: Catalog) {
    && (!Eligible(a.rows) ==> NothingRuns(a.rows))
    && (Eligible(a.rows) && !a.moved ==> Exact(a.rows, c))
    && (forall b <- a.rows.benefits :: b in c.benefits && a.rows.benefits[b].entitlement == c.benefits[b].entitlement)
  }

  lemma ActivationIsExact(r: Rows, c: Catalog, anchor: S.Slot, moment: S.Slot)
    requires forall b <- r.benefits :: b in c.benefits && r.benefits[b].entitlement == c.benefits[b].entitlement
    ensures Inv(Account(Activated(r, c, anchor, moment), false), c)
  {
  }

  lemma EventKeepsInv(a: Account, c: Catalog, e: Event)
    requires Inv(a, c)
    ensures Inv(Apply(a, c, e), c)
  {
    hide S.Landed, Activated;
    var r := a.rows;
    match e
    case Activate(anchor, moment) => ActivationIsExact(r, c, anchor, moment);
    case Word(status, benefitStatus, _, anchor, moment) =>
      ActivationIsExact(r.(status := status, benefitStatus := benefitStatus), c, anchor, moment);
    case HandOver(status, benefitStatus, anchor, moment) =>
      var passed := Ended(r).(status := status, benefitStatus := benefitStatus);
      ActivationIsExact(passed.(benefits := Turned(passed.benefits)), c, anchor, moment);
    case DeliverAccess(b) => DeliveryKeepsInv(a, c, b);
    case _ =>
      RowWritesKeepInv(a, c, e);
  }

  /** Delivering access gives back an entitlement only where the plan still promises it. */
  lemma DeliveryKeepsInv(a: Account, c: Catalog, b: nat)
    requires Inv(a, c)
    ensures Inv(Apply(a, c, DeliverAccess(b)), c)
  {
    var after := Apply(a, c, DeliverAccess(b));
    if after != a {
      assert Runs(a.rows, b);
      forall n: nat ensures Runs(after.rows, n) <==> Runs(a.rows, n) {}
      if !a.moved {
        assert Owes(c, a.rows.plan, b);
        forall e: nat ensures Has(after.rows, e) <==> e in Promised(c, a.rows.plan) {
          assert Has(a.rows, e) <==> e in Promised(c, a.rows.plan);
        }
      }
    }
  }

  lemma RowWritesKeepInv(a: Account, c: Catalog, e: Event)
    requires Inv(a, c)
    requires e.Close? || e.Expire? || e.Repoint? || e.OpenCycle? || e.Advance? || e.SkipWrite?
    ensures Inv(Apply(a, c, e), c)
  {
    var after := Apply(a, c, e);
    if e.Close? || e.Expire? {
    } else {
      forall b: nat ensures Runs(after.rows, b) <==> Runs(a.rows, b) {}
      forall n: nat ensures Has(after.rows, n) <==> Has(a.rows, n) {}
    }
  }

  lemma {:induction false} RunKeepsInv(a: Account, c: Catalog, events: seq<Event>)
    requires Inv(a, c)
    ensures Inv(Run(a, c, events), c)
    decreases |events|
  {
    hide Inv, Apply;
    if events != [] {
      EventKeepsInv(a, c, events[0]);
      RunKeepsInv(Apply(a, c, events[0]), c, events[1..]);
    }
  }

  /** A subscription just written: waiting, with nothing under it. */
  predicate Fresh(a: Account) {
    a.rows.status.Pending? && a.rows.entitlements == map[] && a.rows.benefits == map[]
  }

  /**
   From a fresh subscription on, in every order of activations, words, closings, plan moves, transfers, cycles and deliveries: nothing is open
   under a subscription that is not eligible, and one that is, and did not move since its last activation, holds exactly what its plan promises.
   */
  lemma EveryRunGivesWhatIsOwed(a: Account, c: Catalog, events: seq<Event>)
    requires Fresh(a)
    ensures var after := Run(a, c, events);
            var r := after.rows;
            if (r.status.Trialing? || r.status.Active? || r.status.GracePeriod?) && r.benefitStatus == S.Active then
              !after.moved ==>
                && (forall n: nat :: Has(r, n) <==> r.plan in c.plans && n in c.plans[r.plan])
                && (forall b: nat :: Runs(r, b) <==> IsOwed(c, r.plan, b))
            else NothingRuns(r)
  {
    RunKeepsInv(a, c, events);
  }

  // ---------------------------------------------------------------- dates

  /** A benefit that is not running carries no date. */
  ghost predicate Dated(r: Rows) {
    forall b <- r.benefits :: r.benefits[b].status != S.Active ==> r.benefits[b].next.None?
  }

  /** The date a skipping pass writes on a row that stopped since the pass loaded it. */
  predicate LateSkip(a: Account, e: Event) {
    e.SkipWrite? && e.b in a.rows.benefits && a.rows.benefits[e.b].recurring && a.rows.benefits[e.b].status != S.Active
  }

  /** Every transaction keeps that but one, and after that one it never holds. */
  lemma DatesFailExactlyUnderALateSkip(a: Account, c: Catalog, e: Event)
    requires Dated(a.rows)
    ensures Dated(Apply(a, c, e).rows) <==> !LateSkip(a, e)
  {
    hide S.Landed;
    var after := Apply(a, c, e).rows;
    if LateSkip(a, e) {
      assert after.benefits[e.b].next.Some?;
    } else if e.HandOver? {
      assert Dated(after);
    } else {
      assert Dated(after);
    }
  }

  predicate NoLateSkip(a: Account, c: Catalog, events: seq<Event>)
    decreases |events|
  {
    events != [] ==> !LateSkip(a, events[0]) && NoLateSkip(Apply(a, c, events[0]), c, events[1..])
  }

  lemma {:induction false} RunKeepsDates(a: Account, c: Catalog, events: seq<Event>)
    requires Dated(a.rows) && NoLateSkip(a, c, events)
    ensures Dated(Run(a, c, events).rows)
    decreases |events|
  {
    hide Dated, Apply, LateSkip;
    if events != [] {
      DatesFailExactlyUnderALateSkip(a, c, events[0]);
      RunKeepsDates(Apply(a, c, events[0]), c, events[1..]);
    }
  }

  /** So over every run of a fresh subscription in which no skip came late, a benefit that is not running has no date. */
  lemma EveryRunIsDated(a: Account, c: Catalog, events: seq<Event>)
    requires Fresh(a) && NoLateSkip(a, c, events)
    ensures Dated(Run(a, c, events).rows)
  {
    RunKeepsDates(a, c, events);
  }

  /** Such a date is never resumed from: coming back reads the last grant or the anchor, and an eligible activation leaves no date on a row it ends. */
  lemma LateDateIsForgotten(r: Rows, c: Catalog, b: nat, late: S.Slot, anchor: S.Slot, moment: S.Slot)
    requires b in r.benefits && r.benefits[b].recurring && r.benefits[b].status != S.Active && Eligible(r)
    ensures var written := r.(benefits := r.benefits[b := r.benefits[b].(next := Some(late))]);
            && Activated(written, c, anchor, moment) == Activated(r, c, anchor, moment)
            && Dated(Activated(written, c, anchor, moment))
  {
    hide S.Landed;
    var written := r.(benefits := r.benefits[b := r.benefits[b].(next := Some(late))]);
    assert written.benefits.Keys == r.benefits.Keys;
    assert Activated(written, c, anchor, moment).benefits == Activated(r, c, anchor, moment).benefits;
  }
}
