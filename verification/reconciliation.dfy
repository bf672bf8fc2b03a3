/**
 What a gateway said about the purchases of one account, settled on the subscription rows of one
 integration by services/reconciliation_service.py: out of order, replayed, and sometimes complete.
 */
module Reconciliation {
  import opened Outcomes
  import S = Schedule
  import D = Delivery

  /** A purchase as one word of a gateway describes it. */
  datatype Purchase = Purchase(externalId: Option<nat>, product: nat, status: Option<D.SubscriptionStatus>, trial: bool, periodEnds: Option<int>,
                               graceEnds: Option<int>, autoResume: Option<int>, unsubscribed: Option<int>, refunded: Option<int>)

  datatype Row = Row(user: nat, product: Option<nat>, plan: nat, externalId: Option<nat>, status: D.SubscriptionStatus, benefitStatus: S.BenefitStatus,
                     accessUntil: Option<int>, graceUntil: Option<int>, cancels: bool, expiredAt: Option<int>, statedAt: Option<int>)

  predicate OfClosed(status: D.SubscriptionStatus) {
    status.Expired? || status.Revoked?
  }

  function Or<T>(a: Option<T>, b: Option<T>): Option<T> {
    if a.Some? then a else b
  }

  /** The status a word stands for: the named one, or else the first of suspended, grace and trial its fields call for. */
  function StatusOf(p: Purchase): D.SubscriptionStatus {
    if p.status.Some? then p.status.value
    else if p.autoResume.Some? then D.Suspended
    else if p.graceEnds.Some? then D.GracePeriod
    else if p.trial then D.Trialing
    else D.SubscriptionStatus.Active
  }

  predicate Over(p: Purchase, now: int) {
    if p.status.Some? then OfClosed(p.status.value)
    else
      var deadline := Or(p.graceEnds, p.periodEnds);
      deadline.Some? && deadline.value <= now
  }

  function Carry(r: Row, p: Purchase): Row {
    r.(status := StatusOf(p),
       benefitStatus := if p.autoResume.Some? then S.Paused else S.Active,
       accessUntil := Or(p.graceEnds, p.periodEnds),
       graceUntil := p.graceEnds,
       cancels := p.unsubscribed.Some?,
       expiredAt := None)
  }

  function Snapshot(r: Row): (D.SubscriptionStatus, S.BenefitStatus, Option<int>, Option<int>, bool) {
    (r.status, r.benefitStatus, r.accessUntil, r.graceUntil, r.cancels)
  }

  /** The row ended with a status, where one that has the status is left as it is. */
  function CloseRow(r: Row, status: D.SubscriptionStatus, now: int): Row {
    if r.status == status then r
    else r.(status := status, expiredAt := Some(now), accessUntil := Some(now), benefitStatus := S.Ended)
  }

  /** Whether a row takes a word: one without a stamp always, one with a stamp when the row's own is not greater. */
  predicate Heeds(r: Row, stated: Option<int>) {
    stated.None? || r.statedAt.None? || r.statedAt.value <= stated.value
  }

  function Stamped(r: Row, stated: Option<int>): Row {
    if stated.Some? then r.(statedAt := stated) else r
  }

  /** What a word makes of the row that takes it: a refund revokes it, a period over ends it, and anything else is carried. */
  function Aligned(r: Row, p: Purchase, now: int): Row {
    if p.refunded.Some? then CloseRow(r, D.Revoked, now)
    else if Over(p, now) then CloseRow(r, D.Expired, now)
    else Carry(r, p)
  }

  /** What a word says of a row is the same whichever product the row was moved to. */
  lemma AlignedKeepsProduct(r: Row, p: Purchase, now: int, product: Option<nat>, plan: nat)
    ensures Aligned(r.(product := product, plan := plan), p, now) == Aligned(r, p, now).(product := product, plan := plan)
    ensures Aligned(r, p, now).user == r.user
  {
  }

  /** A word about the very purchase a row carries, heard by it. */
  function Heard(r: Row, p: Purchase, stated: Option<int>, now: int): Row {
    if !Heeds(r, stated) then r
    else
      var held := Stamped(r, stated);
      if StatusOf(p).Pending? && !r.status.Pending? then held
      else Aligned(held, p, now)
  }

  /** The end of what a word reports is there and reached: the grace it names, or else the period. */
  predicate Past(p: Purchase, now: int) {
    (p.graceEnds.Some? && p.graceEnds.value <= now) || (p.graceEnds.None? && p.periodEnds.Some? && p.periodEnds.value <= now)
  }

  /** A row a word closed: as it was where it had the status already, and otherwise ended at the moment with its dates and its benefits. */
  predicate ClosedAs(r: Row, status: D.SubscriptionStatus, now: int, after: Row) {
    if r.status == status then after == r
    else after == Row(r.user, r.product, r.plan, r.externalId, status, S.Ended, Some(now), r.graceUntil, r.cancels, Some(now), r.statedAt)
  }

  /** The status a word has for a row it does not close: the one it names, or else the first of these its fields call for. */
  predicate IsStatusOf(p: Purchase, status: D.SubscriptionStatus) {
    match p.status
    case Some(named) => status == named
    case None =>
      && (p.autoResume != None ==> status == D.Suspended)
      && (p.autoResume == None && p.graceEnds != None ==> status == D.GracePeriod)
      && (p.autoResume == None && p.graceEnds == None && p.trial ==> status == D.Trialing)
      && (p.autoResume == None && p.graceEnds == None && !p.trial ==> status == D.SubscriptionStatus.Active)
  }

  predicate CarriedAs(r: Row, p: Purchase, after: Row) {
    && IsStatusOf(p, after.status)
    && after.benefitStatus == (if p.autoResume != None then S.Paused else S.Active)
    && after.accessUntil == (if p.graceEnds != None then p.graceEnds else p.periodEnds)
    && after.graceUntil == p.graceEnds && after.cancels == (p.unsubscribed != None) && after.expiredAt == None
    && (after.user, after.product, after.plan, after.externalId, after.statedAt) == (r.user, r.product, r.plan, r.externalId, r.statedAt)
  }

  /**
   What a word makes of a row, read off its fields: a refund closes it as revoked, a named closing status or an end that is reached closes it as
   expired, and anything else leaves the status, the dates and the flags of the word.
   */
  lemma WordLeaves(r: Row, p: Purchase, now: int)
    ensures var after := Aligned(r, p, now);
            && (p.refunded != None ==> ClosedAs(r, D.Revoked, now, after))
            && (p.refunded == None && p.status != None ==>
                  if p.status.value.Expired? || p.status.value.Revoked? then ClosedAs(r, D.Expired, now, after) else CarriedAs(r, p, after))
            && (p.refunded == None && p.status == None ==> if Past(p, now) then ClosedAs(r, D.Expired, now, after) else CarriedAs(r, p, after))
  {
  }

  /** And when it is heard: unless the row's stamp is greater, or the word waits and the row does not; the stamp is taken in either of the last two cases. */
  lemma WordIsHeard(r: Row, p: Purchase, stated: Option<int>, now: int)
    ensures var (after, newer) := (Heard(r, p, stated, now), stated != None && r.statedAt != None && r.statedAt.value > stated.value);
            var held := if stated == None then r else r.(statedAt := stated);
            && (newer ==> after == r)
            && (!newer && p.status == Some(D.SubscriptionStatus.Pending) && r.status != D.SubscriptionStatus.Pending ==> after == held)
            && (!newer && !(p.status == Some(D.SubscriptionStatus.Pending) && r.status != D.SubscriptionStatus.Pending) ==> after == Aligned(held, p, now))
  {
  }

  /** A new row ignores exactly the purchases a row would be closed by without a refund: a named closing status, or an end that is reached. */
  lemma IsOver(p: Purchase, now: int)
    ensures Over(p, now) <==> if p.status == None then Past(p, now) else p.status.value.Expired? || p.status.value.Revoked?
  {
  }

  // ---------------------------------------------------------------- words out of order

  datatype Word = Word(purchase: Purchase, stated: int)

  function HearAll(r: Row, words: seq<Word>, nows: seq<int>): Row
    requires |nows| == |words|
  {
    if words == [] then r
    else
      var n := |words| - 1;
      Heard(HearAll(r, words[..n], nows[..n]), words[n].purchase, Some(words[n].stated), nows[n])
  }

  /** A word that names its state, and a state past waiting. */
  predicate Naming(w: Word) {
    w.purchase.status.Some? && !w.purchase.status.value.Pending?
  }

  predicate Closing(p: Purchase) {
    p.refunded.Some? || (p.status.Some? && OfClosed(p.status.value))
  }

  /** The states a word leaves, whatever it met. */
  function Says(p: Purchase): (D.SubscriptionStatus, S.BenefitStatus) {
    if p.refunded.Some? then (D.Revoked, S.Ended)
    else if Closing(p) then (D.Expired, S.Ended)
    else (StatusOf(p), if p.autoResume.Some? then S.Paused else S.Active)
  }

  function SaysWhole(p: Purchase): (D.SubscriptionStatus, S.BenefitStatus, Option<int>, Option<int>, bool) {
    (Says(p).0, Says(p).1, Or(p.graceEnds, p.periodEnds), p.graceEnds, p.unsubscribed.Some?)
  }

  function States(r: Row): (D.SubscriptionStatus, S.BenefitStatus) {
    (r.status, r.benefitStatus)
  }

  /** A row a close wrote is ended with it. */
  predicate ClosedIsEnded(r: Row) {
    OfClosed(r.status) ==> r.benefitStatus == S.Ended
  }

  /** A stamp names one word, however often it is delivered. */
  ghost predicate OneWordPerStamp(words: seq<Word>) {
    forall v, w :: v in words && w in words && v.stated == w.stated ==> v == w
  }

  predicate Reaches(r: Row, w: Word) {
    r.statedAt.None? || r.statedAt.value <= w.stated
  }

  /** The greatest stamp at or above the row's own. */
  ghost predicate IsLast(r: Row, words: seq<Word>, w: Word) {
    w in words && Reaches(r, w) && forall v <- words :: v.stated <= w.stated
  }

  /** The row is where the last word puts it, stamp included. */
  predicate PutBy(after: Row, w: Word) {
    && after.statedAt == Some(w.stated)
    && States(after) == Says(w.purchase)
    && (!Closing(w.purchase) ==> Snapshot(after) == SaysWhole(w.purchase))
  }

  /** What any words do to a row: nothing where none reaches it, and the last one its own thing where it names its state. */
  ghost predicate Settles(r: Row, words: seq<Word>, after: Row) {
    && ClosedIsEnded(after)
    && ((forall w <- words :: !Reaches(r, w)) ==> after == r)
    && (forall w <- words :: IsLast(r, words, w) ==> after.statedAt == Some(w.stated) && (Naming(w) ==> PutBy(after, w)))
  }

  lemma HeardSays(r: Row, w: Word, now: int)
    requires ClosedIsEnded(r)
    ensures var after := Heard(r, w.purchase, Some(w.stated), now);
            && ClosedIsEnded(after)
            && (if Reaches(r, w) then after.statedAt == Some(w.stated) && (Naming(w) ==> PutBy(after, w)) else after == r)
  {
  }

  /** The greatest of several stamps exists, once one of them reaches the row. */
  lemma {:induction false} SomeLast(r: Row, words: seq<Word>) returns (last: Word)
    requires exists w <- words :: Reaches(r, w)
    ensures IsLast(r, words, last)
    decreases |words|
  {
    var n := |words| - 1;
    assert words == words[..n] + [words[n]];
    if exists w <- words[..n] :: Reaches(r, w) {
      last := SomeLast(r, words[..n]);
      if last.stated <= words[n].stated {
        last := words[n];
      }
    } else {
      last := words[n];
    }
  }

  /** One more word on top of a row that the words before it already settled. */
  lemma OneMoreWord(r: Row, words: seq<Word>, before: Row, w: Word, now: int)
    requires ClosedIsEnded(r) && OneWordPerStamp(words + [w]) && Settles(r, words, before)
    ensures Settles(r, words + [w], Heard(before, w.purchase, Some(w.stated), now))
  {
    HeardSays(before, w, now);
    hide Heard, PutBy, Naming;
    var all := words + [w];
    assert forall v: Word :: v in all <==> v in words || v == w;
    if exists v <- words :: Reaches(r, v) {
      var last := SomeLast(r, words);
      assert before.statedAt == Some(last.stated);
      assert last in all && w in all;
      forall v <- all | IsLast(r, all, v) ensures v == if last.stated <= w.stated then w else last {
      }
    } else {
      assert before == r;
    }
  }

  /** However the words of one purchase arrive, and whatever else is among them, the row ends where the one of the greatest stamp puts it when that one names its state. */
  lemma {:induction false} LastWordDecides(r: Row, words: seq<Word>, nows: seq<int>)
    requires |nows| == |words| && ClosedIsEnded(r) && OneWordPerStamp(words)
    ensures Settles(r, words, HearAll(r, words, nows))
    decreases |words|
  {
    hide Heard, Settles;
    if words == [] {
      NoWordSettles(r);
    } else {
      var n := |words| - 1;
      assert words == words[..n] + [words[n]];
      LastWordDecides(r, words[..n], nows[..n]);
      OneMoreWord(r, words[..n], HearAll(r, words[..n], nows[..n]), words[n], nows[n]);
    }
  }

  lemma NoWordSettles(r: Row)
    requires ClosedIsEnded(r)
    ensures Settles(r, [], r)
  {
  }

  /** The same words in some order, each of them any number of times. */
  ghost predicate Delivers(words: seq<Word>, others: seq<Word>) {
    forall w: Word :: w in words <==> w in others
  }

  /** So any two deliveries agree on it when their last word names its state, and on the stamp always. */
  lemma OrderDoesNotMatter(r: Row, words: seq<Word>, nows: seq<int>, others: seq<Word>, moments: seq<int>)
    requires |nows| == |words| && |moments| == |others| && ClosedIsEnded(r)
    requires OneWordPerStamp(words) && Delivers(words, others)
    ensures var one, two := HearAll(r, words, nows), HearAll(r, others, moments);
            && one.statedAt == two.statedAt
            && ((forall w <- words :: IsLast(r, words, w) ==> Naming(w)) ==>
                  States(one) == States(two) && (one.benefitStatus != S.Ended ==> Snapshot(one) == Snapshot(two)))
  {
    LastWordDecides(r, words, nows);
    LastWordDecides(r, others, moments);
    hide HearAll;
    if exists w <- words :: Reaches(r, w) {
      var last := SomeLast(r, words);
      assert IsLast(r, others, last);
    } else {
      assert forall w <- others :: !Reaches(r, w);
    }
  }

  /** A word never takes the stamp back, heard or not. */
  lemma {:induction false} StampNeverFalls(r: Row, words: seq<Word>, nows: seq<int>)
    requires |nows| == |words|
    ensures r.statedAt.Some? ==> HearAll(r, words, nows).statedAt.Some? && HearAll(r, words, nows).statedAt.value >= r.statedAt.value
    decreases |words|
  {
    if words != [] {
      StampNeverFalls(r, words[..|words| - 1], nows[..|words| - 1]);
    }
  }

  /** Words that close a row the way it is closed move its stamp and nothing else, the date it expired on included. */
  lemma {:induction false} ClosedAgainIsNoChange(r: Row, words: seq<Word>, nows: seq<int>)
    requires |nows| == |words| && OfClosed(r.status)
    requires forall w <- words :: Naming(w) && Closing(w.purchase) && Says(w.purchase).0 == r.status
    ensures var after := HearAll(r, words, nows); after == r.(statedAt := after.statedAt)
    decreases |words|
  {
    if words != [] {
      var n := |words| - 1;
      ClosedAgainIsNoChange(r, words[..n], nows[..n]);
      assert words[n] in words;
    }
  }

  // ---------------------------------------------------------------- words that wait

  /** Every word names a state, waiting or past it. */
  ghost predicate AllNamed(words: seq<Word>) {
    forall w <- words :: w.purchase.status.Some?
  }

  /** A word that moves a row like this one: a naming one, or the refund of a payment the row still waits for. */
  predicate Decisive(r: Row, w: Word) {
    Naming(w) || (r.status.Pending? && w.purchase.refunded.Some?)
  }

  /** Where a last word that waits leaves a row it is the first to reach. */
  function Rests(r: Row, last: Word): (D.SubscriptionStatus, S.BenefitStatus) {
    if r.status.Pending? then Says(last.purchase) else States(r)
  }

  /** The last word names its state, or no word that reaches the row says anything else than it already rests at. */
  ghost predicate OrderIsNothing(r: Row, words: seq<Word>, last: Word) {
    Naming(last) || forall v <- words :: Reaches(r, v) && Decisive(r, v) ==> Says(v.purchase) == Rests(r, last)
  }

  /** Every two deliveries of the words, at any moments, leave the row in the same states. */
  ghost predicate Agree(r: Row, words: seq<Word>) {
    forall one, two, nows, moments ::
      Delivers(words, one) && Delivers(words, two) && |nows| == |one| && |moments| == |two| ==>
        States(HearAll(r, one, nows)) == States(HearAll(r, two, moments))
  }

  /** On the way to a resting place: there already, or waiting for the last word. */
  ghost predicate OnTheWay(r: Row, last: Word, heard: seq<Word>, x: Row) {
    && ClosedIsEnded(x)
    && (r.statedAt.Some? ==> x.statedAt.Some? && x.statedAt.value >= r.statedAt.value)
    && (x.statedAt == r.statedAt || (x.statedAt.Some? && x.statedAt.value <= last.stated))
    && (last in heard ==> x.statedAt == Some(last.stated))
    && (States(x) == Rests(r, last) || (r.status.Pending? && x.status.Pending? && last !in heard))
  }

  lemma RestingIsKept(r: Row, words: seq<Word>, last: Word, heard: seq<Word>, x: Row, w: Word, now: int)
    requires ClosedIsEnded(r) && OneWordPerStamp(words) && IsLast(r, words, last) && w in words && w.purchase.status.Some?
    requires !Naming(last) && OrderIsNothing(r, words, last) && OnTheWay(r, last, heard, x)
    ensures OnTheWay(r, last, heard + [w], Heard(x, w.purchase, Some(w.stated), now))
  {
    assert Reaches(x, w) ==> Reaches(r, w);
    assert w.stated == last.stated ==> w == last;
  }

  lemma {:induction false} AllComeToRest(r: Row, words: seq<Word>, last: Word, heard: seq<Word>, nows: seq<int>)
    requires |nows| == |heard| && ClosedIsEnded(r) && OneWordPerStamp(words) && IsLast(r, words, last) && AllNamed(words)
    requires !Naming(last) && OrderIsNothing(r, words, last) && forall w <- heard :: w in words
    ensures OnTheWay(r, last, heard, HearAll(r, heard, nows))
    decreases |heard|
  {
    hide Heard, OrderIsNothing, OneWordPerStamp, IsLast, OnTheWay;
    if heard == [] {
      assert OnTheWay(r, last, [], r) by { NothingHeard(r, last); }
    } else {
      var n := |heard| - 1;
      AllComeToRest(r, words, last, heard[..n], nows[..n]);
      RestingIsKept(r, words, last, heard[..n], HearAll(r, heard[..n], nows[..n]), heard[n], nows[n]);
      assert heard == heard[..n] + [heard[n]];
    }
  }

  lemma NothingHeard(r: Row, last: Word)
    requires ClosedIsEnded(r)
    ensures OnTheWay(r, last, [], r)
  {
  }

  /** After the word of the greatest stamp that waits, nothing moves a row that is past waiting, and only itself one that is not. */
  lemma {:induction false} NothingAfterLast(x: Row, words: seq<Word>, last: Word, heard: seq<Word>, nows: seq<int>)
    requires |nows| == |heard| && OneWordPerStamp(words) && last in words && (forall v <- words :: v.stated <= last.stated)
    requires (forall w <- heard :: w in words) && x.statedAt == Some(last.stated)
    requires last.purchase.status == Some(D.SubscriptionStatus.Pending) && (x.status.Pending? ==> States(x) == Says(last.purchase))
    ensures var y := HearAll(x, heard, nows);
            y.statedAt == x.statedAt && States(y) == States(x)
    decreases |heard|
  {
    if heard != [] {
      var n := |heard| - 1;
      NothingAfterLast(x, words, last, heard[..n], nows[..n]);
      assert heard[n].stated == last.stated ==> heard[n] == last;
    }
  }

  lemma HearOneMore(r: Row, words: seq<Word>, w: Word, nows: seq<int>, now: int)
    requires |nows| == |words|
    ensures HearAll(r, words + [w], nows + [now]) == Heard(HearAll(r, words, nows), w.purchase, Some(w.stated), now)
  {
    assert (words + [w])[..|words|] == words && (nows + [now])[..|nows|] == nows;
  }

  lemma {:induction false} HearThenHear(r: Row, first: seq<Word>, rest: seq<Word>, nows: seq<int>, moments: seq<int>)
    requires |nows| == |first| && |moments| == |rest|
    ensures HearAll(r, first + rest, nows + moments) == HearAll(HearAll(r, first, nows), rest, moments)
    decreases |rest|
  {
    hide Heard;
    if rest == [] {
      assert first + rest == first && nows + moments == nows;
    } else {
      var n := |rest| - 1;
      var (words, times) := (first + rest[..n], nows + moments[..n]);
      HearThenHear(r, first, rest[..n], nows, moments[..n]);
      assert rest == rest[..n] + [rest[n]] && moments == moments[..n] + [moments[n]];
      assert first + rest == words + [rest[n]] && nows + moments == times + [moments[n]];
      HearOneMore(r, words, rest[n], times, moments[n]);
      HearOneMore(HearAll(r, first, nows), rest[..n], rest[n], moments[..n], moments[n]);
      hide HearAll;
    }
  }

  /** A last word that waits, heard first: the row rests. A decisive word heard before it: the row is where that one puts it. */
  lemma TwoOrders(r: Row, words: seq<Word>, nows: seq<int>, last: Word, v: Word)
    requires |nows| == |words| && ClosedIsEnded(r) && OneWordPerStamp(words) && IsLast(r, words, last) && AllNamed(words) && !Naming(last)
    requires v in words && Reaches(r, v) && Decisive(r, v) && Says(v.purchase) != Rests(r, last)
    ensures States(HearAll(r, [last] + words, [0] + nows)) == Rests(r, last)
    ensures States(HearAll(r, [v, last] + words, [0, 0] + nows)) == Says(v.purchase)
  {
    var one := Heard(r, last.purchase, Some(last.stated), 0);
    var two := Heard(r, v.purchase, Some(v.stated), 0);
    var three := Heard(two, last.purchase, Some(last.stated), 0);
    HearAFew(r, last, v);
    assert States(one) == Rests(r, last) && one.statedAt == Some(last.stated);
    assert v != last && States(two) == Says(v.purchase) && two.statedAt == Some(v.stated);
    assert States(three) == States(two) && three.statedAt == Some(last.stated) && !three.status.Pending?;
    hide Heard;
    HearThenHear(r, [last], words, [0], nows);
    NothingAfterLast(one, words, last, words, nows);
    HearThenHear(r, [v, last], words, [0, 0], nows);
    NothingAfterLast(three, words, last, words, nows);
  }

  lemma HearAFew(r: Row, last: Word, v: Word)
    ensures HearAll(r, [last], [0]) == Heard(r, last.purchase, Some(last.stated), 0)
    ensures HearAll(r, [v, last], [0, 0]) == Heard(Heard(r, v.purchase, Some(v.stated), 0), last.purchase, Some(last.stated), 0)
  {
    HearOneMore(r, [], last, [], 0);
    HearOneMore(r, [], v, [], 0);
    HearOneMore(r, [v], last, [0], 0);
    assert [] + [last] == [last] && [] + [v] == [v] && [v] + [last] == [v, last];
    assert [] + [0] == [0] && [0] + [0] == [0, 0];
  }

  /**
   Order is nothing exactly when the last word that reaches the row names its state, or when it waits and no other word that reaches it and could
   move it says anything else than the row rests at: then every delivery ends in the same states, and otherwise two of them do not.
   */
  lemma OrderMattersExactlyWhen(r: Row, words: seq<Word>, last: Word)
    requires ClosedIsEnded(r) && OneWordPerStamp(words) && AllNamed(words) && IsLast(r, words, last)
    ensures Agree(r, words) <==> OrderIsNothing(r, words, last)
  {
    if OrderIsNothing(r, words, last) {
      forall one, two, nows, moments | Delivers(words, one) && Delivers(words, two) && |nows| == |one| && |moments| == |two|
        ensures States(HearAll(r, one, nows)) == States(HearAll(r, two, moments))
      {
        SameEnd(r, words, last, one, nows);
        SameEnd(r, words, last, two, moments);
      }
    } else {
      var v :| v in words && Reaches(r, v) && Decisive(r, v) && Says(v.purchase) != Rests(r, last);
      var nows := seq(|words|, i => 0);
      TwoOrders(r, words, nows, last, v);
      hide HearAll, Says, Rests;
      assert Delivers(words, [last] + words) && Delivers(words, [v, last] + words);
      assert |[0] + nows| == |[last] + words| && |[0, 0] + nows| == |[v, last] + words|;
      assert States(HearAll(r, [last] + words, [0] + nows)) != States(HearAll(r, [v, last] + words, [0, 0] + nows));
    }
  }

  lemma SameEnd(r: Row, words: seq<Word>, last: Word, one: seq<Word>, nows: seq<int>)
    requires ClosedIsEnded(r) && OneWordPerStamp(words) && AllNamed(words) && IsLast(r, words, last)
    requires OrderIsNothing(r, words, last) && Delivers(words, one) && |nows| == |one|
    ensures States(HearAll(r, one, nows)) == if Naming(last) then Says(last.purchase) else Rests(r, last)
  {
    hide Heard, HearAll, Says, Rests;
    if Naming(last) {
      LastWordDecides(r, one, nows);
      assert IsLast(r, one, last);
    } else {
      AllComeToRest(r, words, last, one, nows);
    }
  }

  /** And it does happen that order decides: a payment and a word that waits, on a row that was suspended. */
  lemma WaitingWordsDependOnOrder(r: Row, paid: Purchase, waiting: Purchase)
    requires r.status.Suspended? && r.statedAt == Some(0) && ClosedIsEnded(r)
    requires paid.status == Some(D.SubscriptionStatus.Active) && waiting.status == Some(D.SubscriptionStatus.Pending)
    ensures !Agree(r, [Word(paid, 1), Word(waiting, 2)])
  {
    var words := [Word(paid, 1), Word(waiting, 2)];
    OrderMattersExactlyWhen(r, words, words[1]);
    assert words[0] in words && Says(words[0].purchase).0 != r.status;
  }

  // ---------------------------------------------------------------- a whole answer

  /** What the store sells: the plan a product opens, and whether it is still mapped. */
  datatype Listed = Listed(plan: nat, active: bool)

  predicate Sold(listing: map<nat, Listed>, product: nat) {
    product in listing && listing[product].active
  }

  /** The first row that carries a transaction; under `Unique` there is no other. */
  function Holder(rows: seq<Row>, externalId: nat): Option<nat> {
    if rows == [] then None
    else if Holder(rows[..|rows| - 1], externalId).Some? then Holder(rows[..|rows| - 1], externalId)
    else if rows[|rows| - 1].externalId == Some(externalId) then Some(|rows| - 1)
    else None
  }

  lemma {:induction false} HolderHolds(rows: seq<Row>, externalId: nat)
    ensures var h := Holder(rows, externalId);
            && (h.Some? ==> h.value < |rows| && rows[h.value].externalId == Some(externalId))
            && (h.None? ==> forall r <- rows :: r.externalId != Some(externalId))
    decreases |rows|
  {
    if rows != [] {
      HolderHolds(rows[..|rows| - 1], externalId);
      assert rows == rows[..|rows| - 1] + [rows[|rows| - 1]];
    }
  }

  /** One row per transaction, and one per account and product, with no closed row still running. */
  ghost predicate Unique(rows: seq<Row>) {
    && (forall i, j :: 0 <= i < j < |rows| && rows[i].externalId.Some? ==> rows[i].externalId != rows[j].externalId)
    && (forall i, j :: 0 <= i < j < |rows| && rows[i].product.Some? && rows[i].user == rows[j].user ==> rows[i].product != rows[j].product)
    && (forall i :: 0 <= i < |rows| ==> ClosedIsEnded(rows[i]))
  }

  predicate Taken(rows: seq<Row>, user: nat, product: nat) {
    exists r <- rows :: r.user == user && r.product == Some(product)
  }

  /** What an answer says of a row by its product or by its transaction. */
  predicate Names(p: Purchase, r: Row) {
    r.product == Some(p.product) || (p.externalId.Some? && r.externalId == p.externalId)
  }

  /** A row the answer did not name is untouched, unless the transaction it carried moved to another row of the account, which closes it. */
  ghost predicate LeftAlone(before: Row, after: Row) {
    after == before || exists now: int :: after == CloseRow(before.(externalId := None), D.SubscriptionStatus.Expired, now)
  }

  /** The rows of the account by product, as the answer starts, less what it has named. */
  ghost predicate Leftovers(first: seq<Row>, rows: seq<Row>, user: nat, ours: map<nat, nat>, said: seq<Purchase>) {
    && |first| <= |rows|
    && (forall product <- ours :: ours[product] < |first| && first[ours[product]].user == user && first[ours[product]].product == Some(product)
          && LeftAlone(first[ours[product]], rows[ours[product]]))
    && (forall i: nat :: i < |first| && first[i].user == user && first[i].product.Some?
          ==> (first[i].product.value in ours && ours[first[i].product.value] == i) || Named(first[i], said))
  }

  ghost predicate Named(r: Row, said: seq<Purchase>) {
    exists p <- said :: Names(p, r)
  }

  /** Settling a purchase takes the row it speaks of off the leftovers, and what it does to the others leaves them alone. */
  lemma LeftoversGo(first: seq<Row>, rows: seq<Row>, after: seq<Row>, user: nat, ours: map<nat, nat>, left: map<nat, nat>,
                    said: seq<Purchase>, p: Purchase, at: Option<nat>)
    requires Leftovers(first, rows, user, ours, said) && |rows| <= |after|
    requires left == map product <- ours | Some(ours[product]) != at :: ours[product]
    requires at.Some? && at.value < |first| ==> Names(p, rows[at.value])
    requires forall k: nat :: k < |rows| && rows[k].user == user && Some(k) != at ==> LeftAlone(rows[k], after[k])
    ensures Leftovers(first, after, user, left, said + [p])
  {
    forall i: nat | i < |first| && first[i].user == user && first[i].product.Some?
      ensures (first[i].product.value in left && left[first[i].product.value] == i) || Named(first[i], said + [p])
    {
      if Named(first[i], said) {
        var q :| q in said && Names(q, first[i]);
        assert q in said + [p];
      } else if at == Some(i) {
        assert LeftAlone(first[i], rows[i]);
        assert p in said + [p] && Names(p, first[i]);
      }
    }
    forall product <- left ensures LeftAlone(first[ours[product]], after[ours[product]]) {
      assert LeftAlone(first[ours[product]], rows[ours[product]]);
      ShedLeavesAlone(first[ours[product]], rows[ours[product]], after[ours[product]]);
    }
  }

  /** A row left alone twice was left alone: it has only one transaction to lose. */
  lemma ShedLeavesAlone(first: Row, before: Row, after: Row)
    requires LeftAlone(first, before) && LeftAlone(before, after)
    ensures LeftAlone(first, after) && after.user == first.user && after.product == first.product
  {
  }

  /** Whether the account has, on a row of its own, what a new purchase would put there: the product of the row it takes over, or of a new one. */
  predicate TakenFrom(rows: seq<Row>, user: nat, p: Purchase)
    requires p.externalId.Some?
  {
    var holder := Holder(rows, p.externalId.value);
    HolderHolds(rows, p.externalId.value);
    if holder.Some? then rows[holder.value].product.Some? && Taken(rows, user, rows[holder.value].product.value)
    else Taken(rows, user, p.product)
  }

  /** A leftover of a complete answer: untouched under a greater stamp, and otherwise stamped and expired if it still delivers. */
  predicate Unanswered(before: Row, stated: Option<int>, now: int, after: Row) {
    if stated != None && before.statedAt != None && before.statedAt.value > stated.value then after == before
    else
      var held := if stated == None then before else before.(statedAt := stated);
      if held.status.Trialing? || held.status.Active? || held.status.GracePeriod? then ClosedAs(held, D.SubscriptionStatus.Expired, now, after) else after == held
  }

  /** A row no purchase of an answer names: untouched or relieved of its transaction, and then, after a complete answer, a leftover. */
  ghost predicate PassedOver(before: Row, complete: bool, stated: Option<int>, now: int, after: Row) {
    exists mid: Row :: LeftAlone(before, mid) && if complete then Unanswered(mid, stated, now, after) else after == mid
  }

  /** An answer names a row by its product, or by the transaction it carries. */
  lemma IsNamed(r: Row, said: seq<Purchase>)
    ensures Named(r, said) <==> exists i :: 0 <= i < |said| && (r.product == Some(said[i].product) || (said[i].externalId != None && r.externalId == said[i].externalId))
  {
    if Named(r, said) {
      var p :| p in said && Names(p, r);
      var i :| 0 <= i < |said| && said[i] == p;
    }
    if i :| 0 <= i < |said| && (r.product == Some(said[i].product) || (said[i].externalId != None && r.externalId == said[i].externalId)) {
      assert said[i] in said && Names(said[i], r);
    }
  }

  lemma UnansweredIsAnswered(before: Row, stated: Option<int>, now: int, after: Row)
    requires Unanswered(before, stated, now, after)
    ensures Answered(after, stated)
  {
  }

  /**
   A transaction taken over by a row: not when it is none or its own, nor when another account's row has it; and otherwise the row has it, and
   the one of the account that had it lost it and is closed.
   */
  ghost predicate AdoptedAs(before: seq<Row>, i: nat, externalId: Option<nat>, now: int, after: seq<Row>)
    requires i < |before|
  {
    && |after| == |before|
    && if externalId == None || externalId == before[i].externalId
          || exists h :: 0 <= h < |before| && before[h].externalId == externalId && before[h].user != before[i].user
       then after == before
       else
         && after[i] == before[i].(externalId := externalId)
         && forall k :: 0 <= k < |before| && k != i ==>
              if before[k].externalId == externalId then ClosedAs(before[k].(externalId := None), D.SubscriptionStatus.Expired, now, after[k])
              else after[k] == before[k]
  }

  /** A purchase opened: the row that carried its transaction, passed to the account, or a new one of the product's plan and the word's stamp. */
  ghost predicate OpenedAs(before: seq<Row>, user: nat, p: Purchase, plan: nat, stated: Option<int>, after: seq<Row>) {
    if exists h :: 0 <= h < |before| && before[h].externalId == p.externalId then
      exists h :: 0 <= h < |before| == |after| && before[h].externalId == p.externalId
                  && after == before[h := after[h]] && CarriedAs(before[h].(user := user), p, after[h])
    else
      && |after| == |before| + 1 && after[..|before|] == before
      && CarriedAs(Row(user, Some(p.product), plan, p.externalId, D.Pending, S.Active, None, None, false, None, stated), p, after[|before|])
  }

  lemma CarryCarries(r: Row, p: Purchase)
    ensures CarriedAs(r, p, Carry(r, p))
  {
  }

  /** What a row holds beside its account and its transaction is nothing to an adoption. */
  lemma AdoptedBeside(before: seq<Row>, moved: seq<Row>, i: nat, externalId: Option<nat>, now: int, after: seq<Row>)
    requires i < |before| == |after| == |moved| && moved == before[i := moved[i]]
    requires moved[i].user == before[i].user && moved[i].externalId == before[i].externalId
    requires AdoptedAs(moved, i, externalId, now, after[i := moved[i].(externalId := after[i].externalId)])
    ensures AdoptedAs(before, i, externalId, now, after[i := before[i].(externalId := after[i].externalId)])
  {
    hide ClosedAs;
    assert forall k :: 0 <= k < |before| && k != i ==> moved[k] == before[k];
    assert (exists h :: 0 <= h < |moved| && moved[h].externalId == externalId && moved[h].user != moved[i].user)
      <==> (exists h :: 0 <= h < |before| && before[h].externalId == externalId && before[h].user != before[i].user);
  }

  lemma CarryKeepsUnique(rows: seq<Row>, i: nat, p: Purchase, now: int)
    requires Unique(rows) && i < |rows| && p.refunded.None? && !Over(p, now)
    ensures Unique(rows[i := Carry(rows[i], p)])
  {
  }

  lemma AppendKeepsUnique(rows: seq<Row>, r: Row)
    requires Unique(rows) && ClosedIsEnded(r) && (r.product.Some? ==> !Taken(rows, r.user, r.product.value))
    requires r.externalId.Some? ==> forall k :: 0 <= k < |rows| ==> rows[k].externalId != r.externalId
    ensures Unique(rows + [r])
  {
  }

  lemma OnlyHolder(rows: seq<Row>, user: nat, p: Purchase, at: Option<nat>)
    requires Unique(rows) && p.externalId.Some?
    requires at.Some? ==> at.value < |rows| && rows[at.value].externalId == p.externalId
    requires at.None? ==> forall r <- rows :: r.user == user ==> r.externalId != p.externalId
    ensures forall i: nat :: i < |rows| && rows[i].user == user && rows[i].externalId == p.externalId ==> at == Some(i)
  {
  }

  lemma OnlyOneHas(rows: seq<Row>, h: nat)
    requires Unique(rows) && h < |rows| && rows[h].externalId.Some?
    ensures forall k :: 0 <= k < |rows| && rows[k].externalId == rows[h].externalId ==> k == h
  {
  }

  /** A transaction taken over inside an account leaves one row carrying it and closes the other. */
  lemma TransactionMoves(rows: seq<Row>, i: nat, h: nat, now: int)
    requires Unique(rows) && i < |rows| && h < |rows| && i != h && rows[h].externalId.Some?
    ensures var shed := rows[h].(externalId := None);
            Unique(rows[h := shed][i := rows[i].(externalId := rows[h].externalId)][h := CloseRow(shed, D.SubscriptionStatus.Expired, now)])
  {
  }

  /** A row after a word about it, whichever product it was moved to and whichever transaction it took. */
  predicate IsHeard(before: Row, after: Row, p: Purchase, stated: Option<int>, now: int) {
    after == Heard(before, p, stated, now).(externalId := after.externalId, product := after.product, plan := after.plan)
  }

  class ReconciliationService {
    const listing: map<nat, Listed>
    var rows: seq<Row>

    constructor (listing: map<nat, Listed>, rows: seq<Row>)
      ensures this.listing == listing && this.rows == rows
    {
      this.listing, this.rows := listing, rows;
    }

    /** The conditioned write that takes the stamp. */
    method Hold(i: nat, stated: Option<int>) returns (held: bool)
      requires i < |rows| && Unique(rows)
      modifies this`rows
      ensures Unique(rows)
      ensures held <==> Heeds(old(rows)[i], stated)
      ensures rows == if held then old(rows)[i := Stamped(old(rows)[i], stated)] else old(rows)
    {
      var r := rows[i];
      if stated.Some? {
        if r.statedAt.Some? && r.statedAt.value > stated.value {
          return false;
        }
        rows := rows[i := r.(statedAt := stated)];
      }
      return true;
    }

    method Close(i: nat, status: D.SubscriptionStatus, now: int)
      requires i < |rows|
      modifies this`rows
      ensures rows == old(rows)[i := CloseRow(old(rows)[i], status, now)]
    {
      if rows[i].status == status {
        return;
      }
      rows := rows[i := rows[i].(status := status, expiredAt := Some(now), accessUntil := Some(now), benefitStatus := S.Ended)];
    }

    /** The transaction the store now sells by, taken over from the row of the account that carried it, which ends there. */
    method Adopt(i: nat, p: Purchase, now: int)
      requires i < |rows| && Unique(rows)
      modifies this`rows
      ensures |rows| == |old(rows)| && Unique(rows)
      ensures p.externalId.None? || p.externalId == old(rows)[i].externalId ==> rows == old(rows)
      ensures rows[i] == old(rows)[i].(externalId := rows[i].externalId)
      ensures rows[i].externalId == old(rows)[i].externalId || rows[i].externalId == p.externalId
      ensures forall k :: 0 <= k < |rows| && k != i ==>
                rows[k] == old(rows)[k]
                || (rows[k] == CloseRow(old(rows)[k].(externalId := None), D.Expired, now) && old(rows)[k].user == old(rows)[i].user)
      ensures AdoptedAs(old(rows), i, p.externalId, now, rows)
    {
      if p.externalId.None? || p.externalId == rows[i].externalId {
        return;
      }
      var holder := Holder(rows, p.externalId.value);
      HolderHolds(rows, p.externalId.value);
      if holder.Some? && rows[holder.value].user != rows[i].user {
        return;
      }
      if holder.None? {
        rows := rows[i := rows[i].(externalId := p.externalId)];
        return;
      }
      var h := holder.value;
      TransactionMoves(rows, i, h, now);
      OnlyOneHas(rows, h);
      assert ClosedAs(rows[h].(externalId := None), D.Expired, now, CloseRow(rows[h].(externalId := None), D.Expired, now));
      hide Unique, CloseRow, Holder, ClosedAs;
      rows := rows[h := rows[h].(externalId := None)];
      rows := rows[i := rows[i].(externalId := p.externalId)];
      Close(h, D.Expired, now);
    }

    /** Moves a row to the product and plan of a word; the key of account and product refuses one that is taken. */
    method Repoint(i: nat, p: Purchase) returns (refused: bool)
      requires i < |rows| && Unique(rows)
      modifies this`rows
      ensures refused ==> rows == old(rows)
      ensures Unique(rows) && |rows| == |old(rows)|
      ensures refused <==>
                && p.product in listing && listing[p.product].active && old(rows)[i].product != Some(p.product)
                && exists k :: 0 <= k < |old(rows)| && old(rows)[k].user == old(rows)[i].user && old(rows)[k].product == Some(p.product)
      ensures !refused ==> rows == if p.product in listing && listing[p.product].active && old(rows)[i].product != Some(p.product)
                                   then old(rows)[i := old(rows)[i].(product := Some(p.product), plan := listing[p.product].plan)] else old(rows)
      ensures old(rows)[i].product == Some(p.product) ==> !refused && rows == old(rows)
      ensures !refused && Sold(listing, p.product) ==> rows[i].product == Some(p.product)
    {
      if !Sold(listing, p.product) || rows[i].product == Some(p.product) {
        return false;
      }
      if Taken(rows, rows[i].user, p.product) {
        return true;
      }
      rows := rows[i := rows[i].(product := Some(p.product), plan := listing[p.product].plan)];
      return false;
    }

    method Align(i: nat, p: Purchase, stated: Option<int>, now: int)
      requires i < |rows| && Unique(rows)
      modifies this`rows
      ensures |rows| == |old(rows)| && Unique(rows)
      ensures p.externalId.None? || p.externalId == old(rows)[i].externalId ==>
                rows == old(rows)[i := Aligned(old(rows)[i], p, now)]
      ensures rows[i] == Aligned(old(rows)[i], p, now).(externalId := rows[i].externalId)
      ensures rows[i].externalId == old(rows)[i].externalId || rows[i].externalId == p.externalId
      ensures forall k :: 0 <= k < |rows| && k != i ==>
                rows[k] == old(rows)[k]
                || (rows[k] == CloseRow(old(rows)[k].(externalId := None), D.Expired, now) && old(rows)[k].user == old(rows)[i].user)
      ensures p.refunded.Some? || Over(p, now) ==> rows == old(rows)[i := rows[i]]
      ensures !(p.refunded.Some? || Over(p, now)) ==>
                AdoptedAs(old(rows), i, p.externalId, now, rows[i := old(rows)[i].(externalId := rows[i].externalId)])
    {
      if p.refunded.Some? {
        Close(i, D.Revoked, now);
        return;
      }
      if Over(p, now) {
        Close(i, D.Expired, now);
        return;
      }
      Adopt(i, p, now);
      ghost var adopted := rows;
      CarryKeepsUnique(rows, i, p, now);
      hide Unique, CloseRow;
      rows := rows[i := Carry(rows[i], p)];
      hide AdoptedAs;
      assert rows[i := old(rows)[i].(externalId := rows[i].externalId)] == adopted;
    }

    /** The receipt is somebody else's now: the row changes hands, and what it gave its last holder ended. */
    method HandOver(i: nat, user: nat, p: Purchase) returns (refused: bool)
      requires i < |rows| && Unique(rows) && rows[i].user != user && !OfClosed(StatusOf(p))
      modifies this`rows
      ensures refused <==> old(rows)[i].product.Some? && exists k :: 0 <= k < |old(rows)| && old(rows)[k].user == user && old(rows)[k].product == old(rows)[i].product
      ensures refused ==> rows == old(rows)
      ensures !refused ==> rows == old(rows)[i := Carry(old(rows)[i].(user := user), p)]
      ensures Unique(rows)
    {
      if rows[i].product.Some? && Taken(rows, user, rows[i].product.value) {
        return true;
      }
      rows := rows[i := rows[i].(user := user)];
      rows := rows[i := Carry(rows[i], p)];
      return false;
    }

    /** A purchase nothing here carries: a new row, or a row of another account it takes over. */
    method Open(user: nat, p: Purchase, stated: Option<int>, now: int) returns (refused: bool)
      requires Unique(rows)
      requires p.externalId.Some? ==> forall k :: 0 <= k < |rows| && rows[k].user == user ==> rows[k].externalId != p.externalId
      modifies this`rows
      ensures Unique(rows) && |old(rows)| <= |rows|
      ensures forall k :: 0 <= k < |old(rows)| && old(rows)[k].user == user ==> rows[k] == old(rows)[k]
      ensures forall k :: 0 <= k < |old(rows)| ==> rows[k] == old(rows)[k] || (p.externalId.Some? && old(rows)[k].externalId == p.externalId)
      ensures refused || Over(p, now) || !Sold(listing, p.product) || p.externalId.None? ==> rows == old(rows)
      ensures refused <==> !Over(p, now) && Sold(listing, p.product) && p.externalId.Some? && TakenFrom(old(rows), user, p)
      ensures !refused && !Over(p, now) && p.product in listing && listing[p.product].active && p.externalId.Some? ==>
                OpenedAs(old(rows), user, p, listing[p.product].plan, stated, rows)
      ensures !refused && !Over(p, now) && Sold(listing, p.product) && p.externalId.Some? ==>
                exists k :: 0 <= k < |rows| && rows[k].user == user && rows[k].externalId == p.externalId && rows[k].status == StatusOf(p)
    {
      if Over(p, now) {
        return false;
      }
      if !Sold(listing, p.product) || p.externalId.None? {
        return false;
      }
      var holder := Holder(rows, p.externalId.value);
      HolderHolds(rows, p.externalId.value);
      if holder.Some? {
        ghost var h := holder.value;
        ghost var before := rows;
        refused := HandOver(holder.value, user, p);
        assert !refused ==> rows[h].user == user;
        CarryCarries(before[h].(user := user), p);
        assert !refused ==> rows == before[h := rows[h]];
        return;
      }
      if Taken(rows, user, p.product) {
        return true;
      }
      var r := Row(user, Some(p.product), listing[p.product].plan, p.externalId, D.Pending, S.Active, None, None, false, None, stated);
      ghost var n := |rows|;
      CarryCarries(r, p);
      AppendKeepsUnique(rows, Carry(r, p));
      hide Unique, CarriedAs;
      rows := rows + [Carry(r, p)];
      assert rows[n].user == user;
      return false;
    }

    /** The row of the account an answer speaks of: the one listed under the product, or the one that carries the transaction. */
    method Find(user: nat, p: Purchase, ours: map<nat, nat>) returns (at: Option<nat>, left: map<nat, nat>)
      requires Unique(rows) && forall product <- ours :: ours[product] < |rows| && rows[ours[product]].user == user && rows[ours[product]].product == Some(product)
      ensures at.Some? ==> at.value < |rows| && rows[at.value].user == user && Names(p, rows[at.value])
      ensures p.product in ours ==> at == Some(ours[p.product])
      ensures p.product !in ours && at.Some? ==> p.externalId.Some? && rows[at.value].externalId == p.externalId
      ensures at.None? && p.externalId.Some? ==> forall r <- rows :: r.user == user ==> r.externalId != p.externalId
      ensures left == map product <- ours | Some(ours[product]) != at :: ours[product]
    {
      if p.product in ours {
        at := Some(ours[p.product]);
        left := ours - {p.product};
        forall product <- ours | product != p.product ensures ours[product] != ours[p.product] {
          assert rows[ours[product]].product == Some(product);
        }
        return;
      }
      at := None;
      if p.externalId.Some? {
        var holder := Holder(rows, p.externalId.value);
        HolderHolds(rows, p.externalId.value);
        if holder.Some? && rows[holder.value].user == user {
          at := holder;
        }
      }
      left := map product <- ours | Some(ours[product]) != at :: ours[product];
    }

    /** A word about one row: heard, or refused by the key of a product another row of the account has. */
    method Hear(i: nat, p: Purchase, stated: Option<int>, now: int) returns (refused: bool)
      requires i < |rows| && Unique(rows)
      modifies this`rows
      ensures |rows| == |old(rows)| && Unique(rows)
      ensures refused ==> rows == old(rows) && old(rows)[i].product != Some(p.product)
      ensures !Heeds(old(rows)[i], stated) ==> rows == old(rows)
      ensures !refused ==> IsHeard(old(rows)[i], rows[i], p, stated, now)
      ensures old(rows)[i].product == Some(p.product) && (p.externalId.None? || p.externalId == old(rows)[i].externalId) ==>
                rows == old(rows)[i := Heard(old(rows)[i], p, stated, now)]
      ensures forall k :: 0 <= k < |rows| && k != i ==>
                rows[k] == old(rows)[k]
                || (rows[k] == CloseRow(old(rows)[k].(externalId := None), D.Expired, now) && old(rows)[k].user == old(rows)[i].user)
      ensures !refused && Heeds(old(rows)[i], stated) && !(StatusOf(p).Pending? && !old(rows)[i].status.Pending?) ==>
                && (rows[i].product, rows[i].plan) ==
                     (if p.product in listing && listing[p.product].active then (Some(p.product), if old(rows)[i].product == Some(p.product) then old(rows)[i].plan else listing[p.product].plan)
                      else (old(rows)[i].product, old(rows)[i].plan))
                && (if p.refunded.Some? || Over(p, now) then rows == old(rows)[i := rows[i]]
                    else AdoptedAs(old(rows), i, p.externalId, now, rows[i := old(rows)[i].(externalId := rows[i].externalId)]))
    {
      hide Unique, CloseRow, Aligned, Taken;
      var before := rows;
      var held := Hold(i, stated);
      if !held {
        return false;
      }
      if StatusOf(p).Pending? && !rows[i].status.Pending? {
        return false;
      }
      refused := Repoint(i, p);
      if refused {
        rows := before;
        return;
      }
      AlignedKeepsProduct(Stamped(before[i], stated), p, now, rows[i].product, rows[i].plan);
      ghost var moved := rows;
      Align(i, p, stated, now);
      if !(p.refunded.Some? || Over(p, now)) {
        AdoptedBeside(before, moved, i, p.externalId, now, rows);
      }
    }

    /** One purchase of the answer, heard by the row it names, which leaves `ours`, or opened as a new one. */
    method Settle(user: nat, p: Purchase, ours: map<nat, nat>, stated: Option<int>, now: int, ghost first: seq<Row>, ghost said: seq<Purchase>)
      returns (left: map<nat, nat>, refused: bool)
      requires Unique(first) && Unique(rows) && Leftovers(first, rows, user, ours, said)
      modifies this`rows
      ensures Unique(rows) && |old(rows)| <= |rows|
      ensures !refused ==> Leftovers(first, rows, user, left, said + [p])
      ensures p.product in ours && (p.externalId.None? || p.externalId == old(rows)[ours[p.product]].externalId) ==>
                !refused && rows == old(rows)[ours[p.product] := Heard(old(rows)[ours[p.product]], p, stated, now)]
      ensures !refused && p.product in ours ==> IsHeard(old(rows)[ours[p.product]], rows[ours[p.product]], p, stated, now)
      ensures !refused && p.product !in ours && p.externalId.Some? ==>
                forall i: nat :: i < |old(rows)| && old(rows)[i].user == user && old(rows)[i].externalId == p.externalId ==>
                  IsHeard(old(rows)[i], rows[i], p, stated, now)
    {
      var at;
      at, left := Find(user, p, ours);
      if p.product !in ours && p.externalId.Some? {
        OnlyHolder(rows, user, p, at);
      }
      if at.Some? {
        refused := Hear(at.value, p, stated, now);
      } else {
        refused := Open(user, p, stated, now);
      }
      if !refused {
        LeftoversGo(first, old(rows), rows, user, ours, left, said, p, at);
      }
    }

    /** The rows of the account by the product they were sold under. */
    method Ours(user: nat) returns (ours: map<nat, nat>)
      requires Unique(rows)
      ensures Leftovers(rows, rows, user, ours, [])
    {
      ours := map[];
      var n := 0;
      while n < |rows|
        invariant n <= |rows|
        invariant forall product <- ours :: ours[product] < n && rows[ours[product]].user == user && rows[ours[product]].product == Some(product)
        invariant forall i: nat :: i < n && rows[i].user == user && rows[i].product.Some? ==>
                    rows[i].product.value in ours && ours[rows[i].product.value] == i
      {
        if rows[n].user == user && rows[n].product.Some? {
          ours := ours[rows[n].product.value := n];
        }
        n := n + 1;
      }
    }

    /**
     The whole answer. After one that lists everything, every row of the account listed under a product that still delivers is one the answer
     names, by product or by transaction, or one that carries a strictly newer stamp.
     */
    method Apply(user: nat, held: seq<Purchase>, complete: bool, stated: Option<int>, now: int) returns (refused: bool)
      requires Unique(rows)
      modifies this`rows
      ensures Unique(rows) && |old(rows)| <= |rows|
      ensures !refused && complete ==>
                forall i: nat :: i < |old(rows)| && old(rows)[i].user == user && old(rows)[i].product.Some? && D.OfEligible(rows[i].status) ==>
                  Named(old(rows)[i], held) || (stated.Some? && rows[i].statedAt.Some? && rows[i].statedAt.value > stated.value)
      ensures !refused ==>
                forall i: nat :: i < |old(rows)| && old(rows)[i].user == user && old(rows)[i].product.Some? && !Named(old(rows)[i], held) ==>
                  PassedOver(old(rows)[i], complete, stated, now, rows[i])
    {
      hide Unique, Heard, IsHeard, HearAll, Named, LeftAlone;
      ghost var first := rows;
      var ours := Ours(user);
      var n := 0;
      while n < |held|
        invariant n <= |held| && Unique(rows) && Leftovers(first, rows, user, ours, held[..n])
      {
        ours, refused := Settle(user, held[n], ours, stated, now, first, held[..n]);
        if refused {
          return;
        }
        assert held[..n] + [held[n]] == held[..n + 1];
        n := n + 1;
      }
      assert held[..n] == held;
      refused := false;
      ghost var mid := rows;
      if complete {
        CloseLeftovers(ours, stated, now);
      }
      forall i: nat | i < |first| && first[i].user == user && first[i].product.Some? && !Named(first[i], held)
        ensures PassedOver(first[i], complete, stated, now, rows[i])
      {
        assert LeftAlone(first[i], mid[i]);
        hide Unanswered, LeftAlone;
      }
    }

    method CloseLeftovers(ours: map<nat, nat>, stated: Option<int>, now: int)
      requires Unique(rows) && (forall product <- ours :: ours[product] < |rows|)
      requires forall a, b :: a in ours && b in ours && a != b ==> ours[a] != ours[b]
      modifies this`rows
      ensures Unique(rows) && |rows| == |old(rows)|
      ensures forall product <- ours :: Answered(rows[ours[product]], stated)
      ensures forall product <- ours :: Unanswered(old(rows)[ours[product]], stated, now, rows[ours[product]])
      ensures forall k :: 0 <= k < |rows| && k !in ours.Values ==> rows[k] == old(rows)[k]
    {
      var left := ours.Keys;
      while left != {}
        invariant left <= ours.Keys && Unique(rows) && |rows| == |old(rows)|
        invariant forall product <- ours :: if product in left then rows[ours[product]] == old(rows)[ours[product]]
                                            else Unanswered(old(rows)[ours[product]], stated, now, rows[ours[product]])
        invariant forall k :: 0 <= k < |rows| && k !in ours.Values ==> rows[k] == old(rows)[k]
      {
        hide Unique, Unanswered, Answered, ClosedAs;
        var product :| product in left;
        CloseUnanswered(ours[product], stated, now);
        left := left - {product};
      }
      forall product <- ours ensures Answered(rows[ours[product]], stated) {
        UnansweredIsAnswered(old(rows)[ours[product]], stated, now, rows[ours[product]]);
      }
    }

    method CloseUnanswered(i: nat, stated: Option<int>, now: int)
      requires i < |rows| && Unique(rows)
      modifies this`rows
      ensures Unique(rows) && |rows| == |old(rows)|
      ensures rows == old(rows)[i := rows[i]] && Answered(rows[i], stated)
      ensures Unanswered(old(rows)[i], stated, now, rows[i])
    {
      var taken := Hold(i, stated);
      if taken && D.OfEligible(rows[i].status) {
        Close(i, D.Expired, now);
      }
    }
  }

  /** A leftover is closed, or it carries a newer word. */
  ghost predicate Answered(r: Row, stated: Option<int>) {
    D.OfEligible(r.status) ==> stated.Some? && r.statedAt.Some? && r.statedAt.value > stated.value
  }
}
