/**
 Balances and the append-only ledger that explains them: services/credit_transaction_service.py over
 services/user_balance_service.py, first as one caller sees them and then under any number of callers.
 */
module Ledger {
  import opened Outcomes
  import Schedule

  datatype Kind = Credit | Debit | Reversal | Adjustment

  datatype Error = AmountMustBePositive | InsufficientCredits | BalanceOutOfRange | CurrencyNotFound | DuplicatedRecord | Crashed

  datatype Account = Account(user: nat, currency: nat)

  /** What a handed-over product is named by: the purchase that paid for it, or the grant of a plan. */
  datatype Source = OfPurchase(reference: nat) | OfGrant(benefit: nat, cycle: Schedule.CycleKey)

  /** The idempotency keys, which three prefixes keep apart. */
  datatype Key = GrantKey(benefit: nat, cycle: Schedule.CycleKey) | ProductKey(source: Source) | ManualKey(token: nat)

  datatype Request = Request(account: Account, kind: Kind, amount: int, key: Key, grant: Option<nat>, product: Option<nat>,
                             userTenant: Option<nat>, currencyTenant: Option<nat>)

  datatype Entry = Entry(account: Account, kind: Kind, amount: int, balanceAfter: int, key: Key, grant: Option<nat>, product: Option<nat>)

  const BIG_INTEGER_MAX := 9223372036854775807

  /** The signed amount of an entry: the kind decides the sign, except for adjustments, and a directed amount is a magnitude. */
  function SignedAmount(kind: Kind, amount: int): (r: Result<int, Error>)
    ensures r.Success? ==> (kind.Credit? ==> r.value >= 0) && (kind.Debit? || kind.Reversal? ==> r.value <= 0)
    ensures r.Failure? <==> !kind.Adjustment? && amount < 0
    ensures r.Success? ==> r.value == if kind.Debit? || kind.Reversal? then -amount else amount
  {
    if kind.Adjustment? then Success(amount)
    else if amount < 0 then Failure(AmountMustBePositive)
    else Success(if kind.Credit? then amount else -amount)
  }

  // ---------------------------------------------------------------- the tables

  datatype Tables = Tables(balances: map<Account, int>, entries: seq<Entry>)

  predicate HasKey(entries: seq<Entry>, key: Key) {
    exists e <- entries :: e.key == key
  }

  function ByKey(entries: seq<Entry>, key: Key): (e: Entry)
    requires HasKey(entries, key)
    ensures e in entries && e.key == key
  {
    if entries[|entries| - 1].key == key then entries[|entries| - 1] else ByKey(entries[..|entries| - 1], key)
  }

  function Held(t: Tables, a: Account): int {
    if a in t.balances then t.balances[a] else 0
  }

  function Sum(entries: seq<Entry>, a: Account): int {
    if entries == [] then 0
    else Sum(entries[..|entries| - 1], a) + (if entries[|entries| - 1].account == a then entries[|entries| - 1].amount else 0)
  }

  /** Every balance is what its entries add up to, every entry carries the prefix sum it left, both in range, and no key repeats. */
  ghost predicate Balanced(t: Tables) {
    && (forall a <- t.balances :: t.balances[a] == Sum(t.entries, a) && 0 <= t.balances[a] <= BIG_INTEGER_MAX)
    && (forall i :: 0 <= i < |t.entries| ==> t.entries[i].account in t.balances)
    && (forall i :: 0 <= i < |t.entries| ==> t.entries[i].balanceAfter == Sum(t.entries[..i + 1], t.entries[i].account))
    && (forall i :: 0 <= i < |t.entries| ==> 0 <= t.entries[i].balanceAfter <= BIG_INTEGER_MAX)
    && (forall i, j :: 0 <= i < j < |t.entries| ==> t.entries[i].key != t.entries[j].key)
  }

  /** What one movement is refused for, once its key is new. */
  function Refused(t: Tables, r: Request): Option<Error> {
    if r.currencyTenant.Some? && r.currencyTenant != r.userTenant then Some(CurrencyNotFound)
    else
      var signed := SignedAmount(r.kind, r.amount);
      if signed.Failure? then Some(signed.error)
      else if Held(t, r.account) + signed.value < 0 then Some(InsufficientCredits)
      else if Held(t, r.account) + signed.value > BIG_INTEGER_MAX then Some(BalanceOutOfRange)
      else None
  }

  function Written(t: Tables, r: Request): Entry
    requires Refused(t, r).None?
  {
    var signed := SignedAmount(r.kind, r.amount).value;
    Entry(r.account, r.kind, signed, Held(t, r.account) + signed, r.key, r.grant, r.product)
  }

  /** One movement taken alone, which is the sequential specification of every concurrent one. */
  function Moved(t: Tables, r: Request): (Tables, Result<Entry, Error>) {
    if HasKey(t.entries, r.key) then (t, Success(ByKey(t.entries, r.key)))
    else if Refused(t, r).Some? then (t, Failure(Refused(t, r).value))
    else
      var e := Written(t, r);
      (Tables(t.balances[r.account := e.balanceAfter], t.entries + [e]), Success(e))
  }

  lemma SumOfUnheld(entries: seq<Entry>, a: Account)
    requires forall e <- entries :: e.account != a
    ensures Sum(entries, a) == 0
  {
  }

  lemma SumOfLonger(entries: seq<Entry>, e: Entry, a: Account)
    ensures Sum(entries + [e], a) == Sum(entries, a) + (if e.account == a then e.amount else 0)
  {
  }

  /** A movement keeps every balance explained by its ledger, and what it writes is exactly its own signed amount. */
  lemma MovedKeepsBalanced(t: Tables, r: Request)
    requires Balanced(t)
    ensures var (after, answer) := Moved(t, r);
            && Balanced(after)
            && (forall a: Account :: a != r.account ==> Sum(after.entries, a) == Sum(t.entries, a))
            && (answer.Success? && !HasKey(t.entries, r.key)
                ==> Held(after, r.account) == Held(t, r.account) + SignedAmount(r.kind, r.amount).value)
  {
    if !HasKey(t.entries, r.key) && Refused(t, r).None? {
      AppendKeepsBalanced(t, Written(t, r));
    }
  }

  lemma AppendKeepsBalanced(t: Tables, e: Entry)
    requires Balanced(t) && !HasKey(t.entries, e.key)
    requires e.balanceAfter == Held(t, e.account) + e.amount && 0 <= e.balanceAfter <= BIG_INTEGER_MAX
    ensures Balanced(Tables(t.balances[e.account := e.balanceAfter], t.entries + [e]))
    ensures forall a: Account :: a != e.account ==> Sum(t.entries + [e], a) == Sum(t.entries, a)
  {
    hide Sum;
    var after := Tables(t.balances[e.account := e.balanceAfter], t.entries + [e]);
    var n := |t.entries|;
    forall a: Account ensures Sum(after.entries, a) == Sum(t.entries, a) + (if e.account == a then e.amount else 0) {
      SumOfLonger(t.entries, e, a);
    }
    assert Held(t, e.account) == Sum(t.entries, e.account) by {
      if e.account !in t.balances {
        SumOfUnheld(t.entries, e.account);
      }
    }
    forall i | 0 <= i < |after.entries| ensures after.entries[i].balanceAfter == Sum(after.entries[..i + 1], after.entries[i].account) {
      if i < n {
        assert after.entries[..i + 1] == t.entries[..i + 1];
      } else {
        assert after.entries[..i + 1] == after.entries;
      }
    }
    forall i, j | 0 <= i < j < |after.entries| ensures after.entries[i].key != after.entries[j].key {
      assert after.entries[i] == t.entries[i];
    }
  }

  /** What a movement adds to its account: all of it, except for the kinds that take. */
  function Delta(kind: Kind, amount: int): int {
    match kind
    case Credit => amount
    case Debit => -amount
    case Reversal => -amount
    case Adjustment => amount
  }

  /**
   A movement under a new key is written exactly when the account may hold the currency, a directed amount is not negative, and the balance
   stays between zero and the greatest the column holds; the entry is then the request, signed, with the balance it leaves. Each refusal has its own reason.
   */
  lemma MoveDecides(t: Tables, r: Request)
    requires !HasKey(t.entries, r.key)
    ensures var (before, delta) := (if r.account in t.balances then t.balances[r.account] else 0, Delta(r.kind, r.amount));
            var entry := Entry(r.account, r.kind, delta, before + delta, r.key, r.grant, r.product);
            Moved(t, r) ==
              if r.currencyTenant != None && r.currencyTenant != r.userTenant then (t, Failure(CurrencyNotFound))
              else if r.kind != Adjustment && r.amount < 0 then (t, Failure(AmountMustBePositive))
              else if before + delta < 0 then (t, Failure(InsufficientCredits))
              else if before + delta > 9223372036854775807 then (t, Failure(BalanceOutOfRange))
              else (Tables(t.balances[r.account := before + delta], t.entries + [entry]), Success(entry))
  {
    hide ByKey, HasKey;
  }

  /** Repeating a key, whatever else the request says, changes nothing and answers the entry the first one wrote. */
  lemma KeyRepeats(t: Tables, r: Request, again: Request)
    requires again.key == r.key && Moved(t, r).1.Success?
    ensures Moved(Moved(t, r).0, again) == (Moved(t, r).0, Moved(t, r).1)
  {
  }

  class CreditTransactionService {
    var balances: map<Account, int>
    var entries: seq<Entry>

    function Value(): Tables
      reads this
    {
      Tables(balances, entries)
    }

    constructor ()
      ensures Value() == Tables(map[], [])
    {
      balances, entries := map[], [];
    }

    method SettledByKey(key: Key) returns (found: Option<Entry>)
      ensures found == if HasKey(entries, key) then Some(ByKey(entries, key)) else None
    {
      var i := |entries|;
      assert entries[..i] == entries;
      while i > 0
        invariant 0 <= i <= |entries|
        invariant HasKey(entries, key) <==> HasKey(entries[..i], key)
        invariant HasKey(entries[..i], key) ==> ByKey(entries, key) == ByKey(entries[..i], key)
      {
        assert entries[..i] == entries[..i - 1] + [entries[i - 1]];
        if entries[i - 1].key == key {
          return Some(entries[i - 1]);
        }
        assert entries[..i][..i - 1] == entries[..i - 1];
        i := i - 1;
      }
      return None;
    }

    method Move(r: Request) returns (answer: Result<Entry, Error>)
      requires Balanced(Value())
      modifies this
      ensures (Value(), answer) == Moved(old(Value()), r)
      ensures Balanced(Value())
    {
      assert Balanced(Moved(Value(), r).0) by {
        MovedKeepsBalanced(Value(), r);
      }
      hide Balanced, Sum;
      var existing := SettledByKey(r.key);
      if existing.Some? {
        return Success(existing.value);
      }
      if r.currencyTenant.Some? && r.currencyTenant != r.userTenant {
        return Failure(CurrencyNotFound);
      }
      var held := if r.account in balances then balances[r.account] else 0;
      var signed := SignedAmount(r.kind, r.amount);
      if signed.Failure? {
        return Failure(signed.error);
      }
      var balance := held + signed.value;
      if balance < 0 {
        return Failure(InsufficientCredits);
      }
      if balance > BIG_INTEGER_MAX {
        return Failure(BalanceOutOfRange);
      }
      var transaction := Entry(r.account, r.kind, signed.value, balance, r.key, r.grant, r.product);
      entries := entries + [transaction];
      balances := balances[r.account := balance];
      return Success(transaction);
    }
  }

  // ---------------------------------------------------------------- any number of movers at once

  /**
   Where a mover stands: it has not looked yet, it waits for the balance row, it holds the row at the amount it reread under the
   lock, it is about to commit a balance, or it was answered.
   */
  datatype Phase = Looking | Waiting | Locked(amount: int) | Writing(signed: int, balance: int) | Done(answer: Result<Entry, Error>)

  datatype Mover = Mover(request: Request, phase: Phase)

  datatype System = System(tables: Tables, locks: map<Account, nat>, movers: map<nat, Mover>)

  datatype Event = Look(m: nat) | Lock(m: nat) | Check(m: nat) | Commit(m: nat) | Crash(m: nat)

  function At(s: System, m: nat, phase: Phase): System
    requires m in s.movers
  {
    s.(movers := s.movers[m := s.movers[m].(phase := phase)])
  }

  function Unlock(s: System, m: nat): System
    requires m in s.movers
  {
    var a := s.movers[m].request.account;
    if a in s.locks && s.locks[a] == m then s.(locks := s.locks - {a}) else s
  }

  function Finish(s: System, m: nat, answer: Result<Entry, Error>): System
    requires m in s.movers
  {
    At(Unlock(s, m), m, Done(answer))
  }

  /** One event of one mover; an event whose moment has not come changes nothing. */
  function Apply(s: System, e: Event): System {
    if e.m !in s.movers then s
    else
      var r := s.movers[e.m].request;
      var entries := s.tables.entries;
      match (e, s.movers[e.m].phase)
      case (Look(m), Looking) =>
        if HasKey(entries, r.key) then Finish(s, m, Success(ByKey(entries, r.key)))
        else if r.currencyTenant.Some? && r.currencyTenant != r.userTenant then Finish(s, m, Failure(CurrencyNotFound))
        else At(s, m, Waiting)
      case (Lock(m), Waiting) =>
        if r.account in s.locks then s
        else At(s.(locks := s.locks[r.account := m]), m, Locked(Held(s.tables, r.account)))
      case (Check(m), Locked(amount)) =>
        if HasKey(entries, r.key) then Finish(s, m, Success(ByKey(entries, r.key)))
        else
          var signed := SignedAmount(r.kind, r.amount);
          if signed.Failure? then Finish(s, m, Failure(signed.error))
          else if amount + signed.value < 0 then Finish(s, m, Failure(InsufficientCredits))
          else if amount + signed.value > BIG_INTEGER_MAX then Finish(s, m, Failure(BalanceOutOfRange))
          else At(s, m, Writing(signed.value, amount + signed.value))
      case (Commit(m), Writing(signed, balance)) =>
        // The unique key of the ledger refuses the entry when a mover of another account committed the same key meanwhile.
        if HasKey(entries, r.key) then Finish(s, m, Failure(DuplicatedRecord))
        else
          var entry := Entry(r.account, r.kind, signed, balance, r.key, r.grant, r.product);
          Finish(s.(tables := Tables(s.tables.balances[r.account := balance], entries + [entry])), m, Success(entry))
      case (Crash(m), phase) =>
        if phase.Done? then s else Finish(s, m, Failure(Crashed))
      case _ => s
  }

  function Run(s: System, events: seq<Event>): System
    decreases |events|
  {
    if events == [] then s else Run(Apply(s, events[0]), events[1..])
  }

  ghost predicate Holds(s: System, m: nat) {
    m in s.movers && (s.movers[m].phase.Locked? || s.movers[m].phase.Writing?)
  }

  ghost predicate Inv(s: System) {
    && Balanced(s.tables)
    && (forall m <- s.movers :: Holds(s, m) ==> s.movers[m].request.account in s.locks && s.locks[s.movers[m].request.account] == m)
    && (forall a <- s.locks :: Holds(s, s.locks[a]) && s.movers[s.locks[a]].request.account == a)
    && (forall m <- s.movers :: MoverInv(s, s.movers[m]))
  }

  ghost predicate MoverInv(s: System, v: Mover) {
    match v.phase
    case Looking => true
    case Waiting => InReach(v.request)
    case Locked(amount) => InReach(v.request) && amount == Held(s.tables, v.request.account)
    case Writing(signed, balance) =>
      && Refused(s.tables, v.request).None?
      && signed == SignedAmount(v.request.kind, v.request.amount).value
      && balance == Held(s.tables, v.request.account) + signed
      && (forall e <- s.tables.entries :: e.account == v.request.account ==> e.key != v.request.key)
    case Done(answer) => answer.Success? ==> answer.value in s.tables.entries && answer.value.key == v.request.key
  }

  predicate InReach(r: Request) {
    r.currencyTenant.None? || r.currencyTenant == r.userTenant
  }

  /** Nobody started yet, over tables already balanced. */
  ghost predicate Fresh(s: System) {
    Balanced(s.tables) && s.locks == map[] && forall m <- s.movers :: s.movers[m].phase == Looking
  }

  /** A commit writes what the sequential movement writes, and every other mover still holds what it believes. */
  lemma CommitIsSequential(s: System, m: nat)
    requires Inv(s) && m in s.movers && s.movers[m].phase.Writing? && !HasKey(s.tables.entries, s.movers[m].request.key)
    ensures var after := Apply(s, Commit(m));
            && Inv(after) && after.tables == Moved(s.tables, s.movers[m].request).0
            && s.tables.entries <= after.tables.entries
  {
    hide Balanced, ByKey, SignedAmount;
    var after := Apply(s, Commit(m));
    var r := s.movers[m].request;
    assert MoverInv(s, s.movers[m]);
    assert after.tables == Moved(s.tables, r).0;
    MovedKeepsBalanced(s.tables, r);
    forall n <- after.movers ensures MoverInv(after, after.movers[n]) {
      assert MoverInv(s, s.movers[n]);
      if n != m && (Holds(s, n) || s.movers[n].phase.Done?) {
        assert Holds(s, n) ==> s.movers[n].request.account != r.account;
        assert after.movers[n] == s.movers[n];
      }
    }
  }

  lemma FinishKeepsInv(s: System, m: nat, answer: Result<Entry, Error>)
    requires Inv(s) && m in s.movers
    requires answer.Success? ==> answer.value in s.tables.entries && answer.value.key == s.movers[m].request.key
    ensures Inv(Finish(s, m, answer)) && Finish(s, m, answer).tables == s.tables
  {
  }

  /** A mover that goes on: it holds its row before and after, or neither, or it just took it. */
  lemma OnwardKeepsInv(s: System, m: nat, locks: map<Account, nat>, phase: Phase)
    requires Inv(s) && m in s.movers && MoverInv(s, s.movers[m].(phase := phase))
    requires var a := s.movers[m].request.account;
             || (locks == s.locks && phase.Waiting? && !Holds(s, m))
             || (locks == s.locks && Holds(s, m) && (phase.Locked? || phase.Writing?))
             || (a !in s.locks && locks == s.locks[a := m] && phase.Locked?)
    ensures Inv(At(s.(locks := locks), m, phase))
  {
  }

  /** Every other event leaves the tables alone. */
  lemma OtherEventsOnlyWait(s: System, e: Event)
    requires Inv(s)
    requires e.Commit? && e.m in s.movers && s.movers[e.m].phase.Writing? ==> HasKey(s.tables.entries, s.movers[e.m].request.key)
    ensures Inv(Apply(s, e)) && Apply(s, e).tables == s.tables
  {
    hide Balanced, Inv, ByKey;
    var after := Apply(s, e);
    if after != s {
      var v := s.movers[e.m];
      assert MoverInv(s, v) by { MoverOfInv(s, e.m); }
      var phase := after.movers[e.m].phase;
      if phase.Done? {
        FinishKeepsInv(s, e.m, phase.answer);
      } else {
        OnwardKeepsInv(s, e.m, after.locks, phase);
      }
    }
  }

  lemma MoverOfInv(s: System, m: nat)
    requires Inv(s) && m in s.movers
    ensures MoverInv(s, s.movers[m])
  {
  }

  /** The tables after an event are the tables before it or the sequential movement of the mover whose commit it was. */
  lemma EventIsSequential(s: System, e: Event)
    requires Inv(s)
    ensures var after := Apply(s, e);
            && Inv(after)
            && s.tables.entries <= after.tables.entries
            && after.movers.Keys == s.movers.Keys
            && (forall m <- s.movers :: after.movers[m].request == s.movers[m].request)
            && (after.tables == s.tables || (e.m in s.movers && after.tables == Moved(s.tables, s.movers[e.m].request).0))
            && (forall m <- s.movers :: s.movers[m].phase.Done? ==> after.movers[m] == s.movers[m])
  {
    hide Balanced, Inv;
    if e.Commit? && e.m in s.movers && s.movers[e.m].phase.Writing? && !HasKey(s.tables.entries, s.movers[e.m].request.key) {
      CommitIsSequential(s, e.m);
    } else {
      OtherEventsOnlyWait(s, e);
    }
  }

  /** The step that writes an entry under a key another account entered meanwhile. */
  predicate MeetsItsKey(s: System, e: Event) {
    e.Commit? && e.m in s.movers && s.movers[e.m].phase.Writing? && HasKey(s.tables.entries, s.movers[e.m].request.key)
  }

  /**
   A mover answered by an event is answered what the sequential movement answers at that point, exactly unless it crashed or its commit met
   its key, which only another account can have entered.
   */
  lemma AnswerIsSequential(s: System, e: Event)
    requires Inv(s) && e.m in s.movers && !s.movers[e.m].phase.Done?
    requires Apply(s, e).movers[e.m].phase.Done?
    ensures var answer := Apply(s, e).movers[e.m].phase.answer;
            var r := s.movers[e.m].request;
            && (answer == Moved(s.tables, r).1 <==> !e.Crash? && !MeetsItsKey(s, e))
            && (answer == Failure(DuplicatedRecord) <==> MeetsItsKey(s, e))
            && (MeetsItsKey(s, e) ==> ByKey(s.tables.entries, r.key).account != r.account)
  {
  }

  function Two(tables: Tables, locks: map<Account, nat>, a: Request, p: Phase, b: Request, q: Phase): System {
    System(tables, locks, map[0 := Mover(a, p), 1 := Mover(b, q)])
  }

  /** And it does meet its key: two accounts that looked before either committed. */
  lemma TwoAccountsOneKey(a: Request, b: Request)
    requires a.account != b.account && a.key == b.key && a.kind.Credit? && b.kind.Credit?
    requires 0 <= a.amount <= BIG_INTEGER_MAX && 0 <= b.amount <= BIG_INTEGER_MAX && InReach(a) && InReach(b)
    ensures var s := Two(Tables(map[], []), map[], a, Looking, b, Looking);
            var waiting := Run(s, [Look(0), Look(1)]);
            var locked := Run(waiting, [Lock(0), Lock(1)]);
            var writing := Run(locked, [Check(0), Check(1)]);
            var after := Run(writing, [Commit(0), Commit(1)]);
            Fresh(s) && 1 in after.movers && after.movers[1].phase == Done(Failure(DuplicatedRecord))
  {
    var none := Tables(map[], []);
    var locks := map[a.account := 0, b.account := 1];
    BothAreFresh(a, b);
    hide Apply, Run, Fresh, Two;
    BothLook(a, b);
    BothLock(a, b);
    BothCheck(a, b);
    OneCommits(a, b);
    RunTwo(Two(none, map[], a, Looking, b, Looking), Look(0), Look(1));
    RunTwo(Two(none, map[], a, Waiting, b, Waiting), Lock(0), Lock(1));
    RunTwo(Two(none, locks, a, Locked(0), b, Locked(0)), Check(0), Check(1));
    RunTwo(Two(none, locks, a, Writing(a.amount, a.amount), b, Writing(b.amount, b.amount)), Commit(0), Commit(1));
  }

  lemma BothAreFresh(a: Request, b: Request)
    ensures Fresh(Two(Tables(map[], []), map[], a, Looking, b, Looking))
  {
  }

  lemma BothLook(a: Request, b: Request)
    requires InReach(a) && InReach(b)
    ensures var none := Tables(map[], []);
            Apply(Apply(Two(none, map[], a, Looking, b, Looking), Look(0)), Look(1)) == Two(none, map[], a, Waiting, b, Waiting)
  {
  }

  lemma BothLock(a: Request, b: Request)
    requires a.account != b.account
    ensures var none := Tables(map[], []);
            Apply(Apply(Two(none, map[], a, Waiting, b, Waiting), Lock(0)), Lock(1))
            == Two(none, map[a.account := 0, b.account := 1], a, Locked(0), b, Locked(0))
  {
    hide HasKey, ByKey, SignedAmount;
    var none := Tables(map[], []);
    assert Apply(Two(none, map[], a, Waiting, b, Waiting), Lock(0)) == Two(none, map[a.account := 0], a, Locked(0), b, Waiting);
  }

  lemma BothCheck(a: Request, b: Request)
    requires a.kind.Credit? && b.kind.Credit? && 0 <= a.amount <= BIG_INTEGER_MAX && 0 <= b.amount <= BIG_INTEGER_MAX
    ensures var (none, locks) := (Tables(map[], []), map[a.account := 0, b.account := 1]);
            Apply(Apply(Two(none, locks, a, Locked(0), b, Locked(0)), Check(0)), Check(1))
            == Two(none, locks, a, Writing(a.amount, a.amount), b, Writing(b.amount, b.amount))
  {
  }

  lemma OneCommits(a: Request, b: Request)
    requires a.key == b.key
    ensures var (none, locks) := (Tables(map[], []), map[a.account := 0, b.account := 1]);
            var after := Apply(Apply(Two(none, locks, a, Writing(a.amount, a.amount), b, Writing(b.amount, b.amount)), Commit(0)), Commit(1));
            1 in after.movers && after.movers[1].phase == Done(Failure(DuplicatedRecord))
  {
    var (none, locks) := (Tables(map[], []), map[a.account := 0, b.account := 1]);
    var first := Apply(Two(none, locks, a, Writing(a.amount, a.amount), b, Writing(b.amount, b.amount)), Commit(0));
    assert first.tables.entries[0].key == b.key;
  }

  lemma RunTwo(s: System, first: Event, second: Event)
    ensures Run(s, [first, second]) == Apply(Apply(s, first), second)
  {
    hide Apply;
    assert [first, second][1..] == [second] && [second][1..] == [];
    assert Run(s, [first, second]) == Run(Apply(s, first), [second]);
    assert Run(Apply(s, first), [second]) == Run(Apply(Apply(s, first), second), []);
  }

  lemma {:induction false} RunKeepsInv(s: System, events: seq<Event>)
    requires Inv(s)
    ensures Inv(Run(s, events))
    ensures s.tables.entries <= Run(s, events).tables.entries
    ensures Run(s, events).movers.Keys == s.movers.Keys
    ensures forall m <- s.movers :: s.movers[m].phase.Done? ==> Run(s, events).movers[m] == s.movers[m]
    ensures forall m <- s.movers :: Run(s, events).movers[m].request == s.movers[m].request
    decreases |events|
  {
    if events != [] {
      EventIsSequential(s, events[0]);
      RunKeepsInv(Apply(s, events[0]), events[1..]);
    }
  }

  /**
   However the movers interleave and wherever they crash: the ledger only grows, every balance and every running balance is the sum
   of the entries before it and in range, no key is entered twice, and all the movers that were answered for one key were answered the same entry.
   */
  lemma EveryRunIsBalanced(s: System, events: seq<Event>)
    requires Fresh(s)
    ensures var after := Run(s, events);
            && Balanced(after.tables)
            && s.tables.entries <= after.tables.entries
            && (forall m, n :: (Answered(after, m) && Answered(after, n) && after.movers[m].request.key == after.movers[n].request.key)
                           ==> after.movers[m].phase.answer == after.movers[n].phase.answer)
  {
    RunKeepsInv(s, events);
    var after := Run(s, events);
    forall m, n | Answered(after, m) && Answered(after, n) && after.movers[m].request.key == after.movers[n].request.key
      ensures after.movers[m].phase.answer == after.movers[n].phase.answer
    {
      assert MoverInv(after, after.movers[m]) && MoverInv(after, after.movers[n]);
    }
  }

  /** Nobody who was answered or died keeps a balance row: one nobody is moving is free, and whoever waits for it gets it at once. */
  lemma EveryRunLetsGo(s: System, events: seq<Event>, m: nat)
    requires Fresh(s)
    ensures var after := Run(s, events);
            m in after.movers && after.movers[m].phase.Waiting?
            && (forall n <- after.movers :: n != m && after.movers[n].request.account == after.movers[m].request.account ==>
                  !after.movers[n].phase.Locked? && !after.movers[n].phase.Writing?) ==>
              m in Apply(after, Lock(m)).movers && Apply(after, Lock(m)).movers[m].phase == Locked(Held(after.tables, after.movers[m].request.account))
  {
    RunKeepsInv(s, events);
  }

  /** Whoever holds a balance row reread under the lock what is committed, is the only one to hold it, and is about to write on top of exactly that. */
  lemma EveryRunRereadsUnderTheLock(s: System, events: seq<Event>, m: nat, n: nat)
    requires Fresh(s)
    ensures var after := Run(s, events);
            Holds(after, m) ==>
              var v := after.movers[m];
              && (v.phase.Locked? ==> v.phase.amount == Held(after.tables, v.request.account))
              && (v.phase.Writing? ==> v.phase.balance == Held(after.tables, v.request.account) + v.phase.signed)
              && (v.phase.Writing? ==> SignedAmount(v.request.kind, v.request.amount) == Success(v.phase.signed))
              && (Holds(after, n) && after.movers[n].request.account == v.request.account ==> n == m)
  {
    RunKeepsInv(s, events);
    var after := Run(s, events);
    if Holds(after, m) {
      assert MoverInv(after, after.movers[m]);
    }
  }

  ghost predicate Answered(s: System, m: nat) {
    m in s.movers && s.movers[m].phase.Done? && s.movers[m].phase.answer.Success?
  }
}
