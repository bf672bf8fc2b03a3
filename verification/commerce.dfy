/**
 Purchases and ownership under services/commerce_service.py: one ownership row
 whatever paid for it, its credits entered with it, and a payment whose status moves by compare-and-set.
 */
module Commerce {
  import opened Outcomes
  import opened Ledger

  datatype Status = Pending | Paid | Canceled | Declined | Refunded | ChargedBack

  /** The statuses a payment never leaves as a set. */
  predicate Settled(s: Status) {
    s == Paid || s == Refunded || s == ChargedBack
  }

  /** Whether a word moves a payment at all. */
  predicate Moves(current: Status, said: Status) {
    && current != said
    && said != Pending
    && current != Refunded
    && (Settled(current) ==> Settled(said))
  }

  /** The sequential transition function one payment follows. */
  function Transition(current: Status, said: Status): Status {
    if Moves(current, said) then said else current
  }

  /**
   Where each word takes each payment: a waiting one anywhere but back, a canceled or declined one too, a paid one only to a refund or a dispute,
   a dispute to a refund or, won, to paid again, and a refunded one nowhere.
   */
  lemma WordsThatMove(current: Status, said: Status)
    ensures current == Pending || current == Canceled || current == Declined ==> Transition(current, said) == if said == Pending then current else said
    ensures current == Paid ==> Transition(current, said) == if said == Refunded || said == ChargedBack then said else Paid
    ensures current == ChargedBack ==> Transition(current, said) == if said == Refunded || said == Paid then said else ChargedBack
    ensures current == Refunded ==> Transition(current, said) == Refunded
    ensures Moves(current, said) <==> Transition(current, said) != current
  {
  }

  function Fold(start: Status, words: seq<Status>): Status {
    if words == [] then start else Transition(Fold(start, words[..|words| - 1]), words[|words| - 1])
  }

  /** Over any words at all: pending is not reached again, refunded absorbs, and the settled statuses are closed. */
  lemma {:induction false} WordsNeverUnsettle(start: Status, words: seq<Status>)
    ensures var end := Fold(start, words);
            && (end == Pending ==> start == Pending && forall w <- words :: w == Pending)
            && (start == Refunded ==> end == Refunded)
            && (Settled(start) ==> Settled(end))
            && (end != start ==> end in words)
  {
    if words != [] {
      WordsNeverUnsettle(start, words[..|words| - 1]);
      assert words == words[..|words| - 1] + [words[|words| - 1]];
    }
  }

  // ---------------------------------------------------------------- the tables

  datatype Product = Product(credits: nat, currency: Option<nat>, currencyTenant: Option<nat>)

  datatype Purchase = Purchase(user: nat, product: nat, status: Status, everPaid: bool)

  /** Purchases, the ownership rows by user and product with what paid for each, and the ledger. */
  datatype Shop = Shop(purchases: map<nat, Purchase>, owned: map<(nat, nat), Source>, tables: Tables)

  datatype Catalog = Catalog(products: map<nat, Product>, tenants: map<nat, Option<nat>>)

  predicate Carries(product: Product) {
    product.credits > 0 && product.currency.Some?
  }

  function CreditRequest(c: Catalog, user: nat, product: nat, source: Source, grant: Option<nat>): Request
    requires product in c.products && user in c.tenants && c.products[product].currency.Some?
  {
    var p := c.products[product];
    Request(Account(user, p.currency.value), Credit, p.credits, ProductKey(source), grant, Some(product), c.tenants[user], p.currencyTenant)
  }

  /** The ownership row and the credits it brings, or neither when the ledger refuses; true when the row was not there. */
  function Granted(shop: Shop, c: Catalog, user: nat, product: nat, source: Source, grant: Option<nat>): Result<(Shop, bool), Error>
    requires product in c.products && user in c.tenants
  {
    if (user, product) in shop.owned then Success((shop, false))
    else
      var handed := shop.(owned := shop.owned[(user, product) := source]);
      if !Carries(c.products[product]) then Success((handed, true))
      else
        var (tables, answer) := Moved(shop.tables, CreditRequest(c, user, product, source, grant));
        if answer.Failure? then Failure(answer.error) else Success((handed.(tables := tables), true))
  }

  /** A compare-and-set from the status a call decided on, with the product handed over in the same commit when the word is paid. */
  function Won(shop: Shop, c: Catalog, p: nat, said: Status): Result<Shop, Error>
    requires p in shop.purchases && shop.purchases[p].product in c.products && shop.purchases[p].user in c.tenants
  {
    var row := shop.purchases[p];
    var moved := shop.(purchases := shop.purchases[p := row.(status := said, everPaid := row.everPaid || said == Paid)]);
    if said != Paid then Success(moved)
    else
      var granted := Granted(moved, c, row.user, row.product, OfPurchase(p), None);
      if granted.Failure? then Failure(granted.error) else Success(granted.value.0)
  }

  ghost predicate Known(shop: Shop, c: Catalog) {
    forall p <- shop.purchases :: shop.purchases[p].product in c.products && shop.purchases[p].user in c.tenants
  }

  /** Who a source pays for: the buyer of a purchase, or whoever a plan grant was for. */
  datatype Plans = Plans(grants: map<Source, (nat, nat)>)

  ghost predicate PaysFor(shop: Shop, plans: Plans, source: Source, user: nat, product: nat) {
    match source
    case OfPurchase(p) => p in shop.purchases && shop.purchases[p].user == user && shop.purchases[p].product == product
    case OfGrant(_, _) => source in plans.grants && plans.grants[source] == (user, product)
  }

  /** An entry that is the credits of a product. */
  predicate IsProductEntry(e: Entry, user: nat, product: nat) {
    e.key.ProductKey? && e.account.user == user && e.product == Some(product)
  }

  /** Owned, under the key of what paid for it, and the credits of the product in its currency. */
  ghost predicate EntryOwned(shop: Shop, c: Catalog, e: Entry)
    requires e.key.ProductKey?
  {
    && e.product.Some?
    && (e.account.user, e.product.value) in shop.owned
    && shop.owned[(e.account.user, e.product.value)] == e.key.source
    && IsCreditsOf(c, e, e.product.value)
  }

  predicate IsCreditsOf(c: Catalog, e: Entry, product: nat) {
    product in c.products && e.kind == Credit && e.amount == c.products[product].credits && Some(e.account.currency) == c.products[product].currency
  }

  /**
   Every ownership row names a source that pays for it, the credits of a product are entered under the key of that very source, and an
   owned product that carries credits has entered them.
   */
  ghost predicate Explained(shop: Shop, c: Catalog, plans: Plans) {
    && (forall own <- shop.owned :: own.1 in c.products && PaysFor(shop, plans, shop.owned[own], own.0, own.1))
    && (forall e <- shop.tables.entries :: e.key.ProductKey? ==> EntryOwned(shop, c, e))
    && (forall own <- shop.owned :: c.products[own.1].credits > 0 && c.products[own.1].currency != None ==> HasKey(shop.tables.entries, ProductKey(shop.owned[own])))
  }

  ghost predicate Valid(shop: Shop, c: Catalog, plans: Plans) {
    && Known(shop, c)
    && Balanced(shop.tables)
    && Explained(shop, c, plans)
    // What was ever paid for is owned, in the same state.
    && (forall p <- shop.purchases :: shop.purchases[p].status == Paid ==> shop.purchases[p].everPaid)
    && (forall p <- shop.purchases :: shop.purchases[p].everPaid ==> (shop.purchases[p].user, shop.purchases[p].product) in shop.owned)
  }

  /** Never credits without the ownership row, and at most one entry of them per user and product, whatever mix of payments asked. */
  lemma CreditsOncePerOwner(shop: Shop, c: Catalog, plans: Plans, user: nat, product: nat, i: nat, j: nat)
    requires Valid(shop, c, plans)
    requires i < |shop.tables.entries| && j < |shop.tables.entries|
    requires IsProductEntry(shop.tables.entries[i], user, product) && IsProductEntry(shop.tables.entries[j], user, product)
    ensures i == j && (user, product) in shop.owned
  {
  }

  /** Nobody who does not own the product had its credits entered by the same source. */
  lemma KeyIsNew(shop: Shop, c: Catalog, plans: Plans, user: nat, product: nat, source: Source)
    requires PaysFor(shop, plans, source, user, product) && (user, product) !in shop.owned
    requires forall own <- shop.owned :: PaysFor(shop, plans, shop.owned[own], own.0, own.1)
    requires forall e <- shop.tables.entries :: e.key.ProductKey? ==> EntryOwned(shop, c, e)
    ensures !HasKey(shop.tables.entries, ProductKey(source))
  {
  }

  /** Handing a product over keeps all of it, and when the product carries credits it enters them exactly then. */
  lemma GrantKeepsExplained(shop: Shop, c: Catalog, plans: Plans, user: nat, product: nat, source: Source, grant: Option<nat>)
    requires Balanced(shop.tables) && product in c.products && user in c.tenants
    requires PaysFor(shop, plans, source, user, product) && Explained(shop, c, plans)
    ensures var granted := Granted(shop, c, user, product, source, grant);
            granted.Success? ==>
              var after := granted.value.0;
              && after.purchases == shop.purchases
              && after.owned.Keys == shop.owned.Keys + {(user, product)}
              && (granted.value.1 <==> (user, product) !in shop.owned)
              && shop.tables.entries <= after.tables.entries
              && |after.tables.entries| == |shop.tables.entries| + (if granted.value.1 && c.products[product].credits > 0 && c.products[product].currency != None then 1 else 0)
              && ((user, product) in shop.owned ==> after == shop)
              && Balanced(after.tables) && Explained(after, c, plans)
  {
    hide Balanced, ByKey, Refused;
    if (user, product) !in shop.owned {
      KeyIsNew(shop, c, plans, user, product, source);
      if Carries(c.products[product]) {
        var r := CreditRequest(c, user, product, source, grant);
        MovedKeepsBalanced(shop.tables, r);
        if Refused(shop.tables, r).None? {
          HandOverExplained(shop, c, plans, user, product, source, Moved(shop.tables, r).0, [Written(shop.tables, r)]);
        }
      } else {
        HandOverExplained(shop, c, plans, user, product, source, shop.tables, []);
      }
    }
  }

  /** A product is not handed over exactly when it is not owned yet, has credits and a currency, and the ledger refuses the movement of those. */
  lemma GrantFailsExactlyWhen(shop: Shop, c: Catalog, user: nat, product: nat, source: Source, grant: Option<nat>)
    requires product in c.products && user in c.tenants
    ensures var p := c.products[product];
            Granted(shop, c, user, product, source, grant).Failure? <==>
              && (user, product) !in shop.owned && p.credits > 0 && p.currency != None
              && Moved(shop.tables, Request(Account(user, p.currency.value), Credit, p.credits, ProductKey(source), grant, Some(product),
                                            c.tenants[user], p.currencyTenant)).1.Failure?
  {
    hide Moved;
  }

  /** And a status does not move exactly when the word is paid and the product is not handed over. */
  lemma WinFailsExactlyWhen(shop: Shop, c: Catalog, p: nat, said: Status)
    requires p in shop.purchases && shop.purchases[p].product in c.products && shop.purchases[p].user in c.tenants
    ensures Won(shop, c, p, said).Failure? <==>
              said == Paid && Granted(shop, c, shop.purchases[p].user, shop.purchases[p].product, OfPurchase(p), None).Failure?
  {
    hide Moved;
  }

  lemma HandOverExplained(shop: Shop, c: Catalog, plans: Plans, user: nat, product: nat, source: Source, tables: Tables, added: seq<Entry>)
    requires Explained(shop, c, plans) && product in c.products && (user, product) !in shop.owned
    requires PaysFor(shop, plans, source, user, product)
    requires tables.entries == shop.tables.entries + added
    requires forall e <- added :: IsProductEntry(e, user, product) && e.key == ProductKey(source) && IsCreditsOf(c, e, product)
    requires Carries(c.products[product]) ==> added != []
    ensures Explained(shop.(owned := shop.owned[(user, product) := source], tables := tables), c, plans)
  {
    var after := shop.(owned := shop.owned[(user, product) := source], tables := tables);
    forall e <- after.tables.entries | e.key.ProductKey? ensures EntryOwned(after, c, e) {
      assert e in shop.tables.entries ==> EntryOwned(shop, c, e);
    }
    forall own <- after.owned | Carries(c.products[own.1]) ensures HasKey(after.tables.entries, ProductKey(after.owned[own])) {
      if own == (user, product) {
        assert added[0] in after.tables.entries;
      } else {
        var e :| e in shop.tables.entries && e.key == ProductKey(shop.owned[own]);
        assert e in after.tables.entries;
      }
    }
  }

  lemma WinKeepsValid(shop: Shop, c: Catalog, plans: Plans, p: nat, said: Status)
    requires Valid(shop, c, plans) && p in shop.purchases
    ensures var won := Won(shop, c, p, said);
            won.Success? ==>
              && Valid(won.value, c, plans)
              && shop.tables.entries <= won.value.tables.entries
              && shop.owned.Keys <= won.value.owned.Keys
              && won.value.purchases == shop.purchases[p := shop.purchases[p].(status := said, everPaid := shop.purchases[p].everPaid || said == Paid)]
              && won.value.owned.Keys == (if said == Paid then shop.owned.Keys + {(shop.purchases[p].user, shop.purchases[p].product)} else shop.owned.Keys)
              && (said != Paid || (shop.purchases[p].user, shop.purchases[p].product) in shop.owned ==> won.value.tables == shop.tables)
  {
    hide Balanced, Moved, Explained, Granted;
    var row := shop.purchases[p];
    var moved := shop.(purchases := shop.purchases[p := row.(status := said, everPaid := row.everPaid || said == Paid)]);
    StatusKeepsExplained(shop, c, plans, p, moved);
    if said == Paid {
      assert PaysFor(moved, plans, OfPurchase(p), row.user, row.product);
      GrantKeepsExplained(moved, c, plans, row.user, row.product, OfPurchase(p), None);
    }
    hide PaysFor;
  }

  /** A status says nothing of who bought what. */
  lemma StatusKeepsExplained(shop: Shop, c: Catalog, plans: Plans, p: nat, moved: Shop)
    requires Explained(shop, c, plans) && p in shop.purchases && p in moved.purchases
    requires moved == shop.(purchases := shop.purchases[p := moved.purchases[p]])
    requires moved.purchases[p].user == shop.purchases[p].user && moved.purchases[p].product == shop.purchases[p].product
    ensures Explained(moved, c, plans)
  {
  }

  // ---------------------------------------------------------------- one caller

  /** What a call that decided on the status `seen` does to the shop, and what it answers. */
  function SettledBy(shop: Shop, c: Catalog, p: nat, seen: Status, said: Status): (Shop, Option<Error>)
    requires p in shop.purchases && shop.purchases[p].product in c.products && shop.purchases[p].user in c.tenants
  {
    if !Moves(seen, said) || !Moves(shop.purchases[p].status, said) then (shop, None)
    else
      var won := Won(shop, c, p, said);
      if won.Failure? then (shop, Some(won.error)) else (won.value, None)
  }

  /** A word that does not move the status a call read ends it. Any other one moves the status there is, and hands the product over exactly when that becomes paid; a ledger that refuses leaves everything. */
  lemma SettlingDecides(shop: Shop, c: Catalog, plans: Plans, p: nat, seen: Status, said: Status)
    requires Valid(shop, c, plans) && p in shop.purchases
    requires shop.purchases[p].product in c.products && shop.purchases[p].user in c.tenants
    ensures var ((after, refused), row) := (SettledBy(shop, c, p, seen, said), shop.purchases[p]);
            && (Transition(seen, said) == seen ==> after == shop && refused == None)
            && (refused != None ==> after == shop)
            && (Transition(seen, said) != seen && refused == None ==>
                  && p in after.purchases && after.purchases[p].status == Transition(row.status, said)
                  && (Transition(row.status, said) == row.status ==> after == shop)
                  && after.owned.Keys == (if Transition(row.status, said) == Paid && row.status != Paid then shop.owned.Keys + {(row.user, row.product)} else shop.owned.Keys))
  {
    WordsThatMove(seen, said);
    WordsThatMove(shop.purchases[p].status, said);
    WinKeepsValid(shop, c, plans, p, said);
    hide Valid, Won, Moves;
  }

  class CommerceService {
    const catalog: Catalog
    const credits: CreditTransactionService
    var purchases: map<nat, Purchase>
    var owned: map<(nat, nat), Source>

    ghost function Value(): Shop
      reads this, credits
    {
      Shop(purchases, owned, credits.Value())
    }

    constructor (catalog: Catalog, credits: CreditTransactionService)
      ensures this.catalog == catalog && this.credits == credits
      ensures Value() == Shop(map[], map[], credits.Value())
    {
      this.catalog, this.credits := catalog, credits;
      purchases, owned := map[], map[];
    }

    method Grant(user: nat, product: nat, source: Source, grant: Option<nat>) returns (answer: Result<bool, Error>)
      requires product in catalog.products && user in catalog.tenants
      requires Balanced(credits.Value())
      modifies this`owned, credits
      ensures var granted := Granted(old(Value()), catalog, user, product, source, grant);
              && (granted.Success? ==> Value() == granted.value.0 && answer == Success(granted.value.1))
              && (granted.Failure? ==> Value() == old(Value()) && answer == Failure(granted.error))
      ensures Balanced(credits.Value())
    {
      if (user, product) in owned {
        return Success(false);
      }
      var before := owned;
      owned := owned[(user, product) := source];
      var p := catalog.products[product];
      if Carries(p) {
        var moved := credits.Move(CreditRequest(catalog, user, product, source, grant));
        if moved.Failure? {
          // The refusal leaves through the caller's rollback, which takes the ownership row back with it.
          owned := before;
          return Failure(moved.error);
        }
      }
      return Success(true);
    }

    /** A new purchase waits, and one of a product already owned is refused. */
    method OpenPurchase(reference: nat, user: nat, product: nat) returns (written: bool)
      requires reference !in purchases
      modifies this`purchases
      ensures written <==> (user, product) !in owned
      ensures purchases == if written then old(purchases)[reference := Purchase(user, product, Pending, false)] else old(purchases)
    {
      if (user, product) in owned {
        return false;
      }
      purchases := purchases[reference := Purchase(user, product, Pending, false)];
      return true;
    }

    /** The call that loses the write decides again on what it reads then. */
    method SettlePurchase(p: nat, seen: Status, said: Status) returns (refused: Option<Error>)
      requires p in purchases && purchases[p].product in catalog.products && purchases[p].user in catalog.tenants
      requires Balanced(credits.Value())
      modifies this`purchases, this`owned, credits
      ensures (Value(), refused) == SettledBy(old(Value()), catalog, p, seen, said)
      ensures Balanced(credits.Value())
      decreases if purchases[p].status == seen then 0 else 1
    {
      if seen == said {
        return None;
      }
      if said == Pending || seen == Refunded || (Settled(seen) && !Settled(said)) {
        return None;
      }
      if purchases[p].status != seen {
        refused := SettlePurchase(p, purchases[p].status, said);
        return;
      }
      var row := purchases[p];
      purchases := purchases[p := row.(status := said, everPaid := row.everPaid || said == Paid)];
      if said == Paid {
        var granted := Grant(row.user, row.product, OfPurchase(p), None);
        if granted.Failure? {
          purchases := purchases[p := row];
          assert purchases == old(purchases);
          return Some(granted.error);
        }
      }
      return None;
    }
  }

  // ---------------------------------------------------------------- notices that cross

  /** A call reads the row, then writes against the status it read; the write that misses goes back to reading. */
  datatype Phase = Idle | Seen(status: Status, version: nat) | Answered | Lost

  datatype Call = Call(said: Status, retries: nat, phase: Phase)

  /** The calls about one payment, where it started, the order they took effect in, and which of them moved the row. */
  datatype Market = Market(shop: Shop, payment: nat, calls: map<nat, Call>, start: Status, order: seq<nat>, wins: seq<nat>)

  /** An event of a call about this payment, or of what else the shop does meanwhile: another payment moves, one is opened, a plan gives. */
  datatype Event =
    | Read(call: nat) | Try(call: nat) | Die(call: nat)
    | Other(payment: nat, said: Status) | Open(payment: nat, user: nat, product: nat) | PlanGrant(source: Source, grant: nat)

  function StatusOf(m: Market): Status
    requires m.payment in m.shop.purchases
  {
    m.shop.purchases[m.payment].status
  }

  function Effect(m: Market, call: nat, shop: Shop, wins: seq<nat>): Market
    requires call in m.calls
  {
    m.(calls := m.calls[call := m.calls[call].(phase := Answered)], order := m.order + [call], shop := shop, wins := wins)
  }

  /** The call alone, and the shop with it when its write lands. */
  ghost function CallStep(m: Market, c: Catalog, e: Event): Market
    requires Known(m.shop, c) && m.payment in m.shop.purchases
    requires (e.Read? || e.Try? || e.Die?) && e.call in m.calls
  {
    var call := m.calls[e.call];
    if e.Read? && call.phase == Idle then
      if !Moves(StatusOf(m), call.said) then Effect(m, e.call, m.shop, m.wins)
      else m.(calls := m.calls[e.call := call.(phase := Seen(StatusOf(m), |m.wins|))])
    else if e.Try? && call.phase.Seen? then
      if StatusOf(m) != call.phase.status then m.(calls := m.calls[e.call := call.(phase := Idle, retries := call.retries + 1)])
      else
        var won := Won(m.shop, c, m.payment, call.said);
        if won.Failure? then m.(calls := m.calls[e.call := call.(phase := Lost)])
        else Effect(m, e.call, won.value, m.wins + [e.call])
    else if e.Die? && call.phase != Answered then m.(calls := m.calls[e.call := call.(phase := Lost)])
    else m
  }

  /** The rest of the shop. */
  ghost function ShopStep(shop: Shop, c: Catalog, plans: Plans, payment: nat, e: Event): Shop
    requires Known(shop, c)
  {
    match e
    case Other(p, said) =>
      if p == payment || p !in shop.purchases || !Moves(shop.purchases[p].status, said) then shop
      else
        var won := Won(shop, c, p, said);
        if won.Failure? then shop else won.value
    case Open(p, user, product) =>
      if p in shop.purchases || product !in c.products || user !in c.tenants || (user, product) in shop.owned then shop
      else shop.(purchases := shop.purchases[p := Purchase(user, product, Pending, false)])
    case PlanGrant(source, grant) =>
      if !source.OfGrant? || source !in plans.grants then shop
      else
        var (user, product) := plans.grants[source];
        if product !in c.products || user !in c.tenants then shop
        else
          var granted := Granted(shop, c, user, product, source, Some(grant));
          if granted.Failure? then shop else granted.value.0
    case _ => shop
  }

  ghost function Apply(m: Market, c: Catalog, plans: Plans, e: Event): Market
    requires Known(m.shop, c) && m.payment in m.shop.purchases
  {
    if e.Read? || e.Try? || e.Die? then (if e.call in m.calls then CallStep(m, c, e) else m)
    else m.(shop := ShopStep(m.shop, c, plans, m.payment, e))
  }

  function SaidBy(calls: map<nat, Call>, k: nat): Status {
    if k in calls then calls[k].said else Pending
  }

  function Words(calls: map<nat, Call>, ids: seq<nat>): seq<Status> {
    if ids == [] then [] else Words(calls, ids[..|ids| - 1]) + [SaidBy(calls, ids[|ids| - 1])]
  }

  ghost predicate Distinct(ids: seq<nat>) {
    forall i, j :: 0 <= i < j < |ids| ==> ids[i] != ids[j]
  }

  ghost predicate Ordered(m: Market)
    requires m.payment in m.shop.purchases
  {
    && (forall k <- m.order :: k in m.calls && m.calls[k].phase == Answered)
    && Distinct(m.order)
    && StatusOf(m) == Fold(m.start, Words(m.calls, m.order))
    && (forall k <- m.wins :: k in m.calls && m.calls[k].phase == Answered)
    && Distinct(m.wins)
  }

  ghost predicate CallInv(m: Market, k: nat)
    requires k in m.calls && m.payment in m.shop.purchases
  {
    var call := m.calls[k];
    && (call.phase == Answered ==> k in m.order)
    && call.retries <= |m.wins|
    && (k in m.wins ==> call.retries < |m.wins|)
    && (call.phase.Seen? ==>
          && Moves(call.phase.status, call.said)
          && call.retries <= call.phase.version <= |m.wins|
          && (call.phase.version == |m.wins| ==> call.phase.status == StatusOf(m)))
  }

  ghost predicate Inv(m: Market, c: Catalog, plans: Plans) {
    && Valid(m.shop, c, plans)
    && m.payment in m.shop.purchases
    && Ordered(m)
    && forall k <- m.calls :: CallInv(m, k)
  }

  ghost predicate Fresh(m: Market, c: Catalog, plans: Plans) {
    && Valid(m.shop, c, plans)
    && m.payment in m.shop.purchases && m.start == StatusOf(m)
    && m.order == [] && m.wins == []
    && forall k <- m.calls :: m.calls[k].phase == Idle && m.calls[k].retries == 0
  }

  lemma {:induction false} WordsFrame(before: map<nat, Call>, after: map<nat, Call>, ids: seq<nat>)
    requires forall k: nat :: SaidBy(after, k) == SaidBy(before, k)
    ensures Words(after, ids) == Words(before, ids)
    decreases |ids|
  {
    if ids != [] {
      WordsFrame(before, after, ids[..|ids| - 1]);
    }
  }

  lemma FoldOfLonger(calls: map<nat, Call>, start: Status, ids: seq<nat>, k: nat)
    ensures Fold(start, Words(calls, ids + [k])) == Transition(Fold(start, Words(calls, ids)), SaidBy(calls, k))
  {
  }

  /** A call that changes no row: it reads, misses its write, is refused or dies. */
  lemma QuietKeepsInv(m: Market, c: Catalog, plans: Plans, k: nat, call: Call)
    requires Inv(m, c, plans) && k in m.calls && m.calls[k].phase != Answered
    requires call.said == m.calls[k].said && call.phase != Answered
    requires CallInv(m.(calls := m.calls[k := call]), k)
    ensures Inv(m.(calls := m.calls[k := call]), c, plans)
  {
    hide Valid, Fold, Words, Moves;
    var after := m.(calls := m.calls[k := call]);
    WordsFrame(m.calls, after.calls, m.order);
    forall n <- after.calls ensures CallInv(after, n) {
      assert n != k ==> CallInv(m, n);
    }
  }

  /** A call that takes effect: the status moves as the sequential function says, and it joins the order. */
  lemma EffectKeepsInv(m: Market, c: Catalog, plans: Plans, k: nat, shop: Shop, wins: seq<nat>)
    requires Inv(m, c, plans) && k in m.calls && (m.calls[k].phase == Idle || m.calls[k].phase.Seen?)
    requires Valid(shop, c, plans) && m.payment in shop.purchases
    requires shop.purchases[m.payment].status == Transition(StatusOf(m), m.calls[k].said)
    requires (wins == m.wins && shop.purchases[m.payment].status == StatusOf(m)) || wins == m.wins + [k]
    ensures Inv(Effect(m, k, shop, wins), c, plans)
  {
    hide Valid, Fold, Transition, Words, Moves;
    var after := Effect(m, k, shop, wins);
    assert k !in m.order && k !in m.wins by { assert m.calls[k].phase != Answered; }
    FoldOfLonger(after.calls, m.start, m.order, k);
    WordsFrame(m.calls, after.calls, m.order);
    forall n <- after.calls ensures CallInv(after, n) {
      assert CallInv(m, n);
    }
  }

  lemma CallStepKeepsInv(m: Market, c: Catalog, plans: Plans, e: Event)
    requires Inv(m, c, plans) && (e.Read? || e.Try? || e.Die?) && e.call in m.calls
    ensures Known(m.shop, c) && Inv(CallStep(m, c, e), c, plans)
  {
    hide Fold, Won, Balanced, EntryOwned, PaysFor;
    var call := m.calls[e.call];
    assert CallInv(m, e.call);
    if e.Read? && call.phase == Idle {
      if !Moves(StatusOf(m), call.said) {
        EffectKeepsInv(m, c, plans, e.call, m.shop, m.wins);
      } else {
        QuietKeepsInv(m, c, plans, e.call, call.(phase := Seen(StatusOf(m), |m.wins|)));
      }
    } else if e.Try? && call.phase.Seen? {
      if StatusOf(m) != call.phase.status {
        QuietKeepsInv(m, c, plans, e.call, call.(phase := Idle, retries := call.retries + 1));
      } else {
        var won := Won(m.shop, c, m.payment, call.said);
        if won.Failure? {
          QuietKeepsInv(m, c, plans, e.call, call.(phase := Lost));
        } else {
          WinKeepsValid(m.shop, c, plans, m.payment, call.said);
          EffectKeepsInv(m, c, plans, e.call, won.value, m.wins + [e.call]);
        }
      }
    } else if e.Die? && call.phase != Answered {
      QuietKeepsInv(m, c, plans, e.call, call.(phase := Lost));
    }
  }

  /** Whatever else the shop does keeps it valid and this payment where it is. */
  lemma ShopStepKeepsValid(shop: Shop, c: Catalog, plans: Plans, payment: nat, e: Event)
    requires Valid(shop, c, plans) && payment in shop.purchases
    ensures var after := ShopStep(shop, c, plans, payment, e);
            && Valid(after, c, plans)
            && payment in after.purchases && after.purchases[payment] == shop.purchases[payment]
            && shop.owned.Keys <= after.owned.Keys && shop.tables.entries <= after.tables.entries
  {
    hide Balanced, Moved;
    match e
    case Other(p, said) =>
      if p in shop.purchases { WinKeepsValid(shop, c, plans, p, said); }
    case Open(p, user, product) =>
      OpenKeepsValid(shop, c, plans, payment, p, user, product);
    case PlanGrant(source, grant) =>
      if source.OfGrant? && source in plans.grants {
        var (user, product) := plans.grants[source];
        if product in c.products && user in c.tenants {
          GrantKeepsExplained(shop, c, plans, user, product, source, Some(grant));
        }
      }
    case _ =>
  }

  /** The rest of the shop is no idler: another payment moves as its words say, a purchase opens, and a plan hands its product over, unless the ledger refuses. */
  lemma ShopMoves(shop: Shop, c: Catalog, plans: Plans, payment: nat, e: Event)
    requires Valid(shop, c, plans) && payment in shop.purchases
    ensures var after := ShopStep(shop, c, plans, payment, e);
            e.Other? && e.payment != payment && e.payment in shop.purchases && Moves(shop.purchases[e.payment].status, e.said) ==>
              Won(shop, c, e.payment, e.said).Success? ==> e.payment in after.purchases && after.purchases[e.payment].status == e.said
    ensures var after := ShopStep(shop, c, plans, payment, e);
            e.Open? && e.payment !in shop.purchases && e.product in c.products && e.user in c.tenants && (e.user, e.product) !in shop.owned ==>
              after == shop.(purchases := shop.purchases[e.payment := Purchase(e.user, e.product, Pending, false)])
    ensures var after := ShopStep(shop, c, plans, payment, e);
            e.PlanGrant? && e.source.OfGrant? && e.source in plans.grants ==>
              var (user, product) := plans.grants[e.source];
              product in c.products && user in c.tenants ==>
                Granted(shop, c, user, product, e.source, Some(e.grant)).Success? ==> (user, product) in after.owned
  {
    hide Balanced, Moved;
    if e.Other? && e.payment in shop.purchases {
      WinKeepsValid(shop, c, plans, e.payment, e.said);
    }
    if e.PlanGrant? && e.source.OfGrant? && e.source in plans.grants {
      var (user, product) := plans.grants[e.source];
      if product in c.products && user in c.tenants {
        GrantKeepsExplained(shop, c, plans, user, product, e.source, Some(e.grant));
      }
    }
  }

  /** A call that dies is lost, and one that reads or tries what it may not does nothing. */
  lemma DyingIsLost(m: Market, c: Catalog, e: Event)
    requires Known(m.shop, c) && m.payment in m.shop.purchases && e.Die? && e.call in m.calls
    ensures CallStep(m, c, e) == if m.calls[e.call].phase == Answered then m else m.(calls := m.calls[e.call := m.calls[e.call].(phase := Lost)])
  {
  }

  lemma OpenKeepsValid(shop: Shop, c: Catalog, plans: Plans, payment: nat, p: nat, user: nat, product: nat)
    requires Valid(shop, c, plans)
    ensures Valid(ShopStep(shop, c, plans, payment, Open(p, user, product)), c, plans)
  {
  }

  /** One event keeps everything. */
  lemma EventKeepsInv(m: Market, c: Catalog, plans: Plans, e: Event)
    requires Inv(m, c, plans)
    ensures Known(m.shop, c) && m.payment in m.shop.purchases && Inv(Apply(m, c, plans, e), c, plans)
  {
    KnownOfValid(m.shop, c, plans);
    hide Valid, Ordered, CallInv, Won, Granted, CallStep, ShopStep;
    if e.Read? || e.Try? || e.Die? {
      if e.call in m.calls {
        CallStepKeepsInv(m, c, plans, e);
      }
    } else {
      ShopStepKeepsValid(m.shop, c, plans, m.payment, e);
      SameCallsKeepInv(m, c, plans, Apply(m, c, plans, e).shop);
    }
  }

  /** The call that acts is the one answered, at most, and it was not answered before. */
  ghost predicate OneAnswered(m: Market, after: Market, e: Event) {
    && after.payment == m.payment && after.start == m.start && after.calls.Keys == m.calls.Keys
    && (forall k <- m.calls :: after.calls[k].said == m.calls[k].said)
    && (after.order == m.order || ((e.Read? || e.Try?) && e.call !in m.order && after.order == m.order + [e.call]))
  }

  lemma EventAnswersOne(m: Market, c: Catalog, plans: Plans, e: Event)
    requires Inv(m, c, plans)
    ensures Known(m.shop, c) && OneAnswered(m, Apply(m, c, plans, e), e)
  {
    KnownOfValid(m.shop, c, plans);
    if e.Read? || e.Try? || e.Die? {
      if e.call in m.calls {
        CallAnswersOne(m, c, e);
      }
    } else {
      hide Inv, Known, ShopStep;
    }
  }

  lemma CallAnswersOne(m: Market, c: Catalog, e: Event)
    requires Known(m.shop, c) && m.payment in m.shop.purchases && Ordered(m)
    requires (e.Read? || e.Try? || e.Die?) && e.call in m.calls
    ensures OneAnswered(m, CallStep(m, c, e), e)
  {
    assert m.calls[e.call].phase != Answered ==> e.call !in m.order;
    hide Known, Ordered, Won, Moves;
  }

  /** What is owned and what was entered only grows. */
  lemma EventOnlyAdds(m: Market, c: Catalog, plans: Plans, e: Event)
    requires Inv(m, c, plans)
    ensures Known(m.shop, c)
    ensures var after := Apply(m, c, plans, e).shop;
            m.shop.owned.Keys <= after.owned.Keys && m.shop.tables.entries <= after.tables.entries
  {
    KnownOfValid(m.shop, c, plans);
    if e.Read? || e.Try? || e.Die? {
      if e.call in m.calls {
        CallOnlyAdds(m, c, plans, e);
      }
    } else {
      ShopStepKeepsValid(m.shop, c, plans, m.payment, e);
      hide Inv, Known, ShopStep;
    }
  }

  lemma CallOnlyAdds(m: Market, c: Catalog, plans: Plans, e: Event)
    requires Valid(m.shop, c, plans) && Known(m.shop, c) && m.payment in m.shop.purchases && (e.Read? || e.Try? || e.Die?) && e.call in m.calls
    ensures var after := CallStep(m, c, e).shop;
            m.shop.owned.Keys <= after.owned.Keys && m.shop.tables.entries <= after.tables.entries
  {
    WinKeepsValid(m.shop, c, plans, m.payment, m.calls[e.call].said);
    hide Valid, Known, Won, Moves;
  }

  lemma KnownOfValid(shop: Shop, c: Catalog, plans: Plans)
    requires Valid(shop, c, plans)
    ensures Known(shop, c)
  {
  }

  lemma SameCallsKeepInv(m: Market, c: Catalog, plans: Plans, shop: Shop)
    requires Inv(m, c, plans) && Valid(shop, c, plans)
    requires m.payment in shop.purchases && shop.purchases[m.payment] == m.shop.purchases[m.payment]
    ensures Inv(m.(shop := shop), c, plans)
  {
  }

  ghost function Run(m: Market, c: Catalog, plans: Plans, events: seq<Event>): (after: Market)
    requires Inv(m, c, plans)
    ensures Inv(after, c, plans)
    decreases |events|
  {
    if events == [] then m
    else
      EventKeepsInv(m, c, plans, events[0]);
      Run(Apply(m, c, plans, events[0]), c, plans, events[1..])
  }

  lemma {:induction false} RunFrames(m: Market, c: Catalog, plans: Plans, events: seq<Event>)
    requires Inv(m, c, plans)
    ensures var after := Run(m, c, plans, events);
            && after.payment == m.payment && after.start == m.start && after.calls.Keys == m.calls.Keys
            && m.order <= after.order
            && m.shop.owned.Keys <= after.shop.owned.Keys && m.shop.tables.entries <= after.shop.tables.entries
    decreases |events|
  {
    hide Inv, Apply;
    if events != [] {
      EventKeepsInv(m, c, plans, events[0]);
      EventAnswersOne(m, c, plans, events[0]);
      EventOnlyAdds(m, c, plans, events[0]);
      RunFrames(Apply(m, c, plans, events[0]), c, plans, events[1..]);
    }
  }

  lemma FreshIsInv(m: Market, c: Catalog, plans: Plans)
    requires Fresh(m, c, plans)
    ensures Inv(m, c, plans)
  {
  }

  /**
   However the notices about one payment cross, fail and die, beside every other payment and plan of the shop: it ends where the sequential
   transition function takes the words of its answered calls, in one order that counts each of them exactly once; no call goes back to reading
   more often than there are other calls; what was ever paid is owned; and product credits are in the ledger only under their ownership row.
   */
  lemma EveryRunLinearizes(m: Market, c: Catalog, plans: Plans, events: seq<Event>)
    requires Fresh(m, c, plans)
    ensures Inv(m, c, plans)
    ensures var after := Run(m, c, plans, events);
            && Valid(after.shop, c, plans)
            && (forall k: nat :: k in after.order <==> k in after.calls && after.calls[k].phase == Answered)
            && StatusOf(after) == Fold(StatusOf(m), Words(after.calls, after.order))
            && Distinct(after.order)
            && (forall k <- after.calls :: after.calls[k].retries <= |after.calls| - 1)
  {
    hide Valid, Fold;
    FreshIsInv(m, c, plans);
    RunFrames(m, c, plans, events);
    var after := Run(m, c, plans, events);
    forall k: nat ensures k in after.order <==> k in after.calls && after.calls[k].phase == Answered {
      if k in after.calls {
        assert CallInv(after, k);
      }
    }
    forall k <- after.calls ensures after.calls[k].retries <= |after.calls| - 1 {
      assert CallInv(after, k);
      assert |after.calls.Keys - {k}| == |after.calls| - 1;
      if k in after.wins {
        DistinctFits(after.wins, after.calls.Keys);
      } else {
        DistinctFits(after.wins, after.calls.Keys - {k});
      }
    }
  }

  lemma {:induction false} DistinctFits(ids: seq<nat>, all: set<nat>)
    requires Distinct(ids) && forall k <- ids :: k in all
    ensures |ids| <= |all|
    decreases |ids|
  {
    if ids != [] {
      var last := ids[|ids| - 1];
      DistinctFits(ids[..|ids| - 1], all - {last});
    }
  }
}
