/** Placing and cancelling limit orders on the whole exchange, one operation and any run. */
module Exchange {
  import opened Wrappers
  import opened Sums
  import opened Arithmetic
  import opened Ledger
  import opened Prices
  import opened Market
  import opened OrderBook

  datatype Exchange = Exchange(ledger: Ledger, book: seq<Order>, nextId: nat)

  /** A new order sells cash, or reserved units, never both. */
  datatype Operation =
    | CreateOrder(seller: Account, sells: Asset, reserved: int, wants: Asset,
                  creditTo: Option<Account>, fillOrKill: bool)
    | CancelOrder(payer: Account, id: nat)

  predicate ValidCreate(op: Operation)
    requires op.CreateOrder?
  {
    && op.sells.id != op.wants.id
    && ((op.sells.amount > 0 && op.reserved == 0) || (op.sells.amount == 0 && op.reserved > 0))
    && op.wants.amount > 0
  }

  function NewOrder(op: Operation, id: nat): Order
    requires op.CreateOrder?
  {
    var amount := if op.reserved > 0 then op.reserved else op.sells.amount;
    Order(id, op.seller, amount, Price(amount, op.sells.id, op.wants.amount, op.wants.id), op.creditTo, op.reserved > 0)
  }

  /** The create operation: checks, debit, matching, and the fill-or-kill rule. */
  function Create(e: Exchange, op: Operation): Option<Exchange>
    requires op.CreateOrder?
  {
    if !ValidCreate(op) || op.sells.id !in e.ledger.assets || op.wants.id !in e.ledger.assets then None
    else if GetBalance(e.ledger, op.seller, op.sells.id) < op.sells.amount then None
    else match Adjust(e.ledger, op.seller, op.sells.id, -op.sells.amount, -op.reserved)
      case None => None
      case Some(l) =>
        match ApplyOrder(l, e.book, NewOrder(op, e.nextId))
        case None => None
        case Some(r) =>
          if op.fillOrKill && !r.filled then None
          else Some(Exchange(r.ledger, r.book, e.nextId + 1))
  }

  /** The position of an order in the book. */
  function IndexOf(book: seq<Order>, id: nat): (r: Option<nat>)
    ensures r.Some? ==> r.value < |book| && book[r.value].id == id
    ensures r.None? ==> forall o :: o in book ==> o.id != id
  {
    if book == [] then None
    else if book[0].id == id then Some(0)
    else match IndexOf(book[1..], id)
      case None => None
      case Some(i) => Some(i + 1)
  }

  function CancelOne(e: Exchange, payer: Account, id: nat): Option<Exchange> {
    match IndexOf(e.book, id)
    case None => None
    case Some(i) =>
      if e.book[i].seller != payer then None
      else match Cancel(e.ledger, e.book[i])
        case None => None
        case Some(l) => Some(e.(ledger := l, book := e.book[..i] + e.book[i + 1..]))
  }

  /** An operation that fails leaves no trace. */
  function Step(e: Exchange, op: Operation): Exchange {
    var r := if op.CreateOrder? then Create(e, op) else CancelOne(e, op.payer, op.id);
    if r.Some? then r.value else e
  }

  function Run(e: Exchange, ops: seq<Operation>): Exchange
    decreases |ops|
  {
    if ops == [] then e else Run(Step(e, ops[0]), ops[1..])
  }

  /** Nobody overdrawn, and the book sorted, with resting orders only. */
  ghost predicate Orderly(e: Exchange) {
    ValidLedger(e.ledger) && OrderlyBook(e.book, e.nextId)
  }

  /** Also, the book uncrossed, and no more in circulation than an asset may ever have. */
  ghost predicate Valid(e: Exchange) {
    && Orderly(e) && SettledBook(e.book)
    && forall a :: Circulating(e.ledger, e.book, a) <= MAX_SHARE_SUPPLY
  }

  /** Same units of every asset, same supplies and fee rules. */
  ghost predicate Conserves(e: Exchange, f: Exchange) {
    && SameRules(e.ledger, f.ledger)
    && forall a :: Circulating(f.ledger, f.book, a) == Circulating(e.ledger, e.book, a)
  }

  lemma SumSlices(a: AssetId, book: seq<Order>, lo: nat, hi: nat, mid: seq<Order>)
    requires lo <= hi <= |book|
    ensures Sum(ForSaleIn(a), book[..lo] + mid + book[hi..]) ==
            Sum(ForSaleIn(a), book) - Sum(ForSaleIn(a), book[lo..hi]) + Sum(ForSaleIn(a), mid)
  {
    SumConcat(ForSaleIn(a), book[..lo] + mid, book[hi..]);
    SumConcat(ForSaleIn(a), book[..lo], mid);
    SumConcat(ForSaleIn(a), book[..lo] + book[lo..hi], book[hi..]);
    SumConcat(ForSaleIn(a), book[..lo], book[lo..hi]);
    assert book == book[..lo] + book[lo..hi] + book[hi..];
  }

  lemma SumInsert(a: AssetId, book: seq<Order>, o: Order)
    ensures Sum(ForSaleIn(a), Insert(book, o)) == Sum(ForSaleIn(a), book) + ForSaleOf(Some(o), a)
  {
    var n := PlaceOf(book, o);
    SumSlices(a, book, n, n, [o]);
    SumOne(ForSaleIn(a), o);
    assert book[n..n] == [];
  }

  /** The range a new order is matched against. */
  lemma RangeCrosses(book: seq<Order>, taker: Order, nextId: nat)
    requires OrderlyBook(book, nextId) && ValidOrder(taker)
    ensures var lo, hi := RangeStart(book, taker), RangeEnd(book, taker);
            && (forall o :: o in book[lo..hi] ==> Resting(o) && Opposite(taker, o))
            && (forall i :: 0 <= i < |book| ==> (lo <= i < hi <==> Crosses(taker, book[i]) && InReach(book[i])))
  {
    var lo, hi := RangeStart(book, taker), RangeEnd(book, taker);
    forall i | 0 <= i < |book| ensures lo <= i < hi <==> Crosses(taker, book[i]) && InReach(book[i]) {
      RangeIsExact(book, taker, i);
    }
    hide Less;
    forall o | o in book[lo..hi] ensures Resting(o) && Opposite(taker, o) {
      var i :| lo <= i < hi && book[i] == o;
      assert book[i] in book;
    }
  }

  /** Matching a new order keeps the book sorted and everybody solvent. */
  lemma ApplyOrderOrderly(l: Ledger, book: seq<Order>, taker: Order)
    requires ValidLedger(l) && OrderlyBook(book, taker.id) && ValidOrder(taker)
    requires ApplyOrder(l, book, taker).Some?
    ensures var r := ApplyOrder(l, book, taker).value;
            && ValidLedger(r.ledger) && SameRules(l, r.ledger)
            && OrderlyBook(r.book, taker.id + 1)
            && (r.filled <==> forall o :: o in r.book ==> o.id != taker.id)
  {
    hide Resting, OrderlyBook, ValidOrder, ValidLedger, Sweep, RangeStart, RangeEnd, Thinned, SameRules, Crosses,
      Insert;
    var lo, hi := RangeStart(book, taker), RangeEnd(book, taker);
    RangeCrosses(book, taker, taker.id);
    SweepShape(l, book[lo..hi], taker);
    var s := Sweep(l, book[lo..hi], taker).value;
    BookRests(book, taker.id);
    SweptIsThinned(book, lo, hi, s.makers);
    var rest := book[..lo] + s.makers + book[hi..];
    ThinnedIsOrderly(rest, book, lo, hi - lo - |s.makers|, taker.id);
    BookLater(rest, taker.id);
    if s.taker.Some? {
      ReducedIsValid(s.taker.value, taker);
      CullEffect(s.ledger, s.taker.value);
      SameRulesTransitive(l, s.ledger, CullIfSmall(s.ledger, s.taker.value).value.ledger);
      if CullIfSmall(s.ledger, s.taker.value).value.order.Some? {
        InsertIsOrderly(rest, s.taker.value, taker.id);
        InsertHolds(rest, s.taker.value, s.taker.value);
      }
    }
  }

  /** What a new order that stays leaves behind: its search used up everything in reach. */
  lemma ApplyOrderRests(l: Ledger, book: seq<Order>, taker: Order)
    requires ValidLedger(l) && OrderlyBook(book, taker.id) && ValidOrder(taker)
    requires ApplyOrder(l, book, taker).Some? && !ApplyOrder(l, book, taker).value.filled
    ensures var r, lo, hi := ApplyOrder(l, book, taker).value, RangeStart(book, taker), RangeEnd(book, taker);
            exists left :: Resting(left) && left.price == taker.price && r.book == Insert(book[..lo] + book[hi..], left)
  {
    hide Resting, OrderlyBook, ValidOrder, ValidLedger, Sweep, RangeStart, RangeEnd, SameRules, Crosses, Insert;
    var lo, hi := RangeStart(book, taker), RangeEnd(book, taker);
    RangeCrosses(book, taker, taker.id);
    SweepShape(l, book[lo..hi], taker);
    var s := Sweep(l, book[lo..hi], taker).value;
    ReducedIsValid(s.taker.value, taker);
    CullEffect(s.ledger, s.taker.value);
    assert book[..lo] + s.makers + book[hi..] == book[..lo] + book[hi..];
  }

  /** For every sorted book: a new order that stays is crossed by something in the book
      exactly if the book held an order that it crosses and that is out of reach. */
  lemma ApplyOrderLeaves(l: Ledger, book: seq<Order>, taker: Order)
    requires ValidLedger(l) && OrderlyBook(book, taker.id) && ValidOrder(taker)
    requires ApplyOrder(l, book, taker).Some? && !ApplyOrder(l, book, taker).value.filled
    ensures (exists o :: o in ApplyOrder(l, book, taker).value.book && Crosses(taker, o)) <==> Unreached(book, taker)
  {
    hide Resting, OrderlyBook, ValidOrder, ValidLedger, ApplyOrder, RangeStart, RangeEnd, Crosses, InReach, Insert;
    var r, lo, hi := ApplyOrder(l, book, taker).value, RangeStart(book, taker), RangeEnd(book, taker);
    ApplyOrderRests(l, book, taker);
    var left :| Resting(left) && left.price == taker.price && r.book == Insert(book[..lo] + book[hi..], left);
    RestCrosses(book, taker, left);
    if x :| x in book[..lo] + book[hi..] && Crosses(left, x) {
      InsertHolds(book[..lo] + book[hi..], left, x);
      SamePriceCrosses(taker, left, x);
    }
    if o :| o in r.book && Crosses(taker, o) {
      InsertHolds(book[..lo] + book[hi..], left, o);
      SamePriceCrosses(taker, left, o);
      NoSelfCross(left);
    }
  }

  lemma SamePriceCrosses(a: Order, b: Order, x: Order)
    requires a.price == b.price
    ensures Crosses(a, x) == Crosses(b, x)
  {
  }

  /** What is outside the range crosses the order exactly if it is out of reach. */
  lemma RestCrosses(book: seq<Order>, taker: Order, left: Order)
    requires OrderlyBook(book, taker.id) && ValidOrder(taker) && left.price == taker.price
    ensures var lo, hi := RangeStart(book, taker), RangeEnd(book, taker);
            (exists x :: x in book[..lo] + book[hi..] && Crosses(left, x)) <==> Unreached(book, taker)
  {
    hide Resting, OrderlyBook, ValidOrder, RangeStart, RangeEnd, Crosses, InReach;
    var lo, hi := RangeStart(book, taker), RangeEnd(book, taker);
    var rest := book[..lo] + book[hi..];
    RangeCrosses(book, taker, taker.id);
    if x :| x in rest && Crosses(left, x) {
      var i :| 0 <= i < |rest| && rest[i] == x;
      assert book[if i < lo then i else i + hi - lo] == x;
      SamePriceCrosses(taker, left, x);
    }
    if o :| o in book && Crosses(taker, o) && !InReach(o) {
      var i :| 0 <= i < |book| && book[i] == o;
      assert rest[if i < lo then i else i - (hi - lo)] == o;
      SamePriceCrosses(taker, left, o);
    }
  }

  /** Matching a new order keeps the book uncrossed exactly if the order is gone, or no order
      that it crosses is out of reach. */
  lemma ApplyOrderKeeps(l: Ledger, book: seq<Order>, taker: Order)
    requires ValidLedger(l) && OrderlyBook(book, taker.id) && Uncrossed(book) && ValidOrder(taker)
    requires ApplyOrder(l, book, taker).Some?
    ensures var r := ApplyOrder(l, book, taker).value;
            Uncrossed(r.book) <==> r.filled || !Unreached(book, taker)
  {
    hide Resting, OrderlyBook, Uncrossed, ValidOrder, ValidLedger, ApplyOrder, RangeStart, RangeEnd, Thinned, Crosses,
      Insert;
    var r, lo, hi := ApplyOrder(l, book, taker).value, RangeStart(book, taker), RangeEnd(book, taker);
    if r.filled {
      ApplyOrderThins(l, book, taker);
    } else {
      ApplyOrderRests(l, book, taker);
      var left :| Resting(left) && left.price == taker.price && r.book == Insert(book[..lo] + book[hi..], left);
      BookRests(book, taker.id);
      SweptIsThinned(book, lo, hi, []);
      assert book[..lo] + [] + book[hi..] == book[..lo] + book[hi..];
      ThinnedIsUncrossed(book[..lo] + book[hi..], book, lo, hi - lo);
      InsertIsUncrossed(book[..lo] + book[hi..], left);
      RestCrosses(book, taker, left);
    }
  }

  lemma ApplyOrderThins(l: Ledger, book: seq<Order>, taker: Order)
    requires ValidLedger(l) && OrderlyBook(book, taker.id) && ValidOrder(taker)
    requires ApplyOrder(l, book, taker).Some? && ApplyOrder(l, book, taker).value.filled
    ensures var r := ApplyOrder(l, book, taker).value;
            && (Uncrossed(book) ==> Uncrossed(r.book))
            && (AllInReach(book) ==> AllInReach(r.book))
  {
    hide Resting, OrderlyBook, Uncrossed, AllInReach, ValidOrder, ValidLedger, Sweep, RangeStart, RangeEnd, Thinned,
      Crosses;
    var lo, hi := RangeStart(book, taker), RangeEnd(book, taker);
    RangeCrosses(book, taker, taker.id);
    SweepShape(l, book[lo..hi], taker);
    var s := Sweep(l, book[lo..hi], taker).value;
    BookRests(book, taker.id);
    SweptIsThinned(book, lo, hi, s.makers);
    var rest := book[..lo] + s.makers + book[hi..];
    if Uncrossed(book) {
      ThinnedIsUncrossed(rest, book, lo, hi - lo - |s.makers|);
    }
    if AllInReach(book) {
      ThinnedInReach(rest, book, lo, hi - lo - |s.makers|);
    }
  }

  lemma ApplyOrderInReach(l: Ledger, book: seq<Order>, taker: Order)
    requires ValidLedger(l) && OrderlyBook(book, taker.id) && ValidOrder(taker)
    requires AllInReach(book) && InReach(taker) && ApplyOrder(l, book, taker).Some?
    ensures AllInReach(ApplyOrder(l, book, taker).value.book)
  {
    hide Resting, OrderlyBook, ValidOrder, ValidLedger, ApplyOrder, RangeStart, RangeEnd, Insert;
    var r, lo, hi := ApplyOrder(l, book, taker).value, RangeStart(book, taker), RangeEnd(book, taker);
    if r.filled {
      ApplyOrderThins(l, book, taker);
    } else {
      ApplyOrderRests(l, book, taker);
      var left :| Resting(left) && left.price == taker.price && r.book == Insert(book[..lo] + book[hi..], left);
      forall o | o in r.book ensures InReach(o) {
        InsertHolds(book[..lo] + book[hi..], left, o);
      }
    }
  }

  lemma SameRulesTransitive(l: Ledger, m: Ledger, n: Ledger)
    requires SameRules(l, m) && SameRules(m, n)
    ensures SameRules(l, n)
  {
  }

  lemma BookRests(book: seq<Order>, n: nat)
    requires OrderlyBook(book, n)
    ensures forall o :: o in book ==> Resting(o)
  {
  }

  lemma ReducedIsValid(o: Order, from: Order)
    requires Reduced(o, from) && ValidOrder(from)
    ensures ValidOrder(o)
  {
  }

  lemma BookLater(book: seq<Order>, n: nat)
    requires OrderlyBook(book, n)
    ensures OrderlyBook(book, n + 1) && forall o :: o in book ==> o.id != n
  {
  }

  /** Its units end up in the book, with the sellers it bought from, or back with its owner. */
  lemma ApplyOrderConserves(l: Ledger, book: seq<Order>, taker: Order, a: AssetId)
    requires ValidLedger(l) && OrderlyBook(book, taker.id) && ValidOrder(taker)
    requires ApplyOrder(l, book, taker).Some?
    ensures var r := ApplyOrder(l, book, taker).value;
            Circulating(r.ledger, r.book, a) == Circulating(l, book, a) + ForSaleOf(Some(taker), a)
  {
    var lo, hi := RangeStart(book, taker), RangeEnd(book, taker);
    RangeCrosses(book, taker, taker.id);
    SweepShape(l, book[lo..hi], taker);
    SweepConserves(l, book[lo..hi], taker, a);
    var s := Sweep(l, book[lo..hi], taker).value;
    SumSlices(a, book, lo, hi, s.makers);
    hide Resting, OrderlyBook, ValidOrder, Sweep, RangeStart, RangeEnd;
    if s.taker.Some? {
      ReducedIsValid(s.taker.value, taker);
      CullEffect(s.ledger, s.taker.value);
      if CullIfSmall(s.ledger, s.taker.value).value.order.Some? {
        SumInsert(a, book[..lo] + s.makers + book[hi..], s.taker.value);
      }
    }
  }

  lemma OrdersNonNegative(book: seq<Order>, n: nat, a: AssetId)
    requires OrderlyBook(book, n)
    ensures Sum(ForSaleIn(a), book) >= 0
  {
    hide Less, Crosses;
    SumNonNegative(ForSaleIn(a), book);
  }

  /** No balance object holds more than the maximal supply. */
  lemma BalanceIsBounded(e: Exchange, i: nat)
    requires Valid(e) && i < |e.ledger.balances|
    ensures var b := e.ledger.balances[i]; 0 <= b.cash && 0 <= b.reserved && b.cash + b.reserved <= MAX_SHARE_SUPPLY
  {
    hide OrderlyBook, SettledBook;
    var a := e.ledger.balances[i].asset;
    SumAtLeast(HeldIn(a), e.ledger.balances, i);
    OrdersNonNegative(e.book, e.nextId, a);
    assert Circulating(e.ledger, e.book, a) <= MAX_SHARE_SUPPLY;
  }

  /** What a create operation must be: two listed assets, a positive amount wanted, and a
      positive amount offered, either in cash or from the reserve, that the seller has. */
  predicate MayCreate(e: Exchange, op: Operation)
    requires op.CreateOrder?
  {
    && op.sells.id != op.wants.id && op.sells.id in e.ledger.assets && op.wants.id in e.ledger.assets
    && op.wants.amount > 0
    && (|| (op.sells.amount > 0 && op.reserved == 0 && op.sells.amount <= GetBalance(e.ledger, op.seller, op.sells.id))
        || (&& op.sells.amount == 0 && op.reserved > 0 && Has(e.ledger, op.seller, op.sells.id)
            && 0 <= GetBalance(e.ledger, op.seller, op.sells.id)
            && op.reserved <= GetReserved(e.ledger, op.seller, op.sells.id)))
  }

  /** The order an accepted create makes: what is offered for what is wanted, under the next
      id, for the seller or the account to be credited. */
  predicate IsNewOrder(op: Operation, id: nat, o: Order)
    requires op.CreateOrder?
  {
    && o.id == id && o.seller == op.seller && o.creditTo == op.creditTo
    && o.forSale == o.price.base == op.sells.amount + op.reserved && o.price.baseAsset == op.sells.id
    && o.price.quote == op.wants.amount && o.price.quoteAsset == op.wants.id
    && (o.fromReserve <==> op.reserved > 0)
  }

  /** When a create succeeds: the seller may create it, the order can be matched after the
      offer is taken from the seller, and if it is fill-or-kill nothing of it is left. */
  lemma CreateAcceptedExactly(e: Exchange, op: Operation, o: Order)
    requires op.CreateOrder? && IsNewOrder(op, e.nextId, o)
    ensures MayCreate(e, op) ==>
              Adjust(e.ledger, op.seller, op.sells.id, -op.sells.amount, -op.reserved).Some?
    ensures Create(e, op).Some? <==>
            && MayCreate(e, op)
            && var l := Adjust(e.ledger, op.seller, op.sells.id, -op.sells.amount, -op.reserved).value;
            && ApplyOrder(l, e.book, o).Some?
            && (op.fillOrKill ==> ApplyOrder(l, e.book, o).value.filled)
    ensures Create(e, op).Some? ==>
            var r := ApplyOrder(Adjust(e.ledger, op.seller, op.sells.id, -op.sells.amount, -op.reserved).value,
                                e.book, o);
            Create(e, op).value == Exchange(r.value.ledger, r.value.book, e.nextId + 1)
  {
    hide ApplyOrder, Adjust, GetBalance, Has, GetReserved;
    AdjustAcceptedExactly(e.ledger, op.seller, op.sells.id, -op.sells.amount, -op.reserved);
    if op.sells.amount > 0 && op.reserved == 0 {
      BalanceMeansObject(e.ledger, op.seller, op.sells.id);
    }
    if ValidCreate(op) {
      assert o == NewOrder(op, e.nextId);
    }
  }

  lemma BalanceMeansObject(l: Ledger, owner: Account, asset: AssetId)
    ensures GetBalance(l, owner, asset) != 0 ==> Has(l, owner, asset)
  {
    HasIffFound(l, owner, asset);
  }

  /** Only the seller of an order in the book can cancel it; the order leaves the book. */
  lemma CancelAcceptedExactly(e: Exchange, payer: Account, id: nat)
    requires DistinctIds(e.book)
    ensures CancelOne(e, payer, id).Some? <==>
            exists i :: && 0 <= i < |e.book| && e.book[i].id == id && e.book[i].seller == payer
                        && Cancel(e.ledger, e.book[i]).Some?
    ensures CancelOne(e, payer, id).Some? ==>
            forall i :: 0 <= i < |e.book| && e.book[i].id == id ==>
              && Cancel(e.ledger, e.book[i]).Some?
              && CancelOne(e, payer, id).value
                 == Exchange(Cancel(e.ledger, e.book[i]).value, e.book[..i] + e.book[i + 1..], e.nextId)
  {
    hide Cancel;
    var r := IndexOf(e.book, id);
    if r.Some? {
      assert forall i :: 0 <= i < |e.book| && e.book[i].id == id ==> i == r.value;
    } else {
      assert forall i :: 0 <= i < |e.book| ==> e.book[i] in e.book;
    }
  }

  /** An accepted create operation makes a valid order. */
  lemma NewOrderIsValid(op: Operation, id: nat)
    requires op.CreateOrder? && ValidCreate(op) && ToReceive(NewOrder(op, id)).Some?
    ensures ValidOrder(NewOrder(op, id))
  {
    var o := NewOrder(op, id);
    AtMostFloor(o.price.quote, o.forSale * o.price.quote, o.price.base);
  }

  /** A create operation does not offer more than the highest price for what it wants. */
  predicate OffersInReach(op: Operation) {
    op.CreateOrder? ==> InReach(NewOrder(op, 0))
  }

  /** If no more than the maximal supply is in circulation, no one can offer more. */
  lemma BoundedIsInReach(e: Exchange, op: Operation)
    requires Valid(e) && op.CreateOrder? && ValidCreate(op)
    requires Adjust(e.ledger, op.seller, op.sells.id, -op.sells.amount, -op.reserved).Some?
    ensures OffersInReach(op)
  {
    hide OrderlyBook, SettledBook;
    BalanceIsBounded(e, Find(e.ledger.balances, op.seller, op.sells.id).value);
    MulMono(1, op.wants.amount, MAX_SHARE_SUPPLY);
  }

  /** A create conserves every asset and keeps the book sorted, whatever the supplies. */
  lemma CreateConserves(e: Exchange, op: Operation)
    requires Orderly(e) && op.CreateOrder? && Create(e, op).Some?
    ensures Orderly(Create(e, op).value) && Conserves(e, Create(e, op).value)
  {
    hide OrderlyBook, ValidOrder, ApplyOrder, ToReceive;
    var l := Adjust(e.ledger, op.seller, op.sells.id, -op.sells.amount, -op.reserved).value;
    var o := NewOrder(op, e.nextId);
    AppliedHasTarget(l, e.book, o);
    NewOrderIsValid(op, e.nextId);
    AdjustMoves(e.ledger, op.seller, op.sells.id, -op.sells.amount, -op.reserved);
    ApplyOrderOrderly(l, e.book, o);
    var f := Create(e, op).value;
    forall a ensures Circulating(f.ledger, f.book, a) == Circulating(e.ledger, e.book, a) {
      ApplyOrderConserves(l, e.book, o, a);
    }
  }

  /** A create misses an order: it stays in the book, where an order that it crosses is out of
      reach. */
  ghost predicate Misses(e: Exchange, op: Operation) {
    && op.CreateOrder? && Create(e, op).Some?
    && (exists o :: o in Create(e, op).value.book && o.id == e.nextId)
    && Unreached(e.book, NewOrder(op, e.nextId))
  }

  /** A create keeps the book uncrossed exactly if it misses nothing. */
  lemma CreateKeeps(e: Exchange, op: Operation)
    requires Orderly(e) && Uncrossed(e.book) && op.CreateOrder? && Create(e, op).Some?
    ensures Uncrossed(Create(e, op).value.book) <==> !Misses(e, op)
    ensures AllInReach(e.book) && OffersInReach(op) ==> AllInReach(Create(e, op).value.book) && !Misses(e, op)
  {
    hide OrderlyBook, Uncrossed, ValidOrder, ApplyOrder, ToReceive, Crosses;
    var l := Adjust(e.ledger, op.seller, op.sells.id, -op.sells.amount, -op.reserved).value;
    var o := NewOrder(op, e.nextId);
    AppliedHasTarget(l, e.book, o);
    NewOrderIsValid(op, e.nextId);
    AdjustMoves(e.ledger, op.seller, op.sells.id, -op.sells.amount, -op.reserved);
    ApplyOrderOrderly(l, e.book, o);
    ApplyOrderKeeps(l, e.book, o);
    if AllInReach(e.book) && OffersInReach(op) {
      ApplyOrderInReach(l, e.book, o);
    }
  }

  lemma AppliedHasTarget(l: Ledger, book: seq<Order>, o: Order)
    requires ApplyOrder(l, book, o).Some?
    ensures ToReceive(o).Some?
  {
  }

  lemma CancelConserves(e: Exchange, payer: Account, id: nat)
    requires Orderly(e) && CancelOne(e, payer, id).Some?
    ensures var f := CancelOne(e, payer, id).value;
            && Orderly(f) && Conserves(e, f)
            && (Uncrossed(e.book) ==> Uncrossed(f.book)) && (AllInReach(e.book) ==> AllInReach(f.book))
  {
    hide OrderlyBook, Uncrossed, AllInReach, Resting, Less;
    var i := IndexOf(e.book, id).value;
    var f := CancelOne(e, payer, id).value;
    BookRests(e.book, e.nextId);
    SweptIsThinned(e.book, i, i + 1, []);
    assert f.book == e.book[..i] + [] + e.book[i + 1..];
    ThinnedIsOrderly(f.book, e.book, i, 1, e.nextId);
    if Uncrossed(e.book) {
      ThinnedIsUncrossed(f.book, e.book, i, 1);
    }
    if AllInReach(e.book) {
      ThinnedInReach(f.book, e.book, i, 1);
    }
    CancelEffect(e.ledger, e.book[i]);
    forall a ensures Circulating(f.ledger, f.book, a) == Circulating(e.ledger, e.book, a) {
      SumWithout(ForSaleIn(a), e.book, i);
    }
  }

  lemma SameRulesReflexive(l: Ledger)
    ensures SameRules(l, l)
  {
  }

  /** Every operation conserves every asset, whatever the supplies. */
  lemma StepConserves(e: Exchange, op: Operation)
    requires Orderly(e)
    ensures Orderly(Step(e, op)) && Conserves(e, Step(e, op))
  {
    hide Orderly, Create, CancelOne, Circulating;
    if op.CreateOrder? {
      if Create(e, op).Some? {
        CreateConserves(e, op);
      }
    } else if CancelOne(e, op.payer, op.id).Some? {
      CancelConserves(e, op.payer, op.id);
    }
  }

  /** An operation keeps the book uncrossed exactly if it misses nothing; and it misses nothing
      if all offers are in reach. */
  lemma StepUncrossedExactly(e: Exchange, op: Operation)
    requires Orderly(e) && Uncrossed(e.book)
    ensures Uncrossed(Step(e, op).book) <==> !Misses(e, op)
    ensures AllInReach(e.book) && OffersInReach(op) ==> AllInReach(Step(e, op).book) && !Misses(e, op)
  {
    hide Orderly, Uncrossed, AllInReach, Create, CancelOne, Unreached, OffersInReach;
    if op.CreateOrder? {
      if Create(e, op).Some? {
        CreateKeeps(e, op);
      }
    } else if CancelOne(e, op.payer, op.id).Some? {
      CancelConserves(e, op.payer, op.id);
    }
  }

  lemma StepKeeps(e: Exchange, op: Operation)
    requires Valid(e)
    ensures Valid(Step(e, op))
  {
    hide OrderlyBook, Uncrossed, AllInReach, ApplyOrder, CancelOne, Circulating, ValidLedger, SameRules, Misses,
      InReach;
    StepConserves(e, op);
    StepUncrossedExactly(e, op);
    if op.CreateOrder? && Create(e, op).Some? {
      BoundedIsInReach(e, op);
    }
  }

  /** Over every run of creates and cancels every asset is conserved, nobody is overdrawn and
      the book stays sorted. */
  lemma {:induction false} RunConserves(e: Exchange, ops: seq<Operation>)
    requires Orderly(e)
    ensures Orderly(Run(e, ops)) && Conserves(e, Run(e, ops))
    decreases |ops|
  {
    hide Orderly, SameRules, Circulating, Step;
    if ops != [] {
      StepConserves(e, ops[0]);
      var f := Step(e, ops[0]);
      RunConserves(f, ops[1..]);
      SameRulesTransitive(e.ledger, f.ledger, Run(f, ops[1..]).ledger);
    } else {
      SameRulesReflexive(e.ledger);
    }
  }

  /** The book is uncrossed all through a run. */
  predicate StaysUncrossed(e: Exchange, ops: seq<Operation>)
    decreases |ops|
  {
    Uncrossed(e.book) && (ops == [] || StaysUncrossed(Step(e, ops[0]), ops[1..]))
  }

  /** Some create of a run misses an order. */
  ghost predicate RunMisses(e: Exchange, ops: seq<Operation>)
    decreases |ops|
  {
    ops != [] && (Misses(e, ops[0]) || RunMisses(Step(e, ops[0]), ops[1..]))
  }

  /** The book is uncrossed all through a run exactly if no create misses an order. */
  lemma {:induction false} RunUncrossedExactly(e: Exchange, ops: seq<Operation>)
    requires Orderly(e) && Uncrossed(e.book)
    ensures StaysUncrossed(e, ops) <==> !RunMisses(e, ops)
    decreases |ops|
  {
    hide Orderly, Uncrossed, Step, Misses;
    if ops != [] {
      StepConserves(e, ops[0]);
      StepUncrossedExactly(e, ops[0]);
      if !Misses(e, ops[0]) {
        RunUncrossedExactly(Step(e, ops[0]), ops[1..]);
      }
    }
  }

  /** If no one ever offers more than the highest price, nothing is missed. */
  lemma {:induction false} RunSettles(e: Exchange, ops: seq<Operation>)
    requires Orderly(e) && SettledBook(e.book) && forall op :: op in ops ==> OffersInReach(op)
    ensures SettledBook(Run(e, ops).book) && StaysUncrossed(e, ops)
    decreases |ops|
  {
    hide Orderly, Uncrossed, AllInReach, Step, Misses, OffersInReach;
    if ops != [] {
      StepConserves(e, ops[0]);
      StepUncrossedExactly(e, ops[0]);
      RunSettles(Step(e, ops[0]), ops[1..]);
    }
  }

  /** No one can, if no asset has more in circulation than it may ever have: then the book stays
      uncrossed over every run. */
  lemma {:induction false} RunKeeps(e: Exchange, ops: seq<Operation>)
    requires Valid(e)
    ensures Valid(Run(e, ops))
    decreases |ops|
  {
    hide Valid, Step;
    if ops != [] {
      StepKeeps(e, ops[0]);
      RunKeeps(Step(e, ops[0]), ops[1..]);
    }
  }

  /** The asset charges a fee even on nothing. */
  predicate ChargesMinimum(d: AssetData) {
    d.chargesFees && d.feePercent != 0 && d.maxFee > 0
  }

  /** Crediting proceeds fails only if there are none and the minimal fee cannot be paid. */
  lemma PayOutFailsExactly(l: Ledger, to: Account, asset: AssetId, receives: int)
    requires ValidLedger(l) && asset in l.assets && receives >= 0
    ensures PayOut(l, to, asset, receives).None? <==>
            && receives == 0
            && ChargesMinimum(l.assets[asset]) && GetBalance(l, to, asset) == 0
  {
    FeeWithinProceeds(l.assets[asset], receives);
    assert GetBalance(l, to, asset) >= 0;
  }

  /** The maker's side of a trade always goes through. */
  lemma MakerFillSucceeds(m: Ledger, maker: Order, pays: int, receives: int)
    requires ValidLedger(m) && ValidOrder(maker) && 0 <= pays <= maker.forSale && receives > 0
    requires maker.price.quoteAsset in m.assets
    requires Find(m.balances, maker.seller, maker.price.baseAsset).Some?
    ensures Fill(m, maker, pays, receives, true).Some?
  {
    PayOutFailsExactly(m, Receiver(maker), maker.price.quoteAsset, receives);
    var n := PayOut(m, Receiver(maker), maker.price.quoteAsset, receives).value;
    PayOutKeepsObjects(m, Receiver(maker), maker.price.quoteAsset, receives, maker.seller, maker.price.baseAsset);
    hide PayOut;
    if pays < maker.forSale {
      ToReceiveOfValid(maker.(forSale := maker.forSale - pays));
      hide ToReceive;
    }
  }

  /** Balance objects are never removed. */
  lemma PayOutKeepsObjects(l: Ledger, to: Account, asset: AssetId, receives: int, owner: Account, held: AssetId)
    requires PayOut(l, to, asset, receives).Some? && Find(l.balances, owner, held).Some?
    ensures Find(PayOut(l, to, asset, receives).value.balances, owner, held).Some?
  {
    var m := PayOut(l, to, asset, receives).value;
    var i := Find(l.balances, owner, held).value;
    assert m.balances[i] in m.balances && m.balances[i].owner == owner && m.balances[i].asset == held;
  }

  /** In a trade the taker receives nothing exactly if all it offers is worth less than one
      unit; such a trade never fails for its size. */
  lemma NothingToReceive(taker: Order, maker: Order)
    requires ValidOrder(taker) && Resting(maker) && Opposite(taker, maker)
    ensures TradeAmounts(taker, maker).Some? ==>
              (TradeAmounts(taker, maker).value.makerPays == 0 <==>
               taker.forSale * maker.price.base < maker.price.quote)
    ensures taker.forSale * maker.price.base < maker.price.quote ==> TradeAmounts(taker, maker).Some?
  {
    TradeFailsExactly(taker, maker);
    hide TradeAmounts;
    var b, q := maker.price.base, maker.price.quote;
    AtMostFloor(1, taker.forSale * b, q);
    if TradeAmounts(taker, maker).Some? {
      TradeValues(taker, maker);
      if taker.forSale > maker.forSale * q / b {
        Floor(maker.forSale * q, b);
        MulMono(maker.forSale * q / b + 1, taker.forSale, b);
        assert (maker.forSale * q / b + 1) * b == maker.forSale * q / b * b + b;
        MulMono(1, maker.forSale, q);
      }
    }
  }

  /** A match of valid orders fails in exactly two cases: the taker would buy more than the
      maximal supply, or all it offers is worth less than one unit, it is still charged the
      minimal fee, and cannot pay it. */
  lemma MatchFailsExactly(l: Ledger, taker: Order, maker: Order)
    requires ValidLedger(l) && ValidOrder(taker) && Resting(maker) && Opposite(taker, maker)
    requires taker.price.baseAsset in l.assets && maker.price.baseAsset in l.assets
    requires Find(l.balances, maker.seller, maker.price.baseAsset).Some?
    ensures var b, q := maker.price.base, maker.price.quote;
            Match(l, taker, maker).None? <==>
            || (taker.forSale <= maker.forSale * q / b && taker.forSale * b / q > MAX_SHARE_SUPPLY)
            || (&& taker.forSale * b < q
                && ChargesMinimum(l.assets[maker.price.baseAsset])
                && GetBalance(l, Receiver(taker), maker.price.baseAsset) == 0)
  {
    RestingIsValid(maker);
    TradeFailsExactly(taker, maker);
    NothingToReceive(taker, maker);
    if TradeAmounts(taker, maker).Some? {
      TradeGoesThrough(l, taker, maker);
    }
  }

  /** A trade fails only for the fee. */
  lemma TradeGoesThrough(l: Ledger, taker: Order, maker: Order)
    requires ValidLedger(l) && ValidOrder(taker) && Resting(maker) && Opposite(taker, maker)
    requires taker.price.baseAsset in l.assets && maker.price.baseAsset in l.assets
    requires Find(l.balances, maker.seller, maker.price.baseAsset).Some? && TradeAmounts(taker, maker).Some?
    ensures Match(l, taker, maker).None? <==>
            && TradeAmounts(taker, maker).value.makerPays == 0
            && ChargesMinimum(l.assets[maker.price.baseAsset])
            && GetBalance(l, Receiver(taker), maker.price.baseAsset) == 0
  {
    TradeIsFair(taker, maker);
    hide TradeAmounts, Resting, MarketFee, GetBalance, ChargesMinimum;
    var t := TradeAmounts(taker, maker).value;
    PayOutFailsExactly(l, Receiver(taker), maker.price.baseAsset, t.makerPays);
    var x := Fill(l, taker, t.takerPays, t.makerPays, false);
    if x.Some? {
      FillEffect(l, taker, t.takerPays, t.makerPays, false);
      PayOutKeepsObjects(l, Receiver(taker), taker.price.quoteAsset, t.makerPays, maker.seller, maker.price.baseAsset);
      RestingIsValid(maker);
      MakerFillSucceeds(x.value.ledger, maker, t.makerPays, t.takerPays);
    }
  }

  lemma MatchKeepsObjects(l: Ledger, taker: Order, maker: Order, o: Account, a: AssetId)
    requires Match(l, taker, maker).Some? && Has(l, o, a)
    ensures Has(Match(l, taker, maker).value.ledger, o, a)
  {
    hide Fill, TradeAmounts, Has;
    var t := TradeAmounts(taker, maker).value;
    var x := Fill(l, taker, t.takerPays, t.makerPays, false).value;
    FillKeepsObjects(l, taker, t.takerPays, t.makerPays, false, o, a);
    FillKeepsObjects(x.ledger, maker, t.makerPays, t.takerPays, true, o, a);
  }

  lemma FillKeepsObjects(l: Ledger, order: Order, pays: int, receives: int, cull: bool, o: Account, a: AssetId)
    requires Fill(l, order, pays, receives, cull).Some? && Has(l, o, a)
    ensures Has(Fill(l, order, pays, receives, cull).value.ledger, o, a)
  {
    hide Adjust, MarketFee, ToReceive;
    var asset := order.price.quoteAsset;
    var fee := MarketFee(l.assets[asset], receives);
    var n := if fee > 0 then AddFees(l, asset, fee).value else l;
    assert Has(n, o, a);
    AdjustKeepsObjects(n, Receiver(order), asset, receives - fee, 0, o, a);
    var m := PayOut(l, Receiver(order), asset, receives).value;
    hide PayOut, Has;
    var rest := order.(forSale := order.forSale - pays);
    if pays != order.forSale && cull && Cancel(m, rest).Some? {
      if rest.fromReserve {
        AdjustKeepsObjects(m, rest.seller, rest.price.baseAsset, 0, rest.forSale, o, a);
      } else {
        AdjustKeepsObjects(m, rest.seller, rest.price.baseAsset, rest.forSale, 0, o, a);
      }
    }
  }

  /** A sweep goes through if the asset bought charges no fee on nothing and no maker has more
      than the maximal supply for sale. */
  lemma {:induction false} SweepSucceeds(l: Ledger, makers: seq<Order>, taker: Order)
    requires ValidLedger(l) && ValidOrder(taker)
    requires taker.price.baseAsset in l.assets && taker.price.quoteAsset in l.assets
    requires !ChargesMinimum(l.assets[taker.price.quoteAsset])
    requires forall o :: o in makers ==>
               && Resting(o) && Opposite(taker, o) && o.forSale <= MAX_SHARE_SUPPLY
               && Has(l, o.seller, o.price.baseAsset)
    ensures Sweep(l, makers, taker).Some?
    decreases |makers|
  {
    hide Match, Resting, ValidLedger, Has, ChargesMinimum;
    if makers != [] {
      var maker := makers[0];
      RestingIsValid(maker);
      TradeFailsExactly(taker, maker);
      HasIffFound(l, maker.seller, maker.price.baseAsset);
      MatchFailsExactly(l, taker, maker);
      MatchEffect(l, taker, maker);
      var r := Match(l, taker, maker).value;
      assert forall o :: o in makers[1..] ==> o in makers;
      if r.taker.Some? && r.maker.None? {
        forall o | o in makers[1..] ensures Has(r.ledger, o.seller, o.price.baseAsset) {
          MatchKeepsObjects(l, taker, maker, o.seller, o.price.baseAsset);
        }
        SameCharges(l, r.ledger, taker.price.quoteAsset);
        ReducedIsValid(r.taker.value, taker);
        SweepSucceeds(r.ledger, makers[1..], r.taker.value);
      }
    }
  }

  lemma SameCharges(l: Ledger, m: Ledger, a: AssetId)
    requires SameRules(l, m) && a in l.assets
    ensures a in m.assets && ChargesMinimum(m.assets[a]) == ChargesMinimum(l.assets[a])
  {
  }

  lemma RestingIsValid(o: Order)
    requires Resting(o)
    ensures ValidOrder(o)
  {
  }

  /** The matching loop: walk the range from the best price on, until the new order is
      used up or the range is. */
  method MatchLoop(l: Ledger, makers: seq<Order>, taker: Order) returns (r: Option<Swept>)
    ensures r == Sweep(l, makers, taker)
  {
    hide Match;
    var ledger, left, next := l, Some(taker), 0;
    while left.Some? && next < |makers|
      invariant 0 <= next <= |makers| && left.Some?
      invariant Sweep(l, makers, taker) == Sweep(ledger, makers[next..], left.value)
      decreases |makers| - next
    {
      var m := Match(ledger, left.value, makers[next]);
      if m.None? {
        return None;
      }
      assert makers[next..][1..] == makers[next + 1..];
      if m.value.taker.None? || m.value.maker.Some? {
        var rest := if m.value.maker.Some? then [m.value.maker.value] else [];
        return Some(Swept(m.value.ledger, rest + makers[next + 1..], m.value.taker));
      }
      ledger, left, next := m.value.ledger, m.value.taker, next + 1;
    }
    r := Some(Swept(ledger, [], left));
  }

  /** `apply_order` with its loop. */
  method ApplyToBook(l: Ledger, book: seq<Order>, taker: Order) returns (r: Option<Applied>)
    ensures r == ApplyOrder(l, book, taker)
  {
    hide Sweep, CullIfSmall, ToReceive, RangeStart, RangeEnd, Insert;
    if ToReceive(taker).None? {
      return None;
    }
    var lo, hi := RangeStart(book, taker), RangeEnd(book, taker);
    var swept := MatchLoop(l, book[lo..hi], taker);
    if swept.None? {
      return None;
    }
    var rest := book[..lo] + swept.value.makers + book[hi..];
    if swept.value.taker.None? {
      return Some(Applied(swept.value.ledger, rest, true));
    }
    var culled := CullIfSmall(swept.value.ledger, swept.value.taker.value);
    if culled.None? {
      return None;
    }
    if culled.value.order.None? {
      return Some(Applied(culled.value.ledger, rest, true));
    }
    return Some(Applied(culled.value.ledger, Insert(rest, culled.value.order.value), false));
  }

  /** The market part of the chain database.  A failing operation is rolled back by the
      undo session around it, so it changes nothing. */
  class MarketDatabase {
    var ledger: Ledger
    var book: seq<Order>
    var nextId: nat

    function State(): Exchange
      reads this
    {
      Exchange(ledger, book, nextId)
    }

    constructor (e: Exchange)
      ensures State() == e
    {
      ledger, book, nextId := e.ledger, e.book, e.nextId;
    }

    method PlaceOrder(op: Operation) returns (ok: bool)
      requires op.CreateOrder? && Orderly(State())
      modifies this
      ensures ok <==> Create(old(State()), op).Some?
      ensures ok ==> Create(old(State()), op) == Some(State())
      ensures !ok ==> State() == old(State())
      ensures Orderly(State()) && Conserves(old(State()), State())
      ensures Valid(old(State())) ==> Valid(State())
      ensures Uncrossed(old(book)) ==> (Uncrossed(book) <==> !Misses(old(State()), op))
    {
      hide Orderly, Valid, Conserves, ApplyOrder, Adjust, GetBalance, NewOrder, Uncrossed, Misses;
      StepConserves(State(), op);
      if Uncrossed(book) {
        StepUncrossedExactly(State(), op);
      }
      if Valid(State()) {
        StepKeeps(State(), op);
      }
      if !ValidCreate(op) || op.sells.id !in ledger.assets || op.wants.id !in ledger.assets {
        return false;
      }
      if GetBalance(ledger, op.seller, op.sells.id) < op.sells.amount {
        return false;
      }
      var debited := Adjust(ledger, op.seller, op.sells.id, -op.sells.amount, -op.reserved);
      if debited.None? {
        return false;
      }
      var applied := ApplyToBook(debited.value, book, NewOrder(op, nextId));
      if applied.None? || (op.fillOrKill && !applied.value.filled) {
        return false;
      }
      ledger, book, nextId := applied.value.ledger, applied.value.book, nextId + 1;
      ok := true;
    }

    method CancelLimitOrder(payer: Account, id: nat) returns (ok: bool)
      requires Orderly(State())
      modifies this
      ensures ok <==> CancelOne(old(State()), payer, id).Some?
      ensures ok ==> CancelOne(old(State()), payer, id) == Some(State())
      ensures !ok ==> State() == old(State())
      ensures Orderly(State()) && Conserves(old(State()), State())
      ensures Valid(old(State())) ==> Valid(State())
      ensures Uncrossed(old(book)) ==> Uncrossed(book)
    {
      hide Orderly, Valid, Conserves, Uncrossed;
      StepConserves(State(), CancelOrder(payer, id));
      if Uncrossed(book) {
        StepUncrossedExactly(State(), CancelOrder(payer, id));
      }
      if Valid(State()) {
        StepKeeps(State(), CancelOrder(payer, id));
      }
      var i := IndexOf(book, id);
      if i.None? || book[i.value].seller != payer {
        return false;
      }
      var refunded := Cancel(ledger, book[i.value]);
      if refunded.None? {
        return false;
      }
      ledger, book := refunded.value, book[..i.value] + book[i.value + 1..];
      ok := true;
    }
  }
}
