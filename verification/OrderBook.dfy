/** The order book: placing and cancelling limit orders, and what every run of such
    operations keeps. */
module OrderBook {
  import opened Wrappers
  import opened Sums
  import opened Arithmetic
  import opened Ledger
  import opened Prices
  import opened Market

  /** The by-price index: greatest price first, then lowest id. */
  predicate Before(a: Order, b: Order) {
    Less(b.price, a.price) || (!Less(a.price, b.price) && a.id < b.id)
  }

  predicate Sorted(book: seq<Order>) {
    forall i, j :: 0 <= i < j < |book| ==> Before(book[i], book[j])
  }

  /** `lower_bound`: the first order that is not above `p`. */
  function FirstNotAbove(book: seq<Order>, p: Price): (n: nat)
    ensures n <= |book| && (n < |book| ==> !Less(p, book[n].price))
    ensures forall i :: 0 <= i < n ==> Less(p, book[i].price)
  {
    if book == [] || !Less(p, book[0].price) then 0 else 1 + FirstNotAbove(book[1..], p)
  }

  /** `upper_bound`: the first order below `p`. */
  function FirstBelow(book: seq<Order>, p: Price): (n: nat)
    ensures n <= |book| && (n < |book| ==> Less(book[n].price, p))
    ensures forall i :: 0 <= i < n ==> !Less(book[i].price, p)
  {
    if book == [] || Less(book[0].price, p) then 0 else 1 + FirstBelow(book[1..], p)
  }

  /** The place of a new order in the index. */
  function PlaceOf(book: seq<Order>, o: Order): (n: nat)
    ensures n <= |book| && (n < |book| ==> Before(o, book[n]))
    ensures forall i :: 0 <= i < n ==> !Before(o, book[i])
  {
    if book == [] || Before(o, book[0]) then 0 else 1 + PlaceOf(book[1..], o)
  }

  function Insert(book: seq<Order>, o: Order): seq<Order> {
    var n := PlaceOf(book, o);
    book[..n] + [o] + book[n..]
  }

  datatype Applied = Applied(ledger: Ledger, book: seq<Order>, filled: bool)

  /** The part of the book a new order can trade with. */
  function RangeStart(book: seq<Order>, taker: Order): nat {
    FirstNotAbove(book, MaxPrice(taker.price.quoteAsset, taker.price.baseAsset))
  }

  function RangeEnd(book: seq<Order>, taker: Order): (n: nat)
    ensures RangeStart(book, taker) <= n <= |book|
  {
    var n := FirstBelow(book, Inverse(taker.price));
    if n < RangeStart(book, taker) then RangeStart(book, taker) else n
  }

  /** `apply_order` for assets without margin positions: sweep the opposite side, then
      refund the rest if it is dust, or let it rest in the book. */
  function ApplyOrder(l: Ledger, book: seq<Order>, taker: Order): Option<Applied> {
    var lo, hi := RangeStart(book, taker), RangeEnd(book, taker);
    if ToReceive(taker).None? then None
    else match Sweep(l, book[lo..hi], taker)
      case None => None
      case Some(s) =>
        var rest := book[..lo] + s.makers + book[hi..];
        if s.taker.None? then Some(Applied(s.ledger, rest, true))
        else match CullIfSmall(s.ledger, s.taker.value)
          case None => None
          case Some(c) =>
            if c.order.None? then Some(Applied(c.ledger, rest, true))
            else Some(Applied(c.ledger, Insert(rest, c.order.value), false))
  }

  // ----- accounting -----

  function ForSaleIn(a: AssetId): Order -> int {
    (o: Order) => if o.price.baseAsset == a then o.forSale else 0
  }

  function ForSaleOf(o: Option<Order>, a: AssetId): int {
    if o.Some? then ForSaleIn(a)(o.value) else 0
  }

  /** Units of `a` in balances and fee accumulators. */
  function Loose(l: Ledger, a: AssetId): int {
    Held(l, a) + Fees(l, a)
  }

  /** Units of `a` in balances, in accumulated fees and locked in orders. */
  function Circulating(l: Ledger, book: seq<Order>, a: AssetId): int {
    Loose(l, a) + Sum(ForSaleIn(a), book)
  }

  predicate ValidLedger(l: Ledger) {
    && Solvent(l)
    && forall a :: a in l.assets ==> ValidFeeOptions(l.assets[a]) && l.assets[a].accumulatedFees >= 0
  }

  /** Only balances and accumulated fees differ. */
  predicate SameRules(l: Ledger, m: Ledger) {
    && m.assets.Keys == l.assets.Keys
    && forall a :: a in l.assets ==> m.assets[a] == l.assets[a].(accumulatedFees := m.assets[a].accumulatedFees)
  }

  lemma PayOutEffect(l: Ledger, to: Account, asset: AssetId, receives: int)
    requires ValidLedger(l) && receives >= 0 && PayOut(l, to, asset, receives).Some?
    ensures var m := PayOut(l, to, asset, receives).value;
            && ValidLedger(m) && SameRules(l, m)
            && forall a :: Loose(m, a) == Loose(l, a) + if a == asset then receives else 0
  {
    var fee := MarketFee(l.assets[asset], receives);
    FeeWithinProceeds(l.assets[asset], receives);
    var n := if fee > 0 then AddFees(l, asset, fee).value else l;
    assert forall a :: Held(n, a) == Held(l, a);
    AdjustMoves(n, to, asset, receives - fee, 0);
  }

  lemma CancelEffect(l: Ledger, o: Order)
    requires ValidLedger(l) && Cancel(l, o).Some?
    ensures var m := Cancel(l, o).value;
            && ValidLedger(m) && SameRules(l, m)
            && forall a :: Loose(m, a) == Loose(l, a) + ForSaleOf(Some(o), a)
  {
    if o.fromReserve {
      AdjustMoves(l, o.seller, o.price.baseAsset, 0, o.forSale);
    } else {
      AdjustMoves(l, o.seller, o.price.baseAsset, o.forSale, 0);
    }
  }

  /** The same order with less for sale. */
  predicate Reduced(o: Order, from: Order) {
    o == from.(forSale := o.forSale) && 0 < o.forSale <= from.forSale
  }

  lemma CullEffect(l: Ledger, o: Order)
    requires ValidLedger(l) && ValidOrder(o) && CullIfSmall(l, o).Some?
    ensures var f := CullIfSmall(l, o).value;
            && ValidLedger(f.ledger) && SameRules(l, f.ledger)
            && (f.order.Some? ==> f.order.value == o && Resting(o))
            && forall a :: Loose(f.ledger, a) + ForSaleOf(f.order, a) == Loose(l, a) + ForSaleOf(Some(o), a)
  {
    ToReceiveOfValid(o);
    if CullIfSmall(l, o).value.order.None? {
      CancelEffect(l, o);
    }
  }

  /** An order is refunded exactly if it would buy less than one unit at its own price. */
  lemma CullExactly(l: Ledger, o: Order)
    requires ValidOrder(o)
    ensures CullIfSmall(l, o).Some? <==> o.price.base <= o.forSale * o.price.quote || Cancel(l, o).Some?
    ensures CullIfSmall(l, o).Some? ==>
            CullIfSmall(l, o).value == if o.price.base <= o.forSale * o.price.quote then Filled(l, Some(o))
                                       else Filled(Cancel(l, o).value, None)
  {
    hide Cancel;
    ToReceiveOfValid(o);
    AtMostFloor(1, o.forSale * o.price.quote, o.price.base);
  }

  /** What is left of the two orders of a match: what they did not pay.  A taker without
      anything left is gone, and so is a maker whose rest buys less than one unit. */
  lemma MatchLeaves(l: Ledger, taker: Order, maker: Order)
    requires ValidOrder(taker) && Resting(maker) && Opposite(taker, maker) && Match(l, taker, maker).Some?
    ensures TradeAmounts(taker, maker).Some?
    ensures var r, t := Match(l, taker, maker).value, TradeAmounts(taker, maker).value;
            && (r.taker == if t.takerPays == taker.forSale then None
                           else Some(taker.(forSale := taker.forSale - t.takerPays)))
            && (r.maker == if maker.price.base <= (maker.forSale - t.makerPays) * maker.price.quote
                           then Some(maker.(forSale := maker.forSale - t.makerPays)) else None)
  {
    TradeIsFair(taker, maker);
    hide TradeAmounts, PayOut, CullIfSmall;
    var t := TradeAmounts(taker, maker).value;
    var f := Fill(l, taker, t.takerPays, t.makerPays, false).value;
    var m := PayOut(f.ledger, Receiver(maker), maker.price.quoteAsset, t.takerPays).value;
    if t.makerPays < maker.forSale {
      CullExactly(m, maker.(forSale := maker.forSale - t.makerPays));
    }
  }

  /** When an order can be applied, and whether it stays: it does if something of it is left
      that buys at least one unit. */
  lemma ApplyOrderExactly(l: Ledger, book: seq<Order>, taker: Order)
    requires ValidOrder(taker)
    ensures var s := Sweep(l, book[RangeStart(book, taker)..RangeEnd(book, taker)], taker);
            var r := ApplyOrder(l, book, taker);
            && (s.Some? && s.value.taker.Some? && ValidOrder(s.value.taker.value) ==>
                  var left := s.value.taker.value;
                  if left.price.base <= left.forSale * left.price.quote then r.Some? && !r.value.filled
                  else r.Some? == Cancel(s.value.ledger, left).Some? && (r.Some? ==> r.value.filled))
            && (s.Some? && s.value.taker.None? ==> r.Some? && r.value.filled)
            && (s.None? ==> r.None?)
  {
    hide Sweep, Insert, RangeStart, RangeEnd, CullIfSmall, Cancel;
    ToReceiveOfValid(taker);
    var lo, hi := RangeStart(book, taker), RangeEnd(book, taker);
    var s := Sweep(l, book[lo..hi], taker);
    if s.Some? && s.value.taker.Some? && ValidOrder(s.value.taker.value) {
      CullExactly(s.value.ledger, s.value.taker.value);
    }
  }

  /** The priority of the book: in one market a better price first, and of equal prices the
      older order. */
  lemma PriceTimePriority(book: seq<Order>, i: nat, j: nat)
    requires Sorted(book) && i < j < |book|
    requires book[i].price.baseAsset == book[j].price.baseAsset && book[i].price.quoteAsset == book[j].price.quoteAsset
    ensures var p, q := book[i].price, book[j].price;
            && q.base * p.quote <= p.base * q.quote
            && (q.base * p.quote == p.base * q.quote ==> book[i].id < book[j].id)
  {
    assert Before(book[i], book[j]);
  }

  /** One side of a trade: the proceeds come in, the payment goes out. */
  lemma FillEffect(l: Ledger, o: Order, pays: int, receives: int, cull: bool)
    requires ValidLedger(l) && ValidOrder(o) && 0 <= pays <= o.forSale && receives >= 0
    requires Fill(l, o, pays, receives, cull).Some?
    ensures var f := Fill(l, o, pays, receives, cull).value;
            && ValidLedger(f.ledger) && SameRules(l, f.ledger)
            && (f.order.Some? ==>
                  && Reduced(f.order.value, o) && f.order.value.forSale == o.forSale - pays
                  && (cull ==> Resting(f.order.value)))
            && (pays == o.forSale ==> f.order.None?)
            && (!cull && pays < o.forSale ==> f.order.Some?)
            && forall a :: Loose(f.ledger, a) + ForSaleOf(f.order, a) ==
                 Loose(l, a) + ForSaleOf(Some(o), a)
                 + (if a == o.price.quoteAsset then receives else 0) - (if a == o.price.baseAsset then pays else 0)
  {
    PayOutEffect(l, Receiver(o), o.price.quoteAsset, receives);
    var m := PayOut(l, Receiver(o), o.price.quoteAsset, receives).value;
    if pays != o.forSale && cull {
      CullEffect(m, o.(forSale := o.forSale - pays));
    }
  }

  /** A match neither creates nor destroys any asset, and uses up at least one side. */
  lemma MatchEffect(l: Ledger, taker: Order, maker: Order)
    requires ValidLedger(l) && ValidOrder(taker) && Resting(maker) && Opposite(taker, maker)
    requires Match(l, taker, maker).Some?
    ensures var r := Match(l, taker, maker).value;
            && ValidLedger(r.ledger) && SameRules(l, r.ledger)
            && (r.taker.None? || r.maker.None?)
            && (r.taker.Some? ==> Reduced(r.taker.value, taker))
            && (r.maker.Some? ==> Reduced(r.maker.value, maker) && Resting(r.maker.value))
            && forall a :: Loose(r.ledger, a) + ForSaleOf(r.taker, a) + ForSaleOf(r.maker, a) ==
                 Loose(l, a) + ForSaleOf(Some(taker), a) + ForSaleOf(Some(maker), a)
  {
    TradeIsFair(taker, maker);
    var t := TradeAmounts(taker, maker).value;
    FillEffect(l, taker, t.takerPays, t.makerPays, false);
    var x := Fill(l, taker, t.takerPays, t.makerPays, false).value;
    FillEffect(x.ledger, maker, t.makerPays, t.takerPays, true);
  }

  /** What a sweep leaves: a suffix of the makers, its first one possibly reduced. */
  predicate IsSuffix(after: seq<Order>, before: seq<Order>) {
    && |after| <= |before|
    && var k := |before| - |after|;
       after != [] ==> && Reduced(after[0], before[k]) && Resting(after[0])
                       && after[1..] == before[k + 1..]
  }

  lemma RestingIsPositive(o: Order)
    requires Resting(o)
    ensures Reduced(o, o)
  {
  }

  lemma SuffixOfTail(after: seq<Order>, before: seq<Order>)
    requires before != [] && IsSuffix(after, before[1..])
    ensures IsSuffix(after, before)
  {
    hide Reduced, Resting;
    var k := |before| - |after|;
    if after != [] {
      assert before[1..][k - 1] == before[k] && before[1..][k..] == before[k + 1..];
    }
  }

  lemma TailIsSuffix(before: seq<Order>)
    requires before != [] && forall o :: o in before ==> Resting(o)
    ensures IsSuffix(before[1..], before)
  {
    hide Reduced, Resting;
    if |before| > 1 {
      RestingIsPositive(before[1]);
      assert before[1..][1..] == before[2..];
    }
  }

  /** Makers are used up best first, and the new order survives only if all of them are. */
  lemma {:induction false} SweepShape(l: Ledger, makers: seq<Order>, taker: Order)
    requires ValidLedger(l) && ValidOrder(taker)
    requires forall o :: o in makers ==> Resting(o) && Opposite(taker, o)
    requires Sweep(l, makers, taker).Some?
    ensures var s := Sweep(l, makers, taker).value;
            && ValidLedger(s.ledger) && SameRules(l, s.ledger)
            && IsSuffix(s.makers, makers)
            && (s.taker.Some? ==> s.makers == [] && Reduced(s.taker.value, taker))
    decreases |makers|
  {
    hide Match, Resting, ValidLedger;
    if makers != [] {
      MatchEffect(l, taker, makers[0]);
      var r := Match(l, taker, makers[0]).value;
      var s := Sweep(l, makers, taker).value;
      assert forall o :: o in makers[1..] ==> o in makers;
      if r.taker.Some? && r.maker.None? {
        SweepShape(r.ledger, makers[1..], r.taker.value);
        SuffixOfTail(s.makers, makers);
      } else if r.maker.Some? {
        assert s.makers[1..] == makers[1..];
      } else {
        assert s.makers == makers[1..];
        TailIsSuffix(makers);
      }
    }
  }

  /** A sweep conserves every asset across balances, fees and orders. */
  lemma {:induction false} SweepConserves(l: Ledger, makers: seq<Order>, taker: Order, a: AssetId)
    requires ValidLedger(l) && ValidOrder(taker)
    requires forall o :: o in makers ==> Resting(o) && Opposite(taker, o)
    requires Sweep(l, makers, taker).Some?
    ensures var s := Sweep(l, makers, taker).value;
            Loose(s.ledger, a) + Sum(ForSaleIn(a), s.makers) + ForSaleOf(s.taker, a) ==
              Loose(l, a) + Sum(ForSaleIn(a), makers) + ForSaleOf(Some(taker), a)
    decreases |makers|
  {
    hide Match, Resting, ValidLedger;
    if makers != [] {
      MatchEffect(l, taker, makers[0]);
      var r := Match(l, taker, makers[0]).value;
      var s := Sweep(l, makers, taker).value;
      assert forall o :: o in makers[1..] ==> o in makers;
      if r.taker.Some? && r.maker.None? {
        SweepConserves(r.ledger, makers[1..], r.taker.value, a);
      } else if r.maker.Some? {
        assert s.makers[1..] == makers[1..];
      } else {
        assert s.makers == makers[1..];
      }
    }
  }

  // ----- the shape of the book -----

  predicate DistinctIds(book: seq<Order>) {
    forall i, j :: 0 <= i < j < |book| ==> book[i].id != book[j].id
  }

  predicate Uncrossed(book: seq<Order>) {
    forall i, j :: 0 <= i < |book| && 0 <= j < |book| ==> !Crosses(book[i], book[j])
  }

  /** Sorted by price, all orders resting. */
  predicate OrderlyBook(book: seq<Order>, nextId: nat) {
    && Sorted(book) && DistinctIds(book)
    && forall o :: o in book ==> Resting(o) && o.id < nextId
  }

  predicate AllInReach(book: seq<Order>) {
    forall o :: o in book ==> InReach(o)
  }

  /** No two orders that could trade, and all prices within the bounds of the search. */
  predicate SettledBook(book: seq<Order>) {
    Uncrossed(book) && AllInReach(book)
  }

  /** The book holds an order that the new one could trade with and that its search misses. */
  predicate Unreached(book: seq<Order>, taker: Order) {
    exists o :: o in book && Crosses(taker, o) && !InReach(o)
  }

  lemma BeforeTransitive(a: Order, b: Order, c: Order)
    requires a.price.quote > 0 && b.price.quote > 0 && c.price.quote > 0
    requires Before(a, b) && Before(b, c)
    ensures Before(a, c)
  {
    LessTransitive(c.price, b.price, a.price);
  }

  /** The iterator range of `apply_order` holds exactly the orders that cross the new one and
      whose price is not above the highest one. */
  lemma RangeIsExact(book: seq<Order>, taker: Order, i: nat)
    requires Sorted(book) && i < |book| && ValidOrder(taker)
    requires forall o :: o in book ==> ValidOrder(o)
    ensures RangeStart(book, taker) <= i < RangeEnd(book, taker) <==> Crosses(taker, book[i]) && InReach(book[i])
  {
    hide Less;
    assert book[i] in book;
    StartIsExact(book, MaxPrice(taker.price.quoteAsset, taker.price.baseAsset), i);
    EndIsExact(book, Inverse(taker.price), i);
    CrossingPrices(book[i].price, taker.price);
  }

  lemma BeforeIsNotLess(a: Order, b: Order)
    requires Before(a, b)
    ensures !Less(a.price, b.price)
  {
  }

  lemma StartIsExact(book: seq<Order>, p: Price, i: nat)
    requires Sorted(book) && i < |book| && p.quote > 0 && forall o :: o in book ==> o.price.quote > 0
    ensures FirstNotAbove(book, p) <= i <==> !Less(p, book[i].price)
  {
    hide Less;
    var lo := FirstNotAbove(book, p);
    if lo < i {
      BeforeIsNotLess(book[lo], book[i]);
      LessTransitive(book[i].price, book[lo].price, p);
    }
  }

  lemma EndIsExact(book: seq<Order>, p: Price, i: nat)
    requires Sorted(book) && i < |book| && p.quote > 0 && forall o :: o in book ==> o.price.quote > 0
    ensures i < FirstBelow(book, p) <==> !Less(book[i].price, p)
  {
    hide Less;
    var hi := FirstBelow(book, p);
    if hi < i {
      BeforeIsNotLess(book[hi], book[i]);
      LessIsNotGreater(book[hi].price, p);
      LessTransitive(book[i].price, book[hi].price, p);
    }
  }

  lemma LessIsNotGreater(p: Price, q: Price)
    requires Less(p, q)
    ensures !Less(q, p)
  {
  }

  /** Between the bound and the maximum of the opposite market lie exactly the prices that
      cross and are not above that maximum. */
  lemma CrossingPrices(p: Price, own: Price)
    requires ValidPrice(p) && ValidPrice(own) && own.quote <= MAX_SHARE_SUPPLY
    ensures var crosses := p.baseAsset == own.quoteAsset && p.quoteAsset == own.baseAsset
                           && own.quote * p.quote <= own.base * p.base;
            !Less(MaxPrice(own.quoteAsset, own.baseAsset), p) && !Less(p, Inverse(own)) <==>
            crosses && p.base <= MAX_SHARE_SUPPLY * p.quote
  {
  }

  /** `rest` is `book` with `k` orders taken out from position `lo` on; the order that
      then stands at `lo` may be reduced. */
  predicate Thinned(rest: seq<Order>, book: seq<Order>, lo: nat, k: nat) {
    && |rest| + k == |book| && lo <= |rest|
    && forall i :: 0 <= i < |rest| ==> Reduced(rest[i], book[if i < lo then i else i + k]) && Resting(rest[i])
  }

  lemma ThinnedIsOrderly(rest: seq<Order>, book: seq<Order>, lo: nat, k: nat, nextId: nat)
    requires OrderlyBook(book, nextId) && Thinned(rest, book, lo, k)
    ensures OrderlyBook(rest, nextId)
  {
    hide Resting, Less;
    forall i, j | 0 <= i < j < |rest| ensures Before(rest[i], rest[j]) && rest[i].id != rest[j].id {
      var x, y := if i < lo then i else i + k, if j < lo then j else j + k;
      assert Before(book[x], book[y]) && book[x].id != book[y].id;
    }
    forall o | o in rest ensures Resting(o) && o.id < nextId {
      var i :| 0 <= i < |rest| && rest[i] == o;
      assert book[if i < lo then i else i + k] in book;
    }
  }

  lemma ThinnedIsUncrossed(rest: seq<Order>, book: seq<Order>, lo: nat, k: nat)
    requires Uncrossed(book) && Thinned(rest, book, lo, k)
    ensures Uncrossed(rest)
  {
    hide Resting, Less;
    forall i, j | 0 <= i < |rest| && 0 <= j < |rest| ensures !Crosses(rest[i], rest[j]) {
      var x, y := if i < lo then i else i + k, if j < lo then j else j + k;
      assert !Crosses(book[x], book[y]);
    }
  }

  lemma ThinnedInReach(rest: seq<Order>, book: seq<Order>, lo: nat, k: nat)
    requires AllInReach(book) && Thinned(rest, book, lo, k)
    ensures AllInReach(rest)
  {
    hide Resting;
    forall o | o in rest ensures InReach(o) {
      var i :| 0 <= i < |rest| && rest[i] == o;
      assert book[if i < lo then i else i + k] in book;
    }
  }

  /** Replacing a slice of the book by what a sweep leaves of it thins the book. */
  lemma SweptIsThinned(book: seq<Order>, lo: nat, hi: nat, after: seq<Order>)
    requires lo <= hi <= |book| && IsSuffix(after, book[lo..hi])
    requires forall o :: o in book ==> Resting(o)
    ensures Thinned(book[..lo] + after + book[hi..], book, lo, hi - lo - |after|)
  {
    hide Resting;
    var rest, k := book[..lo] + after + book[hi..], hi - lo - |after|;
    forall i | 0 <= i < |rest|
      ensures Reduced(rest[i], book[if i < lo then i else i + k]) && Resting(rest[i])
    {
      var x := if i < lo then i else i + k;
      assert book[x] in book;
      RestingIsPositive(book[x]);
      if lo < i < lo + |after| {
        assert rest[i] == after[i - lo] == after[1..][i - lo - 1] == book[lo..hi][k + 1..][i - lo - 1];
      }
    }
  }

  /** Inserting an order keeps the book sorted. */
  lemma InsertIsOrderly(book: seq<Order>, o: Order, nextId: nat)
    requires OrderlyBook(book, nextId) && Resting(o) && o.id == nextId
    ensures OrderlyBook(Insert(book, o), nextId + 1)
  {
    var n, all := PlaceOf(book, o), Insert(book, o);
    InsertIsSorted(book, o);
    hide Resting, Less;
    forall i, j | 0 <= i < j < |all| ensures all[i].id != all[j].id {
      assert i != n ==> all[i] in book;
      assert j != n ==> all[j] in book;
      if i != n && j != n {
        assert book[if i < n then i else i - 1].id != book[if j < n then j else j - 1].id;
      }
    }
  }

  /** Inserting an order keeps the book uncrossed exactly if it crosses nothing. */
  lemma InsertIsUncrossed(book: seq<Order>, o: Order)
    requires Uncrossed(book) && Resting(o)
    ensures Uncrossed(Insert(book, o)) <==> forall x :: x in book ==> !Crosses(o, x)
  {
    hide Resting, Less;
    var n, all := PlaceOf(book, o), Insert(book, o);
    if x :| x in book && Crosses(o, x) {
      InsertHolds(book, o, x);
      var j :| 0 <= j < |all| && all[j] == x;
      assert all[n] == o && Crosses(all[n], all[j]);
      return;
    }
    forall i, j | 0 <= i < |all| && 0 <= j < |all| ensures !Crosses(all[i], all[j]) {
      assert i != n ==> all[i] in book;
      assert j != n ==> all[j] in book;
      if i != n && j != n {
        assert !Crosses(book[if i < n then i else i - 1], book[if j < n then j else j - 1]);
      } else if i != n {
        CrossesSymmetric(o, all[i]);
      } else if j == n {
        NoSelfCross(o);
      }
    }
  }

  lemma InsertHolds(book: seq<Order>, o: Order, x: Order)
    ensures x in Insert(book, o) <==> x == o || x in book
  {
    var n, all := PlaceOf(book, o), Insert(book, o);
    if x == o {
      assert all[n] == x;
    } else if x in book {
      var i :| 0 <= i < |book| && book[i] == x;
      assert all[if i < n then i else i + 1] == x;
    }
  }

  lemma CrossesSymmetric(a: Order, b: Order)
    ensures Crosses(a, b) == Crosses(b, a)
  {
  }

  lemma NoSelfCross(o: Order)
    requires Resting(o)
    ensures !Crosses(o, o)
  {
  }

  lemma InsertIsSorted(book: seq<Order>, o: Order)
    requires Sorted(book) && o.price.quote > 0
    requires forall x :: x in book ==> x.price.quote > 0 && x.id != o.id
    ensures Sorted(Insert(book, o))
  {
    var n, all := PlaceOf(book, o), Insert(book, o);
    forall i, j | 0 <= i < j < |all| ensures Before(all[i], all[j]) {
      if j < n {
      } else if j == n {
        assert !Before(o, book[i]);
      } else if i == n {
        if j > n + 1 { BeforeTransitive(o, book[n], book[j - 1]); }
      } else {
        assert Before(book[if i < n then i else i - 1], book[j - 1]);
      }
    }
  }
}
