/** A run of order creations that leaves the book crossed: an offer above the highest price. */
module OutOfReach {
  import opened Wrappers
  import opened Ledger
  import opened Prices
  import opened Market
  import opened OrderBook
  import opened Exchange

  const MUCH := 2 * MAX_SHARE_SUPPLY

  const ASSETS := map[3 := AssetData(1, 0, false, 0, 0), 4 := AssetData(MUCH, 0, false, 0, 0)]

  /** Account 1 holds twice the maximal supply of asset 4, account 2 one unit of asset 3. */
  const START := Exchange(Ledger([Balance(1, 4, MUCH, 0), Balance(2, 3, 1, 0)], ASSETS), [], 0)

  const OFFER := CreateOrder(1, Asset(MUCH, 4), 0, Asset(1, 3), None, false)
  const BID := CreateOrder(2, Asset(1, 3), 0, Asset(1, 4), None, false)

  const MAKER := Order(0, 1, MUCH, Price(MUCH, 4, 1, 3), None, false)
  const TAKER := Order(1, 2, 1, Price(1, 3, 1, 4), None, false)

  const OFFERED := Ledger([Balance(1, 4, 0, 0), Balance(2, 3, 1, 0)], ASSETS)
  const PAID := Ledger([Balance(1, 4, 0, 0), Balance(2, 3, 0, 0)], ASSETS)

  lemma Targets()
    ensures ToReceive(MAKER) == Some(Asset(1, 3)) && ToReceive(TAKER) == Some(Asset(1, 4))
  {
  }

  lemma Holdings()
    ensures GetBalance(START.ledger, 1, 4) == MUCH
  {
  }

  lemma InsertsFirst(o: Order)
    ensures Insert([], o) == [o]
  {
  }

  lemma Offers()
    ensures Create(START, OFFER) == Some(Exchange(OFFERED, [MAKER], 1))
  {
    hide ToReceive, Adjust, GetBalance, Less, Match, Insert, RangeStart, RangeEnd;
    Targets();
    Holdings();
    AdjustsAt(START.ledger, 0, -MUCH, OFFERED);
    assert NewOrder(OFFER, 0) == MAKER;
    var book: seq<Order> := [];
    var lo, hi := RangeStart(book, MAKER), RangeEnd(book, MAKER);
    assert book[lo..hi] == [] && book[..lo] + [] + book[hi..] == [];
    assert Sweep(OFFERED, [], MAKER) == Some(Swept(OFFERED, [], Some(MAKER)));
    assert Insert([], MAKER) == [MAKER] by { InsertsFirst(MAKER); }
  }

  /** The search of the bid does not find the offer. */
  lemma Bids()
    ensures Create(Exchange(OFFERED, [MAKER], 1), BID) == Some(Exchange(PAID, Insert([MAKER], TAKER), 2))
  {
    hide ToReceive, Adjust;
    Targets();
    AdjustsAt(OFFERED, 1, -1, PAID);
    assert NewOrder(BID, 1) == TAKER;
    var book := [MAKER];
    var lo := RangeStart(book, TAKER);
    assert RangeEnd(book, TAKER) == lo;
    assert book[lo..lo] == [] && book[..lo] + [] + book[lo..] == book;
    assert Sweep(PAID, [], TAKER) == Some(Swept(PAID, [], Some(TAKER)));
  }

  /** From an empty book, a bid for one unit stays next to an offer of twice the maximal supply
      for the same price: they cross, and are not matched. */
  lemma LeavesBookCrossed()
    ensures Orderly(START) && Uncrossed(START.book)
    ensures var e := Run(START, [OFFER, BID]);
            && e.ledger == PAID && MAKER in e.book && TAKER in e.book
            && Crosses(TAKER, MAKER) && !InReach(MAKER) && !Uncrossed(e.book)
  {
    hide Create, Insert;
    Offers();
    Bids();
    assert [OFFER, BID][1..] == [BID] && [BID][1..] == [];
    assert Run(Exchange(OFFERED, [MAKER], 1), [BID]) == Exchange(PAID, Insert([MAKER], TAKER), 2);
    var book := Insert([MAKER], TAKER);
    InsertHolds([MAKER], TAKER, TAKER);
    InsertHolds([MAKER], TAKER, MAKER);
    var i :| 0 <= i < |book| && book[i] == TAKER;
    var j :| 0 <= j < |book| && book[j] == MAKER;
    assert Crosses(book[i], book[j]);
  }
}
