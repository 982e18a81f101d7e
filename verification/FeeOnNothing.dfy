/** A run of order creations in which a market fee exceeds the proceeds it is taken from. */
module FeeOnNothing {
  import opened Wrappers
  import opened Ledger
  import opened Prices
  import opened Market
  import opened OrderBook
  import opened Exchange

  const ASSETS := map[3 := AssetData(1000, 0, false, 0, 0), 4 := AssetData(1000, 0, true, 100, 1000)]

  /** Account 1 sells asset 4, which charges one percent; account 2 buys it with asset 3. */
  const START := Exchange(Ledger([Balance(1, 4, 20, 0), Balance(2, 3, 21, 0)], ASSETS), [], 0)

  const FIRST := CreateOrder(1, Asset(10, 4), 0, Asset(20, 3), None, false)
  const SECOND := CreateOrder(1, Asset(10, 4), 0, Asset(21, 3), None, false)
  const THIRD := CreateOrder(2, Asset(21, 3), 0, Asset(10, 4), None, false)

  const MAKER_1 := Order(0, 1, 10, Price(10, 4, 20, 3), None, false)
  const MAKER_2 := Order(1, 1, 10, Price(10, 4, 21, 3), None, false)
  const TAKER := Order(2, 2, 21, Price(21, 3, 10, 4), None, false)
  const LEFT := Order(2, 2, 1, Price(21, 3, 10, 4), None, false)

  const AFTER_1 := Exchange(Ledger([Balance(1, 4, 10, 0), Balance(2, 3, 21, 0)], ASSETS), [MAKER_1], 1)
  const AFTER_2 := Exchange(Ledger([Balance(1, 4, 0, 0), Balance(2, 3, 21, 0)], ASSETS), [MAKER_1, MAKER_2], 2)

  /** The buyer has paid with its asset, and traded with the first and then with the second seller. */
  const PAID := Ledger([Balance(1, 4, 0, 0), Balance(2, 3, 0, 0)], ASSETS)
  const TRADED_1 := Ledger([Balance(1, 4, 0, 0), Balance(2, 3, 0, 0), Balance(2, 4, 9, 0), Balance(1, 3, 20, 0)],
                           ASSETS[4 := AssetData(1000, 1, true, 100, 1000)])
  const CHARGED := Ledger([Balance(1, 4, 0, 0), Balance(2, 3, 0, 0), Balance(2, 4, 8, 0), Balance(1, 3, 20, 0)],
                          ASSETS[4 := AssetData(1000, 2, true, 100, 1000)])
  const TRADED_2 := Ledger([Balance(1, 4, 0, 0), Balance(2, 3, 0, 0), Balance(2, 4, 8, 0), Balance(1, 3, 21, 0)],
                           ASSETS[4 := AssetData(1000, 2, true, 100, 1000)])

  lemma PlacesFirst()
    ensures Create(START, FIRST) == Some(AFTER_1)
  {
    var l := Ledger([Balance(1, 4, 10, 0), Balance(2, 3, 21, 0)], ASSETS);
    AdjustsAt(START.ledger, 0, -10, l);
    assert NewOrder(FIRST, 0) == MAKER_1;
    assert Sweep(l, [], MAKER_1) == Some(Swept(l, [], Some(MAKER_1)));
    assert Insert([], MAKER_1) == [MAKER_1];
    assert ToReceive(MAKER_1) == Some(Asset(20, 3));
  }

  lemma PlacesSecond()
    ensures Create(AFTER_1, SECOND) == Some(AFTER_2)
  {
    var l := Ledger([Balance(1, 4, 0, 0), Balance(2, 3, 21, 0)], ASSETS);
    AdjustsAt(AFTER_1.ledger, 0, -10, l);
    assert NewOrder(SECOND, 1) == MAKER_2;
    var book := [MAKER_1];
    var lo := RangeStart(book, MAKER_2);
    assert RangeEnd(book, MAKER_2) == lo;
    assert book[lo..lo] == [] && book[..lo] + [] + book[lo..] == book;
    assert Sweep(l, [], MAKER_2) == Some(Swept(l, [], Some(MAKER_2)));
    assert PlaceOf(book, MAKER_2) == 1;
    assert Insert(book, MAKER_2) == [MAKER_1, MAKER_2];
    assert ToReceive(MAKER_2) == Some(Asset(21, 3));
  }

  lemma MatchesFirst()
    ensures Match(PAID, TAKER, MAKER_1) == Some(Matched(TRADED_1, Some(LEFT), None))
  {
    assert TradeAmounts(TAKER, MAKER_1) == Some(Trade(20, 10));
    assert MarketFee(ASSETS[4], 10) == 1;
    var l := Ledger([Balance(1, 4, 0, 0), Balance(2, 3, 0, 0), Balance(2, 4, 9, 0)],
                    ASSETS[4 := AssetData(1000, 1, true, 100, 1000)]);
    AdjustsNew(AddFees(PAID, 4, 1).value, 2, 4, 9, l);
    AdjustsNew(l, 1, 3, 20, TRADED_1);
  }

  lemma BuysNothing()
    ensures TradeAmounts(LEFT, MAKER_2) == Some(Trade(1, 0))
  {
  }

  lemma ChargedForNothing()
    ensures MarketFee(TRADED_1.assets[4], 0) == 1 && PayOut(TRADED_1, 2, 4, 0) == Some(CHARGED)
  {
    hide Adjust;
    AdjustsAt(AddFees(TRADED_1, 4, 1).value, 2, -1, CHARGED);
  }

  lemma SellerIsPaid()
    ensures PayOut(CHARGED, 1, 3, 1) == Some(TRADED_2)
    ensures CullIfSmall(TRADED_2, MAKER_2) == Some(Filled(TRADED_2, Some(MAKER_2)))
  {
    hide Adjust;
    AdjustsAt(CHARGED, 3, 1, TRADED_2);
    assert ToReceive(MAKER_2) == Some(Asset(21, 3));
  }

  /** What is left of the buyer's order buys nothing from the second seller, is taken anyway,
      and a fee of one unit is charged on nothing. */
  lemma MatchesSecond()
    ensures TradeAmounts(LEFT, MAKER_2) == Some(Trade(1, 0)) && MarketFee(TRADED_1.assets[4], 0) == 1
    ensures Match(TRADED_1, LEFT, MAKER_2) == Some(Matched(TRADED_2, None, Some(MAKER_2)))
  {
    hide PayOut, CullIfSmall;
    BuysNothing();
    ChargedForNothing();
    SellerIsPaid();
  }

  lemma PlacesThird()
    ensures Create(AFTER_2, THIRD) == Some(Exchange(TRADED_2, [MAKER_2], 3))
  {
    hide Match;
    AdjustsAt(AFTER_2.ledger, 1, -21, PAID);
    assert NewOrder(THIRD, 2) == TAKER;
    assert RangeStart([MAKER_1, MAKER_2], TAKER) == 0 && RangeEnd([MAKER_1, MAKER_2], TAKER) == 2;
    MatchesFirst();
    MatchesSecond();
    var book := [MAKER_1, MAKER_2];
    assert book[0..2] == book && book[1..] == [MAKER_2] && [MAKER_2] + [MAKER_2][1..] == [MAKER_2];
    assert Sweep(TRADED_1, [MAKER_2], LEFT) == Some(Swept(TRADED_2, [MAKER_2], None));
    assert Sweep(PAID, [MAKER_1, MAKER_2], TAKER) == Some(Swept(TRADED_2, [MAKER_2], None));
    assert book[..0] + [MAKER_2] + book[2..] == [MAKER_2];
    assert ToReceive(TAKER) == Some(Asset(10, 4));
  }

  /** Three orders from an empty book: the buyer is charged a fee on a trade that pays it
      nothing, and ends with 8 units where its trades were worth 9 after fees. */
  lemma FeeExceedsProceeds()
    ensures Valid(START)
    ensures var e := Run(START, [FIRST, SECOND, THIRD]);
            e == Exchange(TRADED_2, [MAKER_2], 3) && GetBalance(e.ledger, 2, 4) == 8
    ensures Match(PAID, TAKER, MAKER_1) == Some(Matched(TRADED_1, Some(LEFT), None))
    ensures TradeAmounts(LEFT, MAKER_2) == Some(Trade(1, 0)) && MarketFee(TRADED_1.assets[4], 0) == 1
  {
    hide Create, Match;
    PlacesFirst();
    PlacesSecond();
    PlacesThird();
    MatchesFirst();
    MatchesSecond();
    var ops := [FIRST, SECOND, THIRD];
    assert ops[1..] == [SECOND, THIRD] && [SECOND, THIRD][1..] == [THIRD] && [THIRD][1..] == [];
    assert Run(AFTER_2, [THIRD]) == Exchange(TRADED_2, [MAKER_2], 3);
    assert Run(AFTER_1, [SECOND, THIRD]) == Run(AFTER_2, [THIRD]);
    StartIsValid();
  }

  lemma StartIsValid()
    ensures Valid(START)
  {
    forall a ensures Circulating(START.ledger, [], a) <= MAX_SHARE_SUPPLY {
      assert START.ledger.balances[1..] == [Balance(2, 3, 21, 0)];
    }
  }
}
