/** Who receives what in a trade. */
module MarketPayments {
  import opened Wrappers
  import opened Ledger
  import opened Prices
  import opened Market
  import opened OrderBook

  /** Proceeds go to the receiver less the fee of the asset, and the fee to its accumulator. */
  lemma PayOutPays(l: Ledger, to: Account, asset: AssetId, receives: int) returns (fee: int)
    requires PayOut(l, to, asset, receives).Some?
    ensures Charged(l, asset, receives, fee)
    ensures var m := PayOut(l, to, asset, receives).value;
            && SameRules(l, m)
            && Pays(l, m, to, asset, receives - fee, 0)
            && Fees(m, asset) == Fees(l, asset) + if fee > 0 then fee else 0
  {
    hide Adjust, Find;
    fee := MarketFee(l.assets[asset], receives);
    if receives >= 0 && ValidFeeOptions(l.assets[asset]) {
      FeeIsPercentage(l.assets[asset], receives, fee);
    }
    var n := if fee > 0 then AddFees(l, asset, fee).value else l;
    SameBalancesPay(l, n);
    AdjustPays(n, to, asset, receives - fee, 0);
    AdjustKeepsAssets(n, to, asset, receives - fee);
  }

  /** `fee` is what the asset charges on those proceeds. */
  predicate Charged(l: Ledger, asset: AssetId, receives: int, fee: int) {
    && asset in l.assets
    && (receives >= 0 && ValidFeeOptions(l.assets[asset]) ==> IsMarketFee(l.assets[asset], receives, fee))
  }

  lemma ChargedSame(l: Ledger, m: Ledger, asset: AssetId, receives: int, fee: int)
    requires SameRules(l, m) && Charged(m, asset, receives, fee)
    ensures Charged(l, asset, receives, fee)
  {
  }

  lemma SameBalancesPay(l: Ledger, n: Ledger)
    requires n.balances == l.balances
    ensures forall o, a :: GetBalance(n, o, a) == GetBalance(l, o, a) && Owned(n, o, a) == Owned(l, o, a)
  {
  }

  lemma AdjustKeepsAssets(l: Ledger, owner: Account, asset: AssetId, delta: int)
    requires Adjust(l, owner, asset, delta, 0).Some?
    ensures Adjust(l, owner, asset, delta, 0).value.assets == l.assets
  {
  }

  /** The unsold part of an order goes back to the seller, to its reserve if it came from there. */
  lemma CancelPays(l: Ledger, o: Order)
    requires Cancel(l, o).Some?
    ensures var m, asset := Cancel(l, o).value, o.price.baseAsset;
            && m.assets == l.assets
            && (o.fromReserve ==> Pays(l, m, o.seller, asset, 0, o.forSale))
            && (!o.fromReserve ==> Pays(l, m, o.seller, asset, o.forSale, 0))
            && forall x, a :: Owned(m, x, a) == Owned(l, x, a) + For(x, a, o.seller, asset, o.forSale)
  {
    if o.fromReserve {
      AdjustPays(l, o.seller, o.price.baseAsset, 0, o.forSale);
    } else {
      AdjustPays(l, o.seller, o.price.baseAsset, o.forSale, 0);
    }
  }

  /** What one side of a trade gets: the proceeds less the fee for the account to be credited,
      or the seller if none is named, and for the seller what is left of an order that is
      closed. */
  function SideGets(x: Account, a: AssetId, o: Order, pays: int, receives: int, fee: int, closed: bool): int {
    For(x, a, if o.creditTo.Some? then o.creditTo.value else o.seller, o.price.quoteAsset, receives - fee)
    + if closed then For(x, a, o.seller, o.price.baseAsset, o.forSale - pays) else 0
  }

  lemma FillPays(l: Ledger, o: Order, pays: int, receives: int, cull: bool) returns (fee: int)
    requires Fill(l, o, pays, receives, cull).Some?
    ensures Charged(l, o.price.quoteAsset, receives, fee)
    ensures var f := Fill(l, o, pays, receives, cull).value;
            && SameRules(l, f.ledger)
            && forall x, a :: Owned(f.ledger, x, a) == Owned(l, x, a)
                 + SideGets(x, a, o, pays, receives, fee, f.order.None?)
  {
    hide PayOut, Cancel, Charged;
    var m := PayOut(l, Receiver(o), o.price.quoteAsset, receives).value;
    fee := PayOutPays(l, Receiver(o), o.price.quoteAsset, receives);
    var rest := o.(forSale := o.forSale - pays);
    if pays != o.forSale && cull && CullIfSmall(m, rest).value.order.None? {
      CancelPays(m, rest);
    }
  }

  /** In a match the taker's receiver gets what the maker pays and the maker's receiver what
      the taker pays, each less the fee of that asset; a maker too small to go on gets the
      rest of its order back; nobody else is touched. */
  lemma MatchPays(l: Ledger, taker: Order, maker: Order) returns (takerFee: int, makerFee: int)
    requires Match(l, taker, maker).Some?
    ensures TradeAmounts(taker, maker).Some?
    ensures var t := TradeAmounts(taker, maker).value;
            && Charged(l, taker.price.quoteAsset, t.makerPays, takerFee)
            && Charged(l, maker.price.quoteAsset, t.takerPays, makerFee)
    ensures var r, t := Match(l, taker, maker).value, TradeAmounts(taker, maker).value;
            && SameRules(l, r.ledger)
            && forall x, a :: Owned(r.ledger, x, a) == Owned(l, x, a)
                 + SideGets(x, a, taker, t.takerPays, t.makerPays, takerFee, r.taker.None?)
                 + SideGets(x, a, maker, t.makerPays, t.takerPays, makerFee, r.maker.None?)
  {
    hide Fill, Charged, SideGets;
    var t := TradeAmounts(taker, maker).value;
    takerFee := FillPays(l, taker, t.takerPays, t.makerPays, false);
    var f := Fill(l, taker, t.takerPays, t.makerPays, false).value;
    makerFee := FillPays(f.ledger, maker, t.makerPays, t.takerPays, true);
    ChargedSame(l, f.ledger, maker.price.quoteAsset, t.takerPays, makerFee);
  }
}
