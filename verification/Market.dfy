/** The limit-order matching engine: what it does to orders, balances and fees. */
module Market {
  import opened Wrappers
  import opened Sums
  import opened Arithmetic
  import opened Ledger
  import opened Prices

  /** An offer of `forSale` units of the base asset at `price`. */
  datatype Order = Order(id: nat, seller: Account, forSale: int, price: Price,
                         creditTo: Option<Account>, fromReserve: bool)

  function Receiver(o: Order): Account {
    if o.creditTo.Some? then o.creditTo.value else o.seller
  }

  /** `amount_to_receive` of an order. */
  function ToReceive(o: Order): Option<Asset> {
    Times(Asset(o.forSale, o.price.baseAsset), o.price)
  }

  /** The fee an asset's issuer takes from a trade; at least one unit once it charges. */
  function MarketFee(d: AssetData, amount: int): int {
    if !d.chargesFees || d.feePercent == 0 then 0
    else
      var a := amount * d.feePercent / HUNDRED_PERCENT;
      var fee := if a == 0 then 1 else a;
      if fee > d.maxFee then d.maxFee else fee
  }

  /** Give the unsold part of an order back to its seller. */
  function Cancel(l: Ledger, o: Order): Option<Ledger> {
    if o.fromReserve then Adjust(l, o.seller, o.price.baseAsset, 0, o.forSale)
    else Adjust(l, o.seller, o.price.baseAsset, o.forSale, 0)
  }

  datatype Filled = Filled(ledger: Ledger, order: Option<Order>)

  /** Refund an order that is too small to buy anything at its own price. */
  function CullIfSmall(l: Ledger, o: Order): Option<Filled> {
    match ToReceive(o)
    case None => None
    case Some(r) =>
      if r.amount != 0 then Some(Filled(l, Some(o)))
      else match Cancel(l, o)
        case None => None
        case Some(m) => Some(Filled(m, None))
  }

  /** Credit the proceeds less the market fee. */
  function PayOut(l: Ledger, to: Account, asset: AssetId, receives: int): Option<Ledger> {
    if asset !in l.assets then None
    else
      var fee := MarketFee(l.assets[asset], receives);
      var m := if fee > 0 then AddFees(l, asset, fee) else Some(l);
      match m
      case None => None
      case Some(n) => Adjust(n, to, asset, receives - fee, 0)
  }

  /** One side of a trade. */
  function Fill(l: Ledger, o: Order, pays: int, receives: int, cullIfSmall: bool): Option<Filled> {
    match PayOut(l, Receiver(o), o.price.quoteAsset, receives)
    case None => None
    case Some(m) =>
      if pays == o.forSale then Some(Filled(m, None))
      else
        var rest := o.(forSale := o.forSale - pays);
        if cullIfSmall then CullIfSmall(m, rest) else Some(Filled(m, Some(rest)))
  }

  datatype Trade = Trade(takerPays: int, makerPays: int)

  /** Who pays what when a new order meets a resting one, at the resting order's price. */
  function TradeAmounts(taker: Order, maker: Order): Option<Trade> {
    match Times(Asset(maker.forSale, maker.price.baseAsset), maker.price)
    case None => None
    case Some(most) =>
      if taker.forSale <= most.amount then
        match Times(Asset(taker.forSale, maker.price.quoteAsset), maker.price)
        case None => None
        case Some(got) => Some(Trade(taker.forSale, got.amount))
      else Some(Trade(most.amount, maker.forSale))
  }

  datatype Matched = Matched(ledger: Ledger, taker: Option<Order>, maker: Option<Order>)

  function Match(l: Ledger, taker: Order, maker: Order): Option<Matched> {
    match TradeAmounts(taker, maker)
    case None => None
    case Some(t) =>
      match Fill(l, taker, t.takerPays, t.makerPays, false)
      case None => None
      case Some(x) =>
        match Fill(x.ledger, maker, t.makerPays, t.takerPays, true)
        case None => None
        case Some(y) => Some(Matched(y.ledger, x.order, y.order))
  }

  datatype Swept = Swept(ledger: Ledger, makers: seq<Order>, taker: Option<Order>)

  /** Match a new order against resting ones, best first, while only they are used up. */
  function Sweep(l: Ledger, makers: seq<Order>, taker: Order): Option<Swept>
    decreases |makers|
  {
    if makers == [] then Some(Swept(l, [], Some(taker)))
    else match Match(l, taker, makers[0])
      case None => None
      case Some(r) =>
        if r.taker.Some? && r.maker.None? then Sweep(r.ledger, makers[1..], r.taker.value)
        else Some(Swept(r.ledger, (if r.maker.Some? then [r.maker.value] else []) + makers[1..], r.taker))
  }

  // ----- orders and trades that the engine can meet -----

  predicate ValidOrder(o: Order) {
    && ValidPrice(o.price)
    && 0 < o.forSale <= o.price.base
    && o.price.quote <= MAX_SHARE_SUPPLY
  }

  /** The price is at most the highest one, from which the engine starts its search. */
  predicate InReach(o: Order) {
    o.price.base <= MAX_SHARE_SUPPLY * o.price.quote
  }

  /** A resting order buys at least one unit at its own price. */
  predicate Resting(o: Order) {
    ValidOrder(o) && o.forSale * o.price.quote / o.price.base >= 1
  }

  /** Each of two orders sells what the other wants. */
  predicate Opposite(a: Order, b: Order) {
    a.price.baseAsset == b.price.quoteAsset && a.price.quoteAsset == b.price.baseAsset
  }

  /** Opposite orders that could trade: what one asks is at most what the other offers. */
  predicate Crosses(a: Order, b: Order) {
    Opposite(a, b) && a.price.quote * b.price.quote <= a.price.base * b.price.base
  }

  lemma ToReceiveOfValid(o: Order)
    requires ValidOrder(o)
    ensures ToReceive(o) == Some(Asset(o.forSale * o.price.quote / o.price.base, o.price.quoteAsset))
    ensures 0 <= o.forSale * o.price.quote / o.price.base <= o.price.quote
  {
    MulMono(o.forSale, o.price.base, o.price.quote);
    Floor(o.forSale * o.price.quote, o.price.base);
    AtMostFloor(0, o.forSale * o.price.quote, o.price.base);
    if o.forSale * o.price.quote / o.price.base > o.price.quote {
      MulMono(o.price.quote + 1, o.forSale * o.price.quote / o.price.base, o.price.base);
      assert false;
    }
  }

  /** The amounts of a trade, unless a conversion fails. */
  lemma TradeValues(taker: Order, maker: Order)
    requires ValidOrder(taker) && ValidOrder(maker) && Opposite(taker, maker)
    requires TradeAmounts(taker, maker).Some?
    ensures var b, q := maker.price.base, maker.price.quote;
            TradeAmounts(taker, maker) == Some(
              if taker.forSale <= maker.forSale * q / b then Trade(taker.forSale, taker.forSale * b / q)
              else Trade(maker.forSale * q / b, maker.forSale))
    ensures var b, q := maker.price.base, maker.price.quote;
            taker.forSale <= maker.forSale * q / b ==> 0 <= taker.forSale * b / q <= maker.forSale
  {
    ToReceiveOfValid(maker);
    var b, q := maker.price.base, maker.price.quote;
    var most := maker.forSale * q / b;
    if taker.forSale <= most {
      MulMono(taker.forSale, most, b);
      FloorMono(taker.forSale * b, most * b, q);
      ThereAndBack(maker.forSale, q, b);
      AtMostFloor(0, taker.forSale * b, q);
    }
  }

  /** A conversion fails exactly if the taker is used up and would buy more than the maximal
      supply; never if the maker has no more than that for sale. */
  lemma TradeFailsExactly(taker: Order, maker: Order)
    requires ValidOrder(taker) && ValidOrder(maker) && Opposite(taker, maker)
    ensures var b, q := maker.price.base, maker.price.quote;
            TradeAmounts(taker, maker).None? <==>
            taker.forSale <= maker.forSale * q / b && taker.forSale * b / q > MAX_SHARE_SUPPLY
    ensures maker.forSale <= MAX_SHARE_SUPPLY ==> TradeAmounts(taker, maker).Some?
  {
    ToReceiveOfValid(maker);
    var b, q := maker.price.base, maker.price.quote;
    var most := maker.forSale * q / b;
    if taker.forSale <= most {
      MulMono(taker.forSale, most, b);
      FloorMono(taker.forSale * b, most * b, q);
      ThereAndBack(maker.forSale, q, b);
    }
  }

  /** In every trade neither side pays more than it has for sale, at least one side is used
      up, and the resting order gets at least one unit. */
  lemma TradeIsFair(taker: Order, maker: Order)
    requires ValidOrder(taker) && Resting(maker) && Opposite(taker, maker)
    requires TradeAmounts(taker, maker).Some?
    ensures var t := TradeAmounts(taker, maker).value;
            && 0 < t.takerPays <= taker.forSale
            && 0 <= t.makerPays <= maker.forSale
            && (t.takerPays == taker.forSale || t.makerPays == maker.forSale)
  {
    TradeValues(taker, maker);
  }

  /** Each side receives at least what its own limit price asks for what it pays. */
  lemma TradeKeepsLimits(taker: Order, maker: Order)
    requires ValidOrder(taker) && Resting(maker) && Crosses(taker, maker)
    requires TradeAmounts(taker, maker).Some?
    ensures var t := TradeAmounts(taker, maker).value;
            && t.makerPays * maker.price.quote / maker.price.base <= t.takerPays
            && t.takerPays * taker.price.quote / taker.price.base <= t.makerPays
  {
    TradeValues(taker, maker);
    var t := TradeAmounts(taker, maker).value;
    TradeLimits(t.takerPays, t.makerPays, taker.forSale, maker.forSale, taker.price, maker.price);
  }

  lemma TradeLimits(takerPays: int, makerPays: int, takerHas: int, makerHas: int, own: Price, theirs: Price)
    requires own.base > 0 && own.quote > 0 && theirs.base > 0 && theirs.quote > 0 && takerPays >= 0
    requires own.quote * theirs.quote <= own.base * theirs.base
    requires || (takerPays == takerHas && makerPays == takerHas * theirs.base / theirs.quote)
             || (makerPays == makerHas && takerPays == makerHas * theirs.quote / theirs.base)
    ensures makerPays * theirs.quote / theirs.base <= takerPays
    ensures takerPays * own.quote / own.base <= makerPays
  {
    TakerLimit(takerPays, own, theirs);
    if takerPays == takerHas && makerPays == takerHas * theirs.base / theirs.quote {
      ThereAndBack(takerHas, theirs.base, theirs.quote);
    } else {
      ThereAndBack(makerHas, theirs.quote, theirs.base);
    }
  }

  /** The maker's price is at least as good for the taker as the taker's own. */
  lemma TakerLimit(x: int, own: Price, theirs: Price)
    requires x >= 0 && own.base > 0 && own.quote > 0 && theirs.quote > 0
    requires own.quote * theirs.quote <= own.base * theirs.base
    ensures x * own.quote / own.base <= x * theirs.base / theirs.quote
  {
    var y := x * own.quote / own.base;
    Floor(x * own.quote, own.base);
    AtMostFloor(y, x * theirs.base, theirs.quote);
    MulMono(y * own.base, x * own.quote, theirs.quote);
    MulMono(own.quote * theirs.quote, own.base * theirs.base, x);
    MulSwap(y, own.base, theirs.quote);
    MulSwap(own.quote, theirs.quote, x);
    MulSwap(own.base, theirs.base, x);
    MulSwap(x, own.base, theirs.base);
    MulCancel(y * theirs.quote, x * theirs.base, own.base);
  }

  predicate ValidFeeOptions(d: AssetData) {
    0 <= d.feePercent <= HUNDRED_PERCENT && 0 <= d.maxFee
  }

  /** `fee` is what an asset charges on proceeds: the percentage in hundredths of a percent
      rounded down, but at least one unit and at most the maximal fee. */
  predicate IsMarketFee(d: AssetData, amount: int, fee: int) {
    if !d.chargesFees || d.feePercent == 0 then fee == 0
    else
      || (fee == d.maxFee && (d.maxFee <= 1 || d.maxFee * 10_000 <= amount * d.feePercent))
      || (0 < fee < d.maxFee && fee * 10_000 <= amount * d.feePercent < (fee + 1) * 10_000)
      || (fee == 1 < d.maxFee && amount * d.feePercent < 10_000)
  }

  /** The fee is that number, and no other is. */
  lemma FeeIsPercentage(d: AssetData, amount: int, fee: int)
    requires ValidFeeOptions(d) && amount >= 0
    ensures IsMarketFee(d, amount, fee) <==> fee == MarketFee(d, amount)
  {
    if d.chargesFees && d.feePercent != 0 {
      MulMono(0, amount, d.feePercent);
      var a := amount * d.feePercent / HUNDRED_PERCENT;
      Floor(amount * d.feePercent, HUNDRED_PERCENT);
      AtMostFloor(d.maxFee, amount * d.feePercent, HUNDRED_PERCENT);
      AtMostFloor(fee, amount * d.feePercent, HUNDRED_PERCENT);
      AtMostFloor(fee + 1, amount * d.feePercent, HUNDRED_PERCENT);
    }
  }

  /** The fee stays within the proceeds exactly if there are any, or none is charged.
      A taker that receives nothing is still charged the minimum of one unit. */
  lemma FeeWithinProceeds(d: AssetData, amount: int)
    requires ValidFeeOptions(d) && amount >= 0
    ensures MarketFee(d, amount) >= 0
    ensures MarketFee(d, amount) <= amount <==>
            !(amount == 0 && d.chargesFees && d.feePercent != 0 && d.maxFee > 0)
  {
    if d.chargesFees && d.feePercent != 0 {
      MulMono(0, amount, d.feePercent);
      MulMono(d.feePercent, HUNDRED_PERCENT, amount);
      Floor(amount * d.feePercent, HUNDRED_PERCENT);
    }
  }
}
