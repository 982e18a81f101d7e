/** What a pledge to a crowd-sale project buys and costs: conversion over two prices,
    discount, and the cut at the end of the supply or of the phase. */
module PledgeTerms {
  import opened Wrappers
  import opened Arithmetic
  import opened Ledger
  import opened Prices

  /** Discounts are in hundredths. */
  const BONUS_PRECISION := 100

  datatype Project = Project(owner: Account, token: AssetId, maxSupply: int, discounts: map<AssetId, int>,
                             minPledge: int, maxPledge: int, tokenPrice: Price,
                             collected: int, sold: int, active: bool,
                             phase: int, phaseLimit: int, phaseEnd: Option<int>)

  /** Tokens bought at the price, tokens on top for the discount, and what is taken for them. */
  datatype Terms = Terms(base: int, bonus: int, take: Asset)

  function PrecisionModifier(a: nat, b: nat): (r: int)
    ensures r > 0
  {
    if a > b then Pow10(a - b) else 1
  }

  /** One leg of a conversion: the ratio `num / den` and the asset it leads to. */
  datatype Leg = Leg(num: int, den: int, to: AssetId)

  function FirstLeg(from: AssetId, p: Price): Option<Leg> {
    if from == p.baseAsset then Some(Leg(p.quote, p.base, p.quoteAsset))
    else if from == p.quoteAsset then Some(Leg(p.base, p.quote, p.baseAsset))
    else None
  }

  /** The second leg does not check that the price is for the asset in between. */
  function SecondLeg(from: AssetId, p: Price): Leg {
    if from == p.baseAsset then Leg(p.quote, p.base, p.quoteAsset) else Leg(p.base, p.quote, p.baseAsset)
  }

  /** Two roundings on the way, and one for the extra precision at the end. */
  function Rounded(x: int, precision: int, n1: int, d1: int, n2: int, d2: int): int
    requires precision > 0 && d1 > 0 && d2 > 0
  {
    x * precision * n1 / d1 * n2 / d2 / precision
  }

  /** `asset_price_multiply`. */
  function Convert(a: Asset, precision: int, b: Price, c: Price): Option<Asset>
    requires precision > 0
  {
    match FirstLeg(a.id, b)
    case None => None
    case Some(first) =>
      var second := SecondLeg(first.to, c);
      if first.den <= 0 || second.den <= 0 then None
      else Some(Asset(Rounded(a.amount, precision, first.num, first.den, second.num, second.den), second.to))
  }

  /** Cut a sale at the supply first, then at the limit of the phase. */
  function Cut(total: int, p: Project): int {
    var t := if p.sold + total > p.maxSupply then p.maxSupply - p.sold else total;
    if p.sold + t > p.phaseLimit then p.phaseLimit - p.sold else t
  }

  /** The arithmetic of `das33_pledge_asset_evaluator::do_evaluate`.  `previous` is what the
      account already pledged for in this phase. */
  function Evaluate(p: Project, pledged: Asset, price: Price, previous: int, precision: int,
                    tokenPrecision: int): Option<Terms>
    requires precision > 0 && tokenPrecision > 0
  {
    if pledged.amount <= 0 || pledged.id == p.token || !p.active then None
    else if p.sold >= p.maxSupply || p.sold >= p.phaseLimit then None
    else match Convert(pledged, precision, price, p.tokenPrice)
      case None => None
      case Some(base) =>
        if base.amount < p.minPledge || previous + base.amount > p.maxPledge then None
        else if pledged.id !in p.discounts then None
        else
          var discount := p.discounts[pledged.id];
          if discount <= 0 then None
          else
            var total := base.amount * BONUS_PRECISION / discount;
            if total <= 0 then None
            else if Cut(total, p) == total then
              if base.id != p.token then None
              else Some(Terms(base.amount, total - base.amount, pledged))
            else
              var cutBase := Cut(total, p) * discount / BONUS_PRECISION;
              match Convert(Asset(cutBase, p.token), tokenPrecision, p.tokenPrice, price)
              case None => None
              case Some(take) => Some(Terms(cutBase, Cut(total, p) - cutBase, take))
  }

  predicate Between(p: Price, a: AssetId, b: AssetId) {
    (p.baseAsset == a && p.quoteAsset == b) || (p.baseAsset == b && p.quoteAsset == a)
  }

  /** What `get_price_in_web_eur` answers for an asset. */
  predicate IsWebPrice(p: Price, asset: AssetId, web: AssetId) {
    if asset == web then p == Price(1, web, 1, web) else Between(p, asset, web)
  }

  /** What project creation and update establish. */
  predicate ValidProject(p: Project, web: AssetId) {
    && p.token != web && Between(p.tokenPrice, web, p.token)
    && (forall a :: a in p.discounts ==> 0 < p.discounts[a] <= BONUS_PRECISION)
    && p.minPledge >= 0 && 0 <= p.sold <= p.maxSupply && p.phaseLimit <= p.maxSupply
  }

  /** Rounding never exceeds the exact value. */
  lemma RoundedIsAtMost(x: int, precision: int, n1: int, d1: int, n2: int, d2: int)
    requires precision > 0 && d1 > 0 && d2 > 0 && n2 >= 0
    ensures Rounded(x, precision, n1, d1, n2, d2) * (d1 * d2) <= x * (n1 * n2)
  {
    var a := x * precision * n1 / d1;
    var b := a * n2 / d2;
    var y := b / precision;
    Floor(x * precision * n1, d1);
    Floor(a * n2, d2);
    Floor(b, precision);
    MulMono(y * precision, b, d2);
    MulMono((y * precision) * d2, a * n2, d1);
    MulMono(a * d1, (x * precision) * n1, n2);
    RegroupFirst(y, precision, d1, d2, a, n2);
    RegroupSecond(x, precision, n1, n2);
    MulCancel(y * (d1 * d2), x * (n1 * n2), precision);
  }

  lemma RegroupFirst(y: int, p: int, d1: int, d2: int, a: int, n2: int)
    ensures ((y * p) * d2) * d1 == (y * (d1 * d2)) * p
    ensures (a * n2) * d1 == (a * d1) * n2
  {
  }

  lemma RegroupSecond(x: int, p: int, n1: int, n2: int)
    ensures ((x * p) * n1) * n2 == (x * (n1 * n2)) * p
  {
  }

  /** Nor does it fall short by more than the three roundings: one unit, and for the precision
      one unit in between and one at the end. */
  lemma RoundedIsClose(x: int, precision: int, n1: int, d1: int, n2: int, d2: int)
    requires precision > 0 && d1 > 0 && d2 > 0 && n2 >= 0
    ensures (x * (n1 * n2) - Rounded(x, precision, n1, d1, n2, d2) * (d1 * d2)) * precision
            < d1 * n2 + (precision + 1) * (d1 * d2)
  {
    var a := x * precision * n1 / d1;
    var b := a * n2 / d2;
    var y := b / precision;
    Floor(x * precision * n1, d1);
    Floor(a * n2, d2);
    Floor(b, precision);
    MulMono(x * precision * n1, a * d1 + d1, n2);
    MulMono(a * n2 + 1, b * d2 + d2, d1);
    MulMono(b + 1, y * precision + precision, d1 * d2);
    ShortOf(x, precision, n1, d1, n2, d2, a, b, y);
  }

  lemma ShortOf(x: int, p: int, n1: int, d1: int, n2: int, d2: int, a: int, b: int, y: int)
    requires d1 > 0 && d2 > 0
    requires (x * p * n1) * n2 <= (a * d1 + d1) * n2
    requires (a * n2 + 1) * d1 <= (b * d2 + d2) * d1
    requires (b + 1) * (d1 * d2) <= (y * p + p) * (d1 * d2)
    ensures (x * (n1 * n2) - y * (d1 * d2)) * p < d1 * n2 + (p + 1) * (d1 * d2)
  {
    var dd := d1 * d2;
    assert (x * p * n1) * n2 == (x * (n1 * n2)) * p;
    assert (a * d1 + d1) * n2 == (a * n2) * d1 + d1 * n2;
    assert (a * n2 + 1) * d1 == (a * n2) * d1 + d1;
    assert (b * d2 + d2) * d1 == b * dd + dd;
    assert (b + 1) * dd == b * dd + dd;
    assert (y * p + p) * dd == (y * dd) * p + p * dd;
    assert (p + 1) * dd == p * dd + dd;
    MulMinus(x * (n1 * n2), y * dd, p);
    assert dd > 0;
  }

  lemma RoundedIsNatural(x: int, precision: int, n1: int, d1: int, n2: int, d2: int)
    requires precision > 0 && d1 > 0 && d2 > 0 && x >= 0 && n1 >= 0 && n2 >= 0
    ensures Rounded(x, precision, n1, d1, n2, d2) >= 0
  {
    MulMono(0, x, precision);
    MulMono(0, x * precision, n1);
    var a := x * precision * n1 / d1;
    AtMostFloor(0, x * precision * n1, d1);
    MulMono(0, a, n2);
    AtMostFloor(0, a * n2, d2);
    AtMostFloor(0, a * n2 / d2, precision);
  }

  /** Extra precision never rounds further down. */
  lemma PrecisionNeverLoses(x: int, precision: int, n1: int, d1: int, n2: int, d2: int)
    requires precision > 0 && d1 > 0 && d2 > 0 && n2 >= 0
    ensures Rounded(x, 1, n1, d1, n2, d2) <= Rounded(x, precision, n1, d1, n2, d2)
  {
    var a, fine := x * n1 / d1, x * precision * n1 / d1;
    FloorScales(x * n1, d1, precision);
    assert (x * n1) * precision == (x * precision) * n1;
    FloorScales(a * n2, d2, precision);
    assert (a * n2) * precision == (a * precision) * n2;
    MulMono(a * precision, fine, n2);
    FloorMono((a * precision) * n2, fine * n2, d2);
    AtMostFloor(a * n2 / d2, fine * n2 / d2, precision);
    assert x * 1 * n1 == x * n1 && (a * n2 / d2) / 1 == a * n2 / d2;
  }

  lemma FloorScales(a: int, d: int, k: int)
    requires d > 0 && k > 0
    ensures (a / d) * k <= (a * k) / d
  {
    Floor(a, d);
    MulMono((a / d) * d, a, k);
    assert ((a / d) * k) * d == ((a / d) * d) * k;
    AtMostFloor((a / d) * k, a * k, d);
  }

  /** A conversion is at most the exact value, and close to it. */
  lemma ConvertIsClose(a: Asset, precision: int, b: Price, c: Price)
    requires precision > 0 && ValidPrice(c) && Convert(a, precision, b, c).Some?
    ensures FirstLeg(a.id, b).Some?
    ensures var first := FirstLeg(a.id, b).value;
            var second, r := SecondLeg(first.to, c), Convert(a, precision, b, c).value.amount;
            && r * (first.den * second.den) <= a.amount * (first.num * second.num)
            && (a.amount * (first.num * second.num) - r * (first.den * second.den)) * precision
               < first.den * second.num + (precision + 1) * (first.den * second.den)
  {
    hide Rounded;
    var first := FirstLeg(a.id, b).value;
    var second := SecondLeg(first.to, c);
    RoundedIsAtMost(a.amount, precision, first.num, first.den, second.num, second.den);
    RoundedIsClose(a.amount, precision, first.num, first.den, second.num, second.den);
  }

  /** The modifier is ten for every decimal that the asset has more. */
  lemma PrecisionGrows(a: nat, b: nat)
    ensures a <= b ==> PrecisionModifier(a, b) == 1
    ensures a >= b ==> PrecisionModifier(a + 1, b) == 10 * PrecisionModifier(a, b)
  {
  }

  /** Without extra precision, a conversion is two multiplications by a price in a row. */
  lemma ConvertIsTwoPrices(a: Asset, b: Price, c: Price)
    requires Times(a, b).Some? && Times(Times(a, b).value, c).Some?
    ensures Convert(a, 1, b, c) == Times(Times(a, b).value, c)
  {
    var first := FirstLeg(a.id, b).value;
    var second := SecondLeg(first.to, c);
    assert a.amount * 1 * first.num == a.amount * first.num;
    var x := a.amount * first.num / first.den * second.num / second.den;
    assert x / 1 == x;
  }

  /** There and back over the same two ratios never gains, whatever the two precisions. */
  lemma RoundTripLoses(x: int, p: int, q: int, n1: int, d1: int, n2: int, d2: int, y: int)
    requires p > 0 && q > 0 && n1 > 0 && d1 > 0 && n2 > 0 && d2 > 0
    requires y <= Rounded(x, p, n1, d1, n2, d2)
    ensures Rounded(y, q, d2, n2, d1, n1) <= x
  {
    RoundedIsAtMost(x, p, n1, d1, n2, d2);
    RoundedIsAtMost(y, q, d2, n2, d1, n1);
    hide Rounded;
    var z := Rounded(y, q, d2, n2, d1, n1);
    assert n2 * n1 == n1 * n2 && d2 * d1 == d1 * d2;
    assert n1 * n2 > 0 && d1 * d2 > 0;
    MulMono(y, Rounded(x, p, n1, d1, n2, d2), d1 * d2);
    MulCancel(z, x, n1 * n2);
  }

  /** The way back uses the two ratios of the way there, upside down. */
  lemma LegsAreInverse(asset: AssetId, web: AssetId, token: AssetId, price: Price, tokenPrice: Price)
    requires token != web && asset != token
    requires IsWebPrice(price, asset, web) && Between(tokenPrice, web, token)
    ensures FirstLeg(asset, price).Some? && FirstLeg(token, tokenPrice).Some?
    ensures var first := FirstLeg(asset, price).value;
            var second := SecondLeg(first.to, tokenPrice);
            var back := FirstLeg(token, tokenPrice).value;
            var last := SecondLeg(back.to, price);
            && second.to == token && last.to == asset
            && back.num == second.den && back.den == second.num
            && last.num == first.den && last.den == first.num
  {
  }

  /** The discounted total covers the base, and cutting the total cuts the base. */
  lemma DiscountKeepsBase(base: int, discount: int, cut: int)
    requires base >= 0 && 0 < discount <= BONUS_PRECISION
    requires 0 <= cut <= base * BONUS_PRECISION / discount
    ensures base <= base * BONUS_PRECISION / discount
    ensures 0 <= cut * discount / BONUS_PRECISION <= base
    ensures cut * discount / BONUS_PRECISION <= cut
  {
    var total := base * BONUS_PRECISION / discount;
    MulMono(discount, BONUS_PRECISION, base);
    AtMostFloor(base, base * BONUS_PRECISION, discount);
    Floor(base * BONUS_PRECISION, discount);
    MulMono(cut, total, discount);
    MulMono(0, cut, discount);
    MulMono(discount, BONUS_PRECISION, cut);
    Floor(cut * discount, BONUS_PRECISION);
  }

  /** The cut fits below both limits, and leaves something to sell. */
  lemma CutFits(total: int, p: Project)
    requires total > 0 && p.sold < p.maxSupply && p.sold < p.phaseLimit
    ensures 0 < Cut(total, p) <= total
    ensures p.sold + Cut(total, p) <= p.maxSupply && p.sold + Cut(total, p) <= p.phaseLimit
    ensures Cut(total, p) == total || p.sold + Cut(total, p) == p.maxSupply || p.sold + Cut(total, p) == p.phaseLimit
  {
  }

  predicate GoodTerms(t: Terms, p: Project, pledged: Asset, previous: int) {
    && t.take.id == pledged.id && 0 <= t.take.amount <= pledged.amount
    && t.base >= 0 && t.bonus >= 0 && t.base + t.bonus > 0
    && p.sold + t.base + t.bonus <= p.maxSupply && p.sold + t.base + t.bonus <= p.phaseLimit
    && previous + t.base <= p.maxPledge
  }

  /** A pledge is charged in the pledged asset and never more than was pledged; it buys a
      positive number of tokens that fits into the supply, the phase and the account's
      allowance. */
  lemma TermsAreGood(p: Project, pledged: Asset, price: Price, previous: int, precision: int, tokenPrecision: int,
                     web: AssetId)
    requires precision > 0 && tokenPrecision > 0 && ValidProject(p, web) && IsWebPrice(price, pledged.id, web)
    requires Evaluate(p, pledged, price, previous, precision, tokenPrecision).Some?
    ensures GoodTerms(Evaluate(p, pledged, price, previous, precision, tokenPrecision).value, p, pledged, previous)
  {
    hide Rounded, Cut, Between;
    LegsAreInverse(pledged.id, web, p.token, price, p.tokenPrice);
    var first := FirstLeg(pledged.id, price).value;
    var second := SecondLeg(first.to, p.tokenPrice);
    var base := Convert(pledged, precision, price, p.tokenPrice).value.amount;
    var discount := p.discounts[pledged.id];
    var total := base * BONUS_PRECISION / discount;
    CutFits(total, p);
    DiscountKeepsBase(base, discount, Cut(total, p));
    if Cut(total, p) != total {
      var cutBase := Cut(total, p) * discount / BONUS_PRECISION;
      RoundTripLoses(pledged.amount, precision, tokenPrecision, first.num, first.den, second.num, second.den, cutBase);
      RoundedIsNatural(cutBase, tokenPrecision, second.den, second.num, first.den, first.num);
    }
  }

  /** When a pledge is accepted, and at which terms.  One that asks for no more than is left is
      taken in full; another one is cut to what is left, and what it costs is converted back. */
  lemma TermsExactly(p: Project, pledged: Asset, price: Price, previous: int, precision: int, tokenPrecision: int)
    requires precision > 0 && tokenPrecision > 0
    ensures var base := Convert(pledged, precision, price, p.tokenPrice);
            var r := Evaluate(p, pledged, price, previous, precision, tokenPrecision);
            if && pledged.amount > 0 && pledged.id != p.token && p.active && Available(p) > 0
               && base.Some? && p.minPledge <= base.value.amount <= p.maxPledge - previous
               && pledged.id in p.discounts && p.discounts[pledged.id] > 0
               && base.value.amount * 100 / p.discounts[pledged.id] > 0
            then
              var asked := base.value.amount * 100 / p.discounts[pledged.id];
              if asked <= Available(p) then
                r == if base.value.id == p.token then Some(Terms(base.value.amount, asked - base.value.amount, pledged))
                     else None
              else
                var cut := Available(p) * p.discounts[pledged.id] / 100;
                var back := Convert(Asset(cut, p.token), tokenPrecision, p.tokenPrice, price);
                r == if back.Some? then Some(Terms(cut, Available(p) - cut, back.value)) else None
            else r.None?
  {
    hide Rounded, Convert;
    var base := Convert(pledged, precision, price, p.tokenPrice);
    if base.Some? && pledged.id in p.discounts && p.discounts[pledged.id] > 0 {
      CutIsMin(base.value.amount * BONUS_PRECISION / p.discounts[pledged.id], p);
    }
  }

  /** What is left to sell, in the supply and in the phase. */
  function Available(p: Project): int {
    Min(p.maxSupply, p.phaseLimit) - p.sold
  }

  /** A pledge costs nothing if and only if it asks for more than is left to sell, and the
      tokens left, at the discount, convert back to nothing. */
  lemma FreeExactly(p: Project, pledged: Asset, price: Price, previous: int, precision: int, tokenPrecision: int,
                    web: AssetId)
    requires precision > 0 && tokenPrecision > 0 && ValidProject(p, web) && IsWebPrice(price, pledged.id, web)
    requires Evaluate(p, pledged, price, previous, precision, tokenPrecision).Some?
    ensures pledged.id in p.discounts && Convert(pledged, precision, price, p.tokenPrice).Some?
    ensures var take := Evaluate(p, pledged, price, previous, precision, tokenPrecision).value.take;
            var base, discount := Convert(pledged, precision, price, p.tokenPrice).value.amount,
              p.discounts[pledged.id];
            take.amount == 0 <==>
            && Available(p) < base * BONUS_PRECISION / discount
            && Convert(Asset(Available(p) * discount / BONUS_PRECISION, p.token), tokenPrecision, p.tokenPrice, price)
               == Some(Asset(0, pledged.id))
  {
    hide Rounded, Between;
    TermsAreGood(p, pledged, price, previous, precision, tokenPrecision, web);
    var base := Convert(pledged, precision, price, p.tokenPrice).value.amount;
    CutIsMin(base * BONUS_PRECISION / p.discounts[pledged.id], p);
  }

  lemma CutIsMin(total: int, p: Project)
    ensures Cut(total, p) == Min(total, Available(p))
  {
  }

  /** A pledge that is cut at a limit can cost nothing: the last token of a phase at half
      price has no base, only a bonus. */
  lemma CutMayBeFree()
    ensures var p := Project(1, 9, 1000, map[2 := 50], 0, 1000, Price(1, 3, 1, 9), 0, 999, true, 0, 1000, None);
            && ValidProject(p, 3) && IsWebPrice(Price(1, 2, 1, 3), 2, 3)
            && Evaluate(p, Asset(10, 2), Price(1, 2, 1, 3), 0, 1, 1) == Some(Terms(0, 1, Asset(0, 2)))
  {
    assert Rounded(10, 1, 1, 1, 1, 1) == 10;
    assert Rounded(0, 1, 1, 1, 1, 1) == 0;
  }
}
