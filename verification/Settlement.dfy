/** Global settlement of a market-issued asset, and the redemptions after it. */
module Settlement {
  import opened Wrappers
  import opened Sums
  import opened Arithmetic
  import opened Ledger
  import opened Prices

  /** A margin position: `debt` units of the issued asset against `collateral`. */
  datatype CallOrder = CallOrder(borrower: Account, debt: int, collateral: int)

  /** The asset after its settlement: the fund, and the price of one unit of it. */
  datatype Settled = Settled(ledger: Ledger, issued: AssetId, backing: AssetId, price: Price, fund: int)

  datatype Closing = Closing(ledger: Ledger, gathered: int)

  /** What a position pays for its debt at the settlement price, at most its collateral. */
  function CallPays(c: CallOrder, issued: AssetId, p: Price): Option<int> {
    match Times(Asset(c.debt, issued), p)
    case None => None
    case Some(x) => Some(if x.amount > c.collateral then c.collateral else x.amount)
  }

  /** Close one position: the debt leaves the supply, unused collateral goes back. */
  function Close(s: Closing, c: CallOrder, issued: AssetId, backing: AssetId, p: Price): Option<Closing> {
    match CallPays(c, issued, p)
    case None => None
    case Some(pays) =>
      match AddSupply(s.ledger, issued, -c.debt)
      case None => None
      case Some(l) =>
        match Adjust(l, c.borrower, backing, c.collateral - pays, 0)
        case None => None
        case Some(m) => Some(Closing(m, s.gathered + pays))
  }

  function CloseAll(s: Closing, calls: seq<CallOrder>, issued: AssetId, backing: AssetId, p: Price): Option<Closing>
    decreases |calls|
  {
    if calls == [] then Some(s)
    else match Close(s, calls[0], issued, backing, p)
      case None => None
      case Some(t) => CloseAll(t, calls[1..], issued, backing, p)
  }

  /** Close every position, collect what they pay in the fund, and put the supply back. */
  function GloballySettle(l: Ledger, calls: seq<CallOrder>, issued: AssetId, backing: AssetId,
                          p: Price): Option<Settled> {
    if issued !in l.assets || issued == backing then None
    else match CloseAll(Closing(l, 0), calls, issued, backing, p)
      case None => None
      case Some(s) =>
        var supply := l.assets[issued].supply;
        if issued !in s.ledger.assets then None
        else
          var m := s.ledger.(assets := s.ledger.assets[issued := s.ledger.assets[issued].(supply := supply)]);
          Some(Settled(m, issued, backing, Price(supply, issued, s.gathered, backing), s.gathered))
  }

  /** `asset_settle` after the settlement: burn units, pay their share out of the fund. */
  function Redeem(s: Settled, account: Account, amount: int): Option<Settled> {
    if amount < 0 || GetBalance(s.ledger, account, s.issued) < amount then None
    else match Adjust(s.ledger, account, s.issued, -amount, 0)
      case None => None
      case Some(l) =>
        match Times(Asset(amount, s.issued), s.price)
        case None => None
        case Some(paid) =>
          if paid.amount > s.fund then None
          else match Adjust(l, account, paid.id, paid.amount, 0)
            case None => None
            case Some(m) =>
              match AddSupply(m, s.issued, -amount)
              case None => None
              case Some(n) => Some(s.(ledger := n, fund := s.fund - paid.amount))
  }

  /** A redemption takes the units from the account and pays it their share, and nobody else. */
  lemma RedeemPays(s: Settled, account: Account, amount: int)
    requires Redeem(s, account, amount).Some? && s.price.baseAsset == s.issued && s.price.base > 0
    ensures var t := Redeem(s, account, amount).value;
            && t.fund == s.fund - amount * s.price.quote / s.price.base
            && forall o, a :: Owned(t.ledger, o, a) == Owned(s.ledger, o, a) - For(o, a, account, s.issued, amount)
                 + For(o, a, account, s.price.quoteAsset, amount * s.price.quote / s.price.base)
  {
    hide Adjust, Find, GetBalance, For;
    var l := Adjust(s.ledger, account, s.issued, -amount, 0).value;
    var paid := Times(Asset(amount, s.issued), s.price).value;
    AdjustPays(s.ledger, account, s.issued, -amount, 0);
    AdjustPays(l, account, paid.id, paid.amount, 0);
    ForNegative(account, s.issued, amount);
  }

  lemma ForNegative(account: Account, asset: AssetId, amount: int)
    ensures forall o, a :: For(o, a, account, asset, -amount) == -For(o, a, account, asset, amount)
  {
  }

  /** The debt at the settlement price, whichever way round the price is, and at most the
      collateral. */
  function Due(c: CallOrder, issued: AssetId, p: Price): int
    requires ValidPrice(p)
  {
    Min(c.collateral, if issued == p.baseAsset then c.debt * p.quote / p.base else c.debt * p.base / p.quote)
  }

  lemma PaysDue(c: CallOrder, issued: AssetId, p: Price)
    requires ValidPrice(p) && CallPays(c, issued, p).Some?
    ensures CallPays(c, issued, p) == Some(Due(c, issued, p))
  {
  }

  /** A closed position pays its debt at the price, or all its collateral if that is less, and
      gets back the rest; the debt leaves the supply. */
  lemma ClosePays(s: Closing, c: CallOrder, issued: AssetId, backing: AssetId, p: Price)
    requires ValidPrice(p) && Close(s, c, issued, backing, p).Some?
    ensures var t := Close(s, c, issued, backing, p).value;
            && t.gathered == s.gathered + Due(c, issued, p)
            && Pays(s.ledger, t.ledger, c.borrower, backing, c.collateral - Due(c, issued, p), 0)
            && Supply(t.ledger, issued) == Supply(s.ledger, issued) - c.debt
  {
    hide Adjust, Find, CallPays, For, Due;
    PaysDue(c, issued, p);
    var l := AddSupply(s.ledger, issued, -c.debt).value;
    AdjustPays(l, c.borrower, backing, c.collateral - Due(c, issued, p), 0);
    AdjustMoves(l, c.borrower, backing, c.collateral - Due(c, issued, p), 0);
  }

  function DueOf(issued: AssetId, p: Price): CallOrder -> int
    requires ValidPrice(p)
  {
    (c: CallOrder) => Due(c, issued, p)
  }

  /** What an account gets back for its positions. */
  function ReturnedTo(o: Account, issued: AssetId, p: Price): CallOrder -> int
    requires ValidPrice(p)
  {
    (c: CallOrder) => if c.borrower == o then c.collateral - Due(c, issued, p) else 0
  }

  /** The value of a debt before it is limited by the collateral. */
  function Worth(debt: int, issued: AssetId, p: Price): int
    requires ValidPrice(p)
  {
    if issued == p.baseAsset then debt * p.quote / p.base else debt * p.base / p.quote
  }

  /** A position can be closed exactly if the price is one of the issued asset, the asset is
      listed, and its debt is not worth more than the maximal supply. */
  lemma CloseAcceptedExactly(s: Closing, c: CallOrder, issued: AssetId, backing: AssetId, p: Price)
    requires ValidPrice(p) && ValidCall(c)
    ensures Close(s, c, issued, backing, p).Some? <==>
            && (issued == p.baseAsset || issued == p.quoteAsset) && issued in s.ledger.assets
            && Worth(c.debt, issued, p) <= MAX_SHARE_SUPPLY
  {
    hide Adjust, Find;
    if CallPays(c, issued, p).Some? && issued in s.ledger.assets {
      PaysDue(c, issued, p);
      AdjustAcceptedExactly(AddSupply(s.ledger, issued, -c.debt).value, c.borrower, backing,
                            c.collateral - Due(c, issued, p), 0);
    }
  }

  /** A settlement goes through exactly if all positions can be closed. */
  lemma {:induction false} CloseAllAcceptedExactly(s: Closing, calls: seq<CallOrder>, issued: AssetId, backing: AssetId,
                                                   p: Price)
    requires ValidPrice(p) && (forall c :: c in calls ==> ValidCall(c)) && issued in s.ledger.assets
    ensures CloseAll(s, calls, issued, backing, p).Some? <==>
            forall c :: c in calls ==>
              (issued == p.baseAsset || issued == p.quoteAsset) && Worth(c.debt, issued, p) <= MAX_SHARE_SUPPLY
    ensures CloseAll(s, calls, issued, backing, p).Some? ==>
            issued in CloseAll(s, calls, issued, backing, p).value.ledger.assets
    decreases |calls|
  {
    hide Close, Worth, ValidCall, ValidPrice;
    if calls != [] {
      var c := calls[0];
      CloseAcceptedExactly(s, c, issued, backing, p);
      assert forall x :: x in calls <==> x == c || x in calls[1..];
      if Close(s, c, issued, backing, p).Some? {
        var t := Close(s, c, issued, backing, p).value;
        CloseKeepsAssets(s, c, issued, backing, p);
        CloseAllAcceptedExactly(t, calls[1..], issued, backing, p);
      }
    }
  }

  lemma CloseKeepsAssets(s: Closing, c: CallOrder, issued: AssetId, backing: AssetId, p: Price)
    requires Close(s, c, issued, backing, p).Some?
    ensures Close(s, c, issued, backing, p).value.ledger.assets.Keys == s.ledger.assets.Keys
  {
    hide Find;
  }

  lemma SettlesExactly(l: Ledger, calls: seq<CallOrder>, issued: AssetId, backing: AssetId, p: Price)
    requires ValidPrice(p) && forall c :: c in calls ==> ValidCall(c)
    ensures GloballySettle(l, calls, issued, backing, p).Some? <==>
            && issued in l.assets && issued != backing
            && forall c :: c in calls ==>
                 (issued == p.baseAsset || issued == p.quoteAsset) && Worth(c.debt, issued, p) <= MAX_SHARE_SUPPLY
  {
    hide CloseAll, Worth, ValidCall;
    if issued in l.assets {
      CloseAllAcceptedExactly(Closing(l, 0), calls, issued, backing, p);
    }
  }

  /** All positions pay what is due, and every borrower gets back what is not. */
  lemma {:induction false} CloseAllPays(s: Closing, calls: seq<CallOrder>, issued: AssetId, backing: AssetId, p: Price)
    requires ValidPrice(p) && CloseAll(s, calls, issued, backing, p).Some?
    ensures var t := CloseAll(s, calls, issued, backing, p).value;
            && t.gathered == s.gathered + Sum(DueOf(issued, p), calls)
            && forall o, a :: Owned(t.ledger, o, a) == Owned(s.ledger, o, a)
                 + if a == backing then Sum(ReturnedTo(o, issued, p), calls) else 0
    decreases |calls|
  {
    hide Close, Owned, Due;
    if calls != [] {
      ClosePays(s, calls[0], issued, backing, p);
      var t := Close(s, calls[0], issued, backing, p).value;
      CloseAllPays(t, calls[1..], issued, backing, p);
      forall o, a ensures Owned(t.ledger, o, a) == Owned(s.ledger, o, a)
                          + if a == backing then ReturnedTo(o, issued, p)(calls[0]) else 0
      {
      }
    }
  }

  /** The fund is what all positions owe at the price, at most their collateral; every borrower
      gets the rest of its own back; the price is the supply against the fund. */
  lemma GloballySettlePays(l: Ledger, calls: seq<CallOrder>, issued: AssetId, backing: AssetId, p: Price)
    requires ValidPrice(p) && GloballySettle(l, calls, issued, backing, p).Some?
    ensures var s := GloballySettle(l, calls, issued, backing, p).value;
            && s.issued == issued && s.backing == backing && s.fund == Sum(DueOf(issued, p), calls)
            && s.price == Price(Supply(l, issued), issued, s.fund, backing)
            && forall o, a :: Owned(s.ledger, o, a) == Owned(l, o, a)
                 + if a == backing then Sum(ReturnedTo(o, issued, p), calls) else 0
  {
    hide CloseAll, Find, Sum;
    CloseAllPays(Closing(l, 0), calls, issued, backing, p);
  }

  function CollateralOf(): CallOrder -> int {
    (c: CallOrder) => c.collateral
  }

  predicate ValidCall(c: CallOrder) {
    c.debt > 0 && c.collateral >= 0
  }

  /** Closing a position conserves the backing asset and touches no balance of the issued one. */
  lemma CloseEffect(s: Closing, c: CallOrder, issued: AssetId, backing: AssetId, p: Price)
    requires ValidCall(c) && issued != backing && Solvent(s.ledger) && ValidPrice(p)
    requires Close(s, c, issued, backing, p).Some?
    ensures var t := Close(s, c, issued, backing, p).value;
            && Solvent(t.ledger) && s.gathered <= t.gathered <= s.gathered + c.collateral
            && Held(t.ledger, backing) + t.gathered == Held(s.ledger, backing) + s.gathered + c.collateral
            && (forall a :: a != backing ==> Held(t.ledger, a) == Held(s.ledger, a))
            && t.ledger.assets.Keys == s.ledger.assets.Keys
            && (forall a :: a in s.ledger.assets && a != issued ==> t.ledger.assets[a] == s.ledger.assets[a])
            && (issued in s.ledger.assets ==>
                  t.ledger.assets[issued] == s.ledger.assets[issued].(supply := t.ledger.assets[issued].supply))
  {
    var pays := CallPays(c, issued, p).value;
    assert 0 <= pays <= c.collateral by {
      if issued == p.baseAsset {
        MulMono(0, c.debt, p.quote);
        AtMostFloor(0, c.debt * p.quote, p.base);
      } else {
        MulMono(0, c.debt, p.base);
        AtMostFloor(0, c.debt * p.base, p.quote);
      }
    }
    hide CallPays;
    var l := AddSupply(s.ledger, issued, -c.debt).value;
    assert forall a :: Held(l, a) == Held(s.ledger, a);
    AdjustMoves(l, c.borrower, backing, c.collateral - pays, 0);
  }

  lemma {:induction false} CloseAllEffect(s: Closing, calls: seq<CallOrder>, issued: AssetId, backing: AssetId,
                                          p: Price)
    requires (forall c :: c in calls ==> ValidCall(c)) && issued != backing && Solvent(s.ledger) && ValidPrice(p)
    requires CloseAll(s, calls, issued, backing, p).Some?
    ensures var t := CloseAll(s, calls, issued, backing, p).value;
            && Solvent(t.ledger) && s.gathered <= t.gathered
            && Held(t.ledger, backing) + t.gathered == Held(s.ledger, backing) + s.gathered + Sum(CollateralOf(), calls)
            && (forall a :: a != backing ==> Held(t.ledger, a) == Held(s.ledger, a))
            && t.ledger.assets.Keys == s.ledger.assets.Keys
            && (forall a :: a in s.ledger.assets && a != issued ==> t.ledger.assets[a] == s.ledger.assets[a])
            && (issued in s.ledger.assets ==>
                  t.ledger.assets[issued] == s.ledger.assets[issued].(supply := t.ledger.assets[issued].supply))
    decreases |calls|
  {
    hide Close, Solvent;
    if calls != [] {
      CloseEffect(s, calls[0], issued, backing, p);
      assert forall c :: c in calls[1..] ==> c in calls;
      CloseAllEffect(Close(s, calls[0], issued, backing, p).value, calls[1..], issued, backing, p);
    }
  }

  /** The backing asset is conserved: every unit of collateral is in the fund or returned.
      The issued asset's supply and balances are what they were. */
  lemma GloballySettleConserves(l: Ledger, calls: seq<CallOrder>, issued: AssetId, backing: AssetId, p: Price)
    requires (forall c :: c in calls ==> ValidCall(c)) && Solvent(l) && ValidPrice(p)
    requires GloballySettle(l, calls, issued, backing, p).Some?
    ensures var s := GloballySettle(l, calls, issued, backing, p).value;
            && Solvent(s.ledger) && s.ledger.assets == l.assets && s.fund >= 0
            && Held(s.ledger, backing) + s.fund == Held(l, backing) + Sum(CollateralOf(), calls)
            && (forall a :: a != backing ==> Held(s.ledger, a) == Held(l, a))
  {
    CloseAllEffect(Closing(l, 0), calls, issued, backing, p);
    hide CloseAll;
    var t := CloseAll(Closing(l, 0), calls, issued, backing, p).value;
    var s := GloballySettle(l, calls, issued, backing, p).value;
    assert s.ledger.assets == l.assets;
    assert forall a :: Held(s.ledger, a) == Held(t.ledger, a);
  }

  // ----- redemptions -----

  /** Of `price.base` units outstanding at the settlement, `Supply` are left; the fund
      covers their share of `price.quote`, and holders own no more than is left. */
  ghost predicate Covered(s: Settled) {
    && s.issued in s.ledger.assets && s.issued != s.backing
    && s.price.baseAsset == s.issued && s.price.quoteAsset == s.backing
    && s.price.base > 0 && 0 <= s.price.quote <= MAX_SHARE_SUPPLY
    && Solvent(s.ledger)
    && 0 <= Held(s.ledger, s.issued) <= Supply(s.ledger, s.issued) <= s.price.base
    && Supply(s.ledger, s.issued) * s.price.quote <= s.fund * s.price.base
  }

  lemma SettledIsCovered(l: Ledger, calls: seq<CallOrder>, issued: AssetId, backing: AssetId, p: Price)
    requires (forall c :: c in calls ==> ValidCall(c)) && Solvent(l) && ValidPrice(p)
    requires GloballySettle(l, calls, issued, backing, p).Some?
    requires 0 < Supply(l, issued) && Held(l, issued) <= Supply(l, issued)
    requires Sum(CollateralOf(), calls) <= MAX_SHARE_SUPPLY
    ensures Covered(GloballySettle(l, calls, issued, backing, p).value)
  {
    GloballySettleConserves(l, calls, issued, backing, p);
    HeldNonNegative(l, issued);
    var s := GloballySettle(l, calls, issued, backing, p).value;
    GatheredIsBounded(Closing(l, 0), calls, issued, backing, p);
  }

  lemma {:induction false} GatheredIsBounded(s: Closing, calls: seq<CallOrder>, issued: AssetId, backing: AssetId,
                                             p: Price)
    requires (forall c :: c in calls ==> ValidCall(c)) && issued != backing && Solvent(s.ledger) && ValidPrice(p)
    requires CloseAll(s, calls, issued, backing, p).Some?
    ensures CloseAll(s, calls, issued, backing, p).value.gathered <= s.gathered + Sum(CollateralOf(), calls)
    decreases |calls|
  {
    hide Close, Solvent;
    if calls != [] {
      CloseEffect(s, calls[0], issued, backing, p);
      assert forall c :: c in calls[1..] ==> c in calls;
      GatheredIsBounded(Close(s, calls[0], issued, backing, p).value, calls[1..], issued, backing, p);
    }
  }

  lemma HeldNonNegative(l: Ledger, a: AssetId)
    requires Solvent(l)
    ensures Held(l, a) >= 0
  {
    SumNonNegative(HeldIn(a), l.balances);
  }

  lemma BalanceWithinHeld(l: Ledger, owner: Account, a: AssetId)
    requires Solvent(l)
    ensures GetBalance(l, owner, a) <= Held(l, a)
  {
    HeldNonNegative(l, a);
    match Find(l.balances, owner, a)
    case None =>
    case Some(i) => SumAtLeast(HeldIn(a), l.balances, i);
  }

  /** The share of `amount` units, and what is left for the others. */
  lemma ShareIsCovered(amount: int, supply: int, base: int, quote: int, fund: int)
    requires 0 <= amount <= supply <= base && base > 0 && quote >= 0
    requires supply * quote <= fund * base
    ensures 0 <= amount * quote / base <= fund
    ensures amount * quote / base <= quote
    ensures (supply - amount) * quote <= (fund - amount * quote / base) * base
    ensures (fund - amount * quote / base) * base - (supply - amount) * quote <= fund * base - supply * quote + base - 1
  {
    var share := amount * quote / base;
    Floor(amount * quote, base);
    MulMono(0, amount, quote);
    AtMostFloor(0, amount * quote, base);
    MulMono(amount, supply, quote);
    MulCancel(share, fund, base);
    MulMono(amount, base, quote);
    assert base * quote == quote * base;
    MulCancel(share, quote, base);
    MulMinus(fund, share, base);
    MulMinus(supply, amount, quote);
  }

  /** A redemption succeeds exactly if the account holds the units: the fund is never the
      reason to refuse.  It keeps the cover, and the fund keeps less than one unit more
      than its share. */
  lemma RedeemIsCovered(s: Settled, account: Account, amount: int)
    requires Covered(s)
    ensures Redeem(s, account, amount).Some? <==> 0 <= amount <= GetBalance(s.ledger, account, s.issued)
    ensures Redeem(s, account, amount).Some? ==>
            var t := Redeem(s, account, amount).value;
            && Covered(t) && t.price == s.price && t.issued == s.issued && t.backing == s.backing
            && Supply(t.ledger, s.issued) == Supply(s.ledger, s.issued) - amount
            && Held(t.ledger, s.issued) == Held(s.ledger, s.issued) - amount
            && Held(t.ledger, s.backing) + t.fund == Held(s.ledger, s.backing) + s.fund
            && t.fund * s.price.base - Supply(t.ledger, s.issued) * s.price.quote
               <= s.fund * s.price.base - Supply(s.ledger, s.issued) * s.price.quote + s.price.base - 1
  {
    if 0 <= amount <= GetBalance(s.ledger, account, s.issued) {
      BalanceWithinHeld(s.ledger, account, s.issued);
      ShareIsCovered(amount, Supply(s.ledger, s.issued), s.price.base, s.price.quote, s.fund);
      RedeemParts(s, account, amount);
    }
  }

  /** The ledger side of a redemption whose share is covered. */
  lemma RedeemParts(s: Settled, account: Account, amount: int)
    requires Covered(s) && 0 <= amount <= GetBalance(s.ledger, account, s.issued)
    requires 0 <= amount * s.price.quote / s.price.base <= s.fund
             && amount * s.price.quote / s.price.base <= MAX_SHARE_SUPPLY
    ensures Redeem(s, account, amount).Some?
    ensures var t, share := Redeem(s, account, amount).value, amount * s.price.quote / s.price.base;
            && t == s.(ledger := t.ledger, fund := s.fund - share)
            && Solvent(t.ledger) && s.issued in t.ledger.assets
            && Supply(t.ledger, s.issued) == Supply(s.ledger, s.issued) - amount
            && Held(t.ledger, s.issued) == Held(s.ledger, s.issued) - amount
            && Held(t.ledger, s.backing) == Held(s.ledger, s.backing) + share
  {
    var share := amount * s.price.quote / s.price.base;
    assert Times(Asset(amount, s.issued), s.price) == Some(Asset(share, s.backing));
    hide Times;
    AdjustMoves(s.ledger, account, s.issued, -amount, 0);
    var l := Adjust(s.ledger, account, s.issued, -amount, 0).value;
    AdjustMoves(l, account, s.backing, share, 0);
    var m := Adjust(l, account, s.backing, share, 0).value;
    var n := AddSupply(m, s.issued, -amount).value;
    assert forall a :: Held(n, a) == Held(m, a);
  }

  datatype Redemption = Redemption(account: Account, amount: int)

  function RunRedemptions(s: Settled, rs: seq<Redemption>): Settled
    decreases |rs|
  {
    if rs == [] then s
    else
      var r := Redeem(s, rs[0].account, rs[0].amount);
      RunRedemptions(if r.Some? then r.value else s, rs[1..])
  }

  lemma {:induction false} RunAppends(s: Settled, rs: seq<Redemption>, r: Redemption)
    ensures var t := RunRedemptions(s, rs);
            var u := Redeem(t, r.account, r.amount);
            RunRedemptions(s, rs + [r]) == if u.Some? then u.value else t
    decreases |rs|
  {
    hide Redeem;
    if rs == [] {
      assert rs + [r] == [r] && [r][1..] == [];
    } else {
      assert (rs + [r])[1..] == rs[1..] + [r];
      var t := Redeem(s, rs[0].account, rs[0].amount);
      RunAppends(if t.Some? then t.value else s, rs[1..], r);
    }
  }

  /** After any run of redemptions the fund still covers every outstanding unit, and the
      rounding left in it is less than one unit for each redemption. */
  lemma {:induction false} RunIsCovered(s: Settled, rs: seq<Redemption>)
    requires Covered(s)
    ensures var t := RunRedemptions(s, rs);
            && Covered(t) && t.price == s.price && t.issued == s.issued && t.backing == s.backing
            && Held(t.ledger, s.backing) + t.fund == Held(s.ledger, s.backing) + s.fund
            && Held(t.ledger, s.issued) - Supply(t.ledger, s.issued)
               == Held(s.ledger, s.issued) - Supply(s.ledger, s.issued)
            && t.fund * s.price.base - Supply(t.ledger, s.issued) * s.price.quote
               <= s.fund * s.price.base - Supply(s.ledger, s.issued) * s.price.quote + |rs| * (s.price.base - 1)
    decreases |rs|
  {
    hide Covered, Redeem, Supply, Held;
    if rs != [] {
      RedeemIsCovered(s, rs[0].account, rs[0].amount);
      var r := Redeem(s, rs[0].account, rs[0].amount);
      var t := if r.Some? then r.value else s;
      CoveredBase(s);
      RunIsCovered(t, rs[1..]);
      assert |rs| * (s.price.base - 1) == |rs[1..]| * (s.price.base - 1) + (s.price.base - 1);
    }
  }

  lemma CoveredBase(s: Settled)
    requires Covered(s)
    ensures s.price.base >= 1
  {
  }

  /** The loop over the margin positions. */
  method ClosePositions(l: Ledger, calls: seq<CallOrder>, issued: AssetId, backing: AssetId, p: Price)
    returns (r: Option<Closing>)
    ensures r == CloseAll(Closing(l, 0), calls, issued, backing, p)
  {
    hide Close;
    var s, next := Closing(l, 0), 0;
    while next < |calls|
      invariant 0 <= next <= |calls|
      invariant CloseAll(Closing(l, 0), calls, issued, backing, p) == CloseAll(s, calls[next..], issued, backing, p)
    {
      var t := Close(s, calls[next], issued, backing, p);
      if t.None? {
        return None;
      }
      assert calls[next..][1..] == calls[next + 1..];
      s, next := t.value, next + 1;
    }
    r := Some(s);
  }

  /** A market-issued asset in the database: its margin positions, and once it is settled
      the settlement price and fund. */
  class BitassetDatabase {
    const issued: AssetId
    const backing: AssetId
    var ledger: Ledger
    var calls: seq<CallOrder>
    var settled: Option<Settled>

    /** The fund object refers to the current ledger. */
    ghost predicate Valid()
      reads this
    {
      && Solvent(ledger) && issued != backing
      && (forall c :: c in calls ==> ValidCall(c))
      && (settled.Some? ==>
            && calls == [] && Covered(Current())
            && settled.value.issued == issued && settled.value.backing == backing)
    }

    function Current(): Settled
      requires settled.Some?
      reads this
    {
      settled.value.(ledger := ledger)
    }

    constructor (ledger: Ledger, issued: AssetId, backing: AssetId, calls: seq<CallOrder>)
      requires Solvent(ledger) && issued != backing && forall c :: c in calls ==> ValidCall(c)
      ensures Valid() && settled.None? && this.ledger == ledger && this.calls == calls
      ensures this.issued == issued && this.backing == backing
    {
      this.ledger, this.issued, this.backing, this.calls, settled := ledger, issued, backing, calls, None;
    }

    /** Close all positions at `p`; a second settlement is refused. */
    method GlobalSettle(p: Price) returns (ok: bool)
      requires Valid() && ValidPrice(p)
      requires 0 < Supply(ledger, issued) && Held(ledger, issued) <= Supply(ledger, issued)
      requires Sum(CollateralOf(), calls) <= MAX_SHARE_SUPPLY
      modifies this
      ensures Valid()
      ensures ok <==> old(settled).None? && GloballySettle(old(ledger), old(calls), issued, backing, p).Some?
      ensures ok ==>
              && settled.Some? && Current() == GloballySettle(old(ledger), old(calls), issued, backing, p).value
              && ledger.assets == old(ledger).assets
              && settled.value.fund == Sum(DueOf(issued, p), old(calls))
              && (forall o, a :: Owned(ledger, o, a) == Owned(old(ledger), o, a)
                    + if a == backing then Sum(ReturnedTo(o, issued, p), old(calls)) else 0)
              && Held(ledger, backing) + settled.value.fund
                 == Held(old(ledger), backing) + Sum(CollateralOf(), old(calls))
      ensures !ok ==> ledger == old(ledger) && calls == old(calls) && settled == old(settled)
    {
      hide CloseAll, Covered, Solvent, ValidCall, Held, Supply, Owned, Sum;
      if settled.Some? || issued !in ledger.assets {
        return false;
      }
      var closed := ClosePositions(ledger, calls, issued, backing, p);
      if closed.None? || issued !in closed.value.ledger.assets {
        return false;
      }
      GloballySettleConserves(ledger, calls, issued, backing, p);
      GloballySettlePays(ledger, calls, issued, backing, p);
      SettledIsCovered(ledger, calls, issued, backing, p);
      var supply, assets := ledger.assets[issued].supply, closed.value.ledger.assets;
      ledger := closed.value.ledger.(assets := assets[issued := assets[issued].(supply := supply)]);
      settled := Some(Settled(ledger, issued, backing, Price(supply, issued, closed.value.gathered, backing),
                              closed.value.gathered));
      calls := [];
      ok := true;
    }

    /** Redeem units of a settled asset.  The fund is never short. */
    method Settle(account: Account, amount: int) returns (ok: bool)
      requires Valid() && settled.Some?
      modifies this
      ensures Valid() && settled.Some?
      ensures ok <==> 0 <= amount <= GetBalance(old(ledger), account, issued)
      ensures ok ==> Redeem(old(Current()), account, amount) == Some(Current())
      ensures !ok ==> ledger == old(ledger) && settled == old(settled)
    {
      hide Covered, Redeem, Solvent, ValidCall;
      RedeemIsCovered(Current(), account, amount);
      var r := Redeem(Current(), account, amount);
      if r.None? {
        return false;
      }
      CoveredIsSolvent(r.value);
      ledger, settled := r.value.ledger, r;
      ok := true;
    }
  }

  lemma CoveredIsSolvent(s: Settled)
    requires Covered(s)
    ensures Solvent(s.ledger)
  {
  }
}
