/** Account balances, asset supplies and accumulated market fees, and the primitive
    operations through which every evaluator moves money. */
module Ledger {
  import opened Wrappers
  import opened Sums

  type Account = nat
  type AssetId = nat

  const MAX_SHARE_SUPPLY := 1_000_000_000_000_000
  const HUNDRED_PERCENT := 10_000

  /** A balance object: what one account holds of one asset, in cash and in reserve. */
  datatype Balance = Balance(owner: Account, asset: AssetId, cash: int, reserved: int)

  datatype AssetData = AssetData(supply: int, accumulatedFees: int,
                                 chargesFees: bool, feePercent: int, maxFee: int)

  /** Balance objects are never removed, so the table is a sequence of them. */
  datatype Ledger = Ledger(balances: seq<Balance>, assets: map<AssetId, AssetData>)

  /** The number of units of `a` in a balance object. */
  function HeldIn(a: AssetId): Balance -> int {
    (b: Balance) => if b.asset == a then b.cash + b.reserved else 0
  }

  /** Everything accounts hold of `a`. */
  function Held(l: Ledger, a: AssetId): int {
    Sum(HeldIn(a), l.balances)
  }

  function Supply(l: Ledger, a: AssetId): int {
    if a in l.assets then l.assets[a].supply else 0
  }

  function Fees(l: Ledger, a: AssetId): int {
    if a in l.assets then l.assets[a].accumulatedFees else 0
  }

  /** The position of the balance object of an account and asset. */
  function Find(bs: seq<Balance>, owner: Account, asset: AssetId): (r: Option<nat>)
    ensures r.Some? ==> r.value < |bs| && bs[r.value].owner == owner && bs[r.value].asset == asset
    ensures r.None? ==> forall b :: b in bs ==> b.owner != owner || b.asset != asset
  {
    if bs == [] then None
    else if bs[0].owner == owner && bs[0].asset == asset then Some(0)
    else match Find(bs[1..], owner, asset)
      case None => None
      case Some(i) => Some(i + 1)
  }

  /** The cash balance, zero for an account that never held the asset. */
  function GetBalance(l: Ledger, owner: Account, asset: AssetId): int {
    match Find(l.balances, owner, asset)
    case None => 0
    case Some(i) => l.balances[i].cash
  }

  /** Everything an account owns of an asset, in cash and in reserve. */
  function Owned(l: Ledger, owner: Account, asset: AssetId): int {
    match Find(l.balances, owner, asset)
    case None => 0
    case Some(i) => l.balances[i].cash + l.balances[i].reserved
  }

  /** No balance object is overdrawn. */
  predicate Solvent(l: Ledger) {
    forall b :: b in l.balances ==> b.cash >= 0 && b.reserved >= 0
  }

  /** `adjust_balance`: refuse to overdraw; open a balance object on the first credit. */
  function Adjust(l: Ledger, owner: Account, asset: AssetId, delta: int, reservedDelta: int): Option<Ledger> {
    if delta == 0 && reservedDelta == 0 then Some(l)
    else match Find(l.balances, owner, asset)
      case None =>
        if delta > 0 && reservedDelta >= 0
        then Some(l.(balances := l.balances + [Balance(owner, asset, delta, reservedDelta)]))
        else None
      case Some(i) =>
        var b := l.balances[i];
        if (delta < 0 && b.cash < -delta) || (reservedDelta < 0 && b.reserved < -reservedDelta) then None
        else Some(l.(balances := l.balances[i := b.(cash := b.cash + delta, reserved := b.reserved + reservedDelta)]))
  }

  /** A raw change of an existing balance object, as evaluators do with `modify`. */
  function Touch(l: Ledger, owner: Account, asset: AssetId, delta: int, reservedDelta: int): Option<Ledger> {
    match Find(l.balances, owner, asset)
    case None => None
    case Some(i) =>
      var b := l.balances[i];
      Some(l.(balances := l.balances[i := b.(cash := b.cash + delta, reserved := b.reserved + reservedDelta)]))
  }

  function AddSupply(l: Ledger, asset: AssetId, delta: int): Option<Ledger> {
    if asset !in l.assets then None
    else Some(l.(assets := l.assets[asset := l.assets[asset].(supply := l.assets[asset].supply + delta)]))
  }

  function AddFees(l: Ledger, asset: AssetId, delta: int): Option<Ledger> {
    if asset !in l.assets then None
    else
      var d := l.assets[asset];
      Some(l.(assets := l.assets[asset := d.(accumulatedFees := d.accumulatedFees + delta)]))
  }

  /** `issue_asset`: new units into an existing balance object, and into the supply. */
  function Issue(l: Ledger, owner: Account, asset: AssetId, cash: int, reserved: int): Option<Ledger> {
    if Find(l.balances, owner, asset).None? then None
    else if cash == 0 && reserved == 0 then Some(l)
    else match Touch(l, owner, asset, cash, reserved)
      case None => None
      case Some(m) => AddSupply(m, asset, cash + reserved)
  }

  /** The ledgers differ by `delta` units of `asset` in balances, and in nothing else. */
  ghost predicate Moves(l: Ledger, m: Ledger, asset: AssetId, delta: int) {
    && m.assets == l.assets
    && forall a :: Held(m, a) == Held(l, a) + if a == asset then delta else 0
  }

  /** An adjustment moves exactly what it says, and never overdraws a solvent ledger. */
  lemma AdjustMoves(l: Ledger, owner: Account, asset: AssetId, delta: int, reservedDelta: int)
    requires Adjust(l, owner, asset, delta, reservedDelta).Some?
    ensures var m := Adjust(l, owner, asset, delta, reservedDelta).value;
            Moves(l, m, asset, delta + reservedDelta) && (Solvent(l) ==> Solvent(m))
  {
    var m := Adjust(l, owner, asset, delta, reservedDelta).value;
    if delta != 0 || reservedDelta != 0 {
      forall a ensures Held(m, a) == Held(l, a) + if a == asset then delta + reservedDelta else 0 {
        match Find(l.balances, owner, asset)
        case None => SumAppend(HeldIn(a), l.balances, Balance(owner, asset, delta, reservedDelta));
        case Some(i) =>
          var b := l.balances[i];
          SumUpdate(HeldIn(a), l.balances, i, b.(cash := b.cash + delta, reserved := b.reserved + reservedDelta));
      }
    }
  }

  /** An account has a balance object of an asset. */
  predicate Has(l: Ledger, owner: Account, asset: AssetId) {
    exists b :: b in l.balances && b.owner == owner && b.asset == asset
  }

  lemma {:induction false} HasIffFound(l: Ledger, owner: Account, asset: AssetId)
    ensures Has(l, owner, asset) <==> Find(l.balances, owner, asset).Some?
  {
    var r := Find(l.balances, owner, asset);
    if r.Some? {
      assert l.balances[r.value] in l.balances;
    }
  }

  /** What an account owns that is not cash is in reserve. */
  function GetReserved(l: Ledger, owner: Account, asset: AssetId): int {
    Owned(l, owner, asset) - GetBalance(l, owner, asset)
  }

  /** An adjustment is refused exactly if it would overdraw the cash or the reserve, or if it
      is the first one and not a credit of cash. */
  lemma AdjustAcceptedExactly(l: Ledger, owner: Account, asset: AssetId, delta: int, reservedDelta: int)
    ensures Adjust(l, owner, asset, delta, reservedDelta).Some? <==>
            || (delta == 0 && reservedDelta == 0)
            || (!Has(l, owner, asset) && delta > 0 && reservedDelta >= 0)
            || (&& Has(l, owner, asset)
                && (delta >= 0 || 0 <= GetBalance(l, owner, asset) + delta)
                && (reservedDelta >= 0 || 0 <= GetReserved(l, owner, asset) + reservedDelta))
  {
    hide Find, Has;
    HasIffFound(l, owner, asset);
  }

  /** Balance objects are never removed. */
  lemma AdjustKeepsObjects(l: Ledger, owner: Account, asset: AssetId, delta: int, reservedDelta: int, o: Account,
                           a: AssetId)
    requires Adjust(l, owner, asset, delta, reservedDelta).Some? && Has(l, o, a)
    ensures Has(Adjust(l, owner, asset, delta, reservedDelta).value, o, a)
  {
    hide Find;
    var m := Adjust(l, owner, asset, delta, reservedDelta).value;
    var b :| b in l.balances && b.owner == o && b.asset == a;
    var i :| 0 <= i < |l.balances| && l.balances[i] == b;
    assert m.balances[i] in m.balances && m.balances[i].owner == o && m.balances[i].asset == a;
  }

  /** Raw changes, supply and fees are changed exactly if the object is there. */
  lemma RawAcceptedExactly(l: Ledger, owner: Account, asset: AssetId, x: int, y: int)
    ensures Touch(l, owner, asset, x, y).Some? <==> Has(l, owner, asset)
    ensures AddSupply(l, asset, x).Some? <==> asset in l.assets
    ensures AddFees(l, asset, x).Some? <==> asset in l.assets
    ensures Issue(l, owner, asset, x, y).Some? <==>
            Has(l, owner, asset) && ((x == 0 && y == 0) || asset in l.assets)
  {
    hide Find, Has;
    HasIffFound(l, owner, asset);
  }

  lemma TouchMoves(l: Ledger, owner: Account, asset: AssetId, delta: int, reservedDelta: int)
    requires Touch(l, owner, asset, delta, reservedDelta).Some?
    ensures var m := Touch(l, owner, asset, delta, reservedDelta).value;
            && Moves(l, m, asset, delta + reservedDelta)
            && (Solvent(l) && GetBalance(l, owner, asset) + delta >= 0 && reservedDelta >= 0 ==> Solvent(m))
  {
    var m := Touch(l, owner, asset, delta, reservedDelta).value;
    var i := Find(l.balances, owner, asset).value;
    var b := l.balances[i];
    forall a ensures Held(m, a) == Held(l, a) + if a == asset then delta + reservedDelta else 0 {
      SumUpdate(HeldIn(a), l.balances, i, b.(cash := b.cash + delta, reserved := b.reserved + reservedDelta));
    }
  }

  /** Issuing adds the same amount to the balances and to the supply. */
  lemma IssueMoves(l: Ledger, owner: Account, asset: AssetId, cash: int, reserved: int)
    requires Issue(l, owner, asset, cash, reserved).Some?
    ensures var m := Issue(l, owner, asset, cash, reserved).value;
            && (Solvent(l) && cash >= 0 && reserved >= 0 ==> Solvent(m))
            && forall a :: && Held(m, a) - Supply(m, a) == Held(l, a) - Supply(l, a)
                           && Supply(m, a) == Supply(l, a) + (if a == asset then cash + reserved else 0)
                           && Fees(m, a) == Fees(l, a)
  {
    if cash != 0 || reserved != 0 {
      TouchMoves(l, owner, asset, cash, reserved);
      var t := Touch(l, owner, asset, cash, reserved).value;
      assert forall a :: Held(AddSupply(t, asset, cash + reserved).value, a) == Held(t, a);
    }
  }

  // Whose balance changes

  lemma {:induction false} FindUpdate(bs: seq<Balance>, i: nat, b: Balance, owner: Account, asset: AssetId)
    requires i < |bs| && b.owner == bs[i].owner && b.asset == bs[i].asset
    ensures Find(bs[i := b], owner, asset) == Find(bs, owner, asset)
    decreases |bs|
  {
    if i > 0 {
      assert bs[i := b][1..] == bs[1..][i - 1 := b];
      FindUpdate(bs[1..], i - 1, b, owner, asset);
    } else {
      assert bs[i := b][1..] == bs[1..];
    }
  }

  lemma {:induction false} FindAppend(bs: seq<Balance>, b: Balance, owner: Account, asset: AssetId)
    ensures Find(bs + [b], owner, asset) ==
            if Find(bs, owner, asset).Some? then Find(bs, owner, asset)
            else if b.owner == owner && b.asset == asset then Some(|bs|) else None
    decreases |bs|
  {
    if bs == [] {
      assert bs + [b] == [b] && [b][1..] == [];
    } else {
      assert (bs + [b])[1..] == bs[1..] + [b];
      FindAppend(bs[1..], b, owner, asset);
    }
  }

  /** `amount` for the holder of one balance, nothing for anybody else. */
  function For(o: Account, a: AssetId, owner: Account, asset: AssetId, amount: int): int {
    if o == owner && a == asset then amount else 0
  }

  /** `m` differs from `l` in what one account owns of one asset, and in nobody else's. */
  ghost predicate Pays(l: Ledger, m: Ledger, owner: Account, asset: AssetId, delta: int, reservedDelta: int) {
    forall o, a ::
      && GetBalance(m, o, a) == GetBalance(l, o, a) + For(o, a, owner, asset, delta)
      && Owned(m, o, a) == Owned(l, o, a) + For(o, a, owner, asset, delta + reservedDelta)
  }

  lemma UpdatePays(l: Ledger, m: Ledger, i: nat, delta: int, reservedDelta: int)
    requires i < |l.balances|
    requires Find(l.balances, l.balances[i].owner, l.balances[i].asset) == Some(i)
    requires var b := l.balances[i];
             m.balances == l.balances[i := b.(cash := b.cash + delta, reserved := b.reserved + reservedDelta)]
    ensures Pays(l, m, l.balances[i].owner, l.balances[i].asset, delta, reservedDelta)
  {
    hide Find;
    forall o, a ensures Find(m.balances, o, a) == Find(l.balances, o, a) {
      FindUpdate(l.balances, i, m.balances[i], o, a);
    }
  }

  /** An adjustment changes the balance of the named account, and no other. */
  lemma AdjustPays(l: Ledger, owner: Account, asset: AssetId, delta: int, reservedDelta: int)
    requires Adjust(l, owner, asset, delta, reservedDelta).Some?
    ensures Pays(l, Adjust(l, owner, asset, delta, reservedDelta).value, owner, asset, delta, reservedDelta)
  {
    hide Find;
    var m := Adjust(l, owner, asset, delta, reservedDelta).value;
    if delta != 0 || reservedDelta != 0 {
      match Find(l.balances, owner, asset)
      case Some(i) => UpdatePays(l, m, i, delta, reservedDelta);
      case None =>
        var b := Balance(owner, asset, delta, reservedDelta);
        forall o, a ensures Find(m.balances, o, a) ==
            if Find(l.balances, o, a).Some? then Find(l.balances, o, a)
            else if b.owner == o && b.asset == a then Some(|l.balances|) else None
        {
          FindAppend(l.balances, b, o, a);
        }
    }
  }

  lemma TouchPays(l: Ledger, owner: Account, asset: AssetId, delta: int, reservedDelta: int)
    requires Touch(l, owner, asset, delta, reservedDelta).Some?
    ensures Pays(l, Touch(l, owner, asset, delta, reservedDelta).value, owner, asset, delta, reservedDelta)
  {
    hide Find;
    UpdatePays(l, Touch(l, owner, asset, delta, reservedDelta).value, Find(l.balances, owner, asset).value, delta,
               reservedDelta);
  }

  lemma IssuePays(l: Ledger, owner: Account, asset: AssetId, cash: int, reserved: int)
    requires Issue(l, owner, asset, cash, reserved).Some?
    ensures Pays(l, Issue(l, owner, asset, cash, reserved).value, owner, asset, cash, reserved)
  {
    hide Find;
    if cash != 0 || reserved != 0 {
      TouchPays(l, owner, asset, cash, reserved);
    }
  }

  /** An adjustment of an existing balance object, the result written out. */
  lemma AdjustsAt(l: Ledger, i: nat, delta: int, m: Ledger)
    requires i < |l.balances| && l.balances[i].cash + delta >= 0 && delta != 0
    requires forall j :: 0 <= j < i ==>
             l.balances[j].owner != l.balances[i].owner || l.balances[j].asset != l.balances[i].asset
    requires m.balances == l.balances[i := l.balances[i].(cash := l.balances[i].cash + delta)]
    requires m.assets == l.assets
    ensures Adjust(l, l.balances[i].owner, l.balances[i].asset, delta, 0) == Some(m)
  {
    FindsAt(l.balances, i);
  }

  /** A first credit, the result written out. */
  lemma AdjustsNew(l: Ledger, owner: Account, asset: AssetId, delta: nat, m: Ledger)
    requires delta > 0
    requires forall b :: b in l.balances ==> b.owner != owner || b.asset != asset
    requires m.balances == l.balances + [Balance(owner, asset, delta, 0)] && m.assets == l.assets
    ensures Adjust(l, owner, asset, delta, 0) == Some(m)
  {
  }

  lemma {:induction false} FindsAt(bs: seq<Balance>, i: nat)
    requires i < |bs|
    requires forall j :: 0 <= j < i ==> bs[j].owner != bs[i].owner || bs[j].asset != bs[i].asset
    ensures Find(bs, bs[i].owner, bs[i].asset) == Some(i)
  {
    if i > 0 {
      FindsAt(bs[1..], i - 1);
    }
  }
}
