/** Operations that only move money: each is a list of elementary changes of the ledger. */
module LedgerActions {
  import opened Wrappers
  import opened Sums
  import opened Ledger

  /** Debits and credits change an existing balance object, a deposit opens one if need be;
      minting and burning change the supply, a claim takes from the accumulated fees. */
  datatype Action =
    | Debit(owner: Account, asset: AssetId, amount: int)
    | Credit(owner: Account, asset: AssetId, amount: int)
    | Deposit(owner: Account, asset: AssetId, amount: int)
    | Mint(asset: AssetId, amount: int)
    | Burn(asset: AssetId, amount: int)
    | Claim(asset: AssetId, amount: int)

  function Perform(l: Ledger, x: Action): Option<Ledger> {
    if x.amount < 0 then None
    else match x
      case Debit(owner, asset, amount) =>
        if GetBalance(l, owner, asset) < amount then None else Touch(l, owner, asset, -amount, 0)
      case Credit(owner, asset, amount) => Touch(l, owner, asset, amount, 0)
      case Deposit(owner, asset, amount) => Adjust(l, owner, asset, amount, 0)
      case Mint(asset, amount) => AddSupply(l, asset, amount)
      case Burn(asset, amount) => AddSupply(l, asset, -amount)
      case Claim(asset, amount) => if Fees(l, asset) < amount then None else AddFees(l, asset, -amount)
  }

  /** All actions in order, or none. */
  function PerformAll(l: Ledger, xs: seq<Action>): Option<Ledger>
    decreases |xs|
  {
    if xs == [] then Some(l)
    else match Perform(l, xs[0])
      case None => None
      case Some(m) => PerformAll(m, xs[1..])
  }

  /** What an action adds to balances and fees, less what it adds to the supply. */
  function Effect(a: AssetId): Action -> int {
    (x: Action) =>
      if x.asset != a then 0
      else match x
        case Debit(_, _, amount) => -amount
        case Credit(_, _, amount) => amount
        case Deposit(_, _, amount) => amount
        case Mint(_, amount) => -amount
        case Burn(_, amount) => amount
        case Claim(_, amount) => -amount
  }

  /** Balances and accumulated fees, less the supply. */
  function Unbacked(l: Ledger, a: AssetId): int {
    Held(l, a) + Fees(l, a) - Supply(l, a)
  }

  /** The fee rules of every asset are the same. */
  predicate SameOptions(l: Ledger, m: Ledger) {
    && m.assets.Keys == l.assets.Keys
    && forall a :: a in l.assets ==>
         m.assets[a] == l.assets[a].(supply := m.assets[a].supply, accumulatedFees := m.assets[a].accumulatedFees)
  }

  predicate FeesNonNegative(l: Ledger) {
    forall a :: a in l.assets ==> l.assets[a].accumulatedFees >= 0
  }

  lemma PerformEffect(l: Ledger, x: Action)
    requires Solvent(l) && FeesNonNegative(l) && Perform(l, x).Some?
    ensures var m := Perform(l, x).value;
            && Solvent(m) && FeesNonNegative(m) && SameOptions(l, m)
            && forall a :: Unbacked(m, a) == Unbacked(l, a) + Effect(a)(x)
  {
    hide Solvent, Touch, Adjust, GetBalance;
    var m := Perform(l, x).value;
    match x
    case Debit(owner, asset, amount) => TouchMoves(l, owner, asset, -amount, 0);
    case Credit(owner, asset, amount) =>
      TouchMoves(l, owner, asset, amount, 0);
      BalanceIsNatural(l, owner, asset);
    case Deposit(owner, asset, amount) => AdjustMoves(l, owner, asset, amount, 0);
    case Mint(asset, amount) => SameBalances(l, m);
    case Burn(asset, amount) => SameBalances(l, m);
    case Claim(asset, amount) => SameBalances(l, m);
  }

  lemma BalanceIsNatural(l: Ledger, owner: Account, asset: AssetId)
    requires Solvent(l)
    ensures GetBalance(l, owner, asset) >= 0
  {
  }

  lemma SameBalances(l: Ledger, m: Ledger)
    requires m.balances == l.balances
    ensures (Solvent(l) ==> Solvent(m)) && forall a :: Held(m, a) == Held(l, a)
  {
  }

  lemma {:induction false} PerformAllEffect(l: Ledger, xs: seq<Action>)
    requires Solvent(l) && FeesNonNegative(l) && PerformAll(l, xs).Some?
    ensures var m := PerformAll(l, xs).value;
            && Solvent(m) && FeesNonNegative(m) && SameOptions(l, m)
            && forall a :: Unbacked(m, a) == Unbacked(l, a) + Sum(Effect(a), xs)
    decreases |xs|
  {
    hide Perform, Solvent, FeesNonNegative, Unbacked, Effect;
    if xs != [] {
      PerformEffect(l, xs[0]);
      PerformAllEffect(Perform(l, xs[0]).value, xs[1..]);
    }
  }

  /** What the operations need to know of the node. */
  datatype Setting = Setting(feePool: Option<Account>, cycles: AssetId, dascoin: AssetId, maxSupply: map<AssetId, int>)

  datatype Operation =
    | Transfer(from: Account, to: Account, asset: AssetId, amount: int)
    | PayFee(payer: Account, asset: AssetId, amount: int)
    | IssueAsset(to: Account, asset: AssetId, amount: int)
    | ReserveAsset(payer: Account, asset: AssetId, amount: int)
    | ClaimFees(issuer: Account, asset: AssetId, amount: int)
    | PurchaseCycles(wallet: Account, price: int, amount: int)
    | CyclesFromLicense(wallet: Account, amount: int)

  /** A payment leaves the payer and goes to the fee pool, or is burned if there is none. */
  function ToPool(g: Setting, asset: AssetId, amount: int): Action {
    match g.feePool
    case Some(pool) => Credit(pool, asset, amount)
    case None => Burn(asset, amount)
  }

  /** The actions of an operation, `None` if a check refuses it. */
  function Actions(l: Ledger, g: Setting, op: Operation): Option<seq<Action>> {
    if op.amount <= 0 then None
    else match op
      case Transfer(from, to, asset, amount) =>
        Some([Debit(from, asset, amount), Deposit(to, asset, amount)])
      case PayFee(payer, asset, amount) =>
        Some([Debit(payer, asset, amount), ToPool(g, asset, amount)])
      case IssueAsset(to, asset, amount) =>
        if asset !in g.maxSupply || Supply(l, asset) + amount > g.maxSupply[asset] then None
        else Some([Deposit(to, asset, amount), Mint(asset, amount)])
      case ReserveAsset(payer, asset, amount) =>
        if Supply(l, asset) - amount < 0 then None
        else Some([Debit(payer, asset, amount), Burn(asset, amount)])
      case ClaimFees(issuer, asset, amount) =>
        Some([Claim(asset, amount), Deposit(issuer, asset, amount)])
      case PurchaseCycles(wallet, price, amount) =>
        Some([Debit(wallet, g.dascoin, price), Credit(wallet, g.cycles, amount), Mint(g.cycles, amount),
              ToPool(g, g.dascoin, price)])
      case CyclesFromLicense(wallet, amount) =>
        Some([Credit(wallet, g.cycles, amount), Mint(g.cycles, amount)])
  }

  /** The two sides of every operation cancel, for every asset. */
  lemma ActionsCancel(l: Ledger, g: Setting, op: Operation, a: AssetId)
    requires Actions(l, g, op).Some?
    ensures Sum(Effect(a), Actions(l, g, op).value) == 0
  {
    var xs := Actions(l, g, op).value;
    if |xs| == 2 {
      SumTwo(Effect(a), xs[0], xs[1]);
    } else {
      SumTwo(Effect(a), xs[0], xs[1]);
      SumTwo(Effect(a), xs[2], xs[3]);
      SumConcat(Effect(a), [xs[0], xs[1]], [xs[2], xs[3]]);
      assert xs == [xs[0], xs[1]] + [xs[2], xs[3]];
    }
  }

  lemma SumTwo<T>(f: T -> int, x: T, y: T)
    ensures Sum(f, [x, y]) == f(x) + f(y)
  {
    SumOne(f, y);
    assert [x, y][1..] == [y];
  }

  function Apply(l: Ledger, g: Setting, op: Operation): Option<Ledger> {
    match Actions(l, g, op)
    case None => None
    case Some(xs) => PerformAll(l, xs)
  }

  /** Every operation keeps the difference between what exists and the supply, of every
      asset, and overdraws nobody. */
  lemma ApplyKeeps(l: Ledger, g: Setting, op: Operation)
    requires Solvent(l) && FeesNonNegative(l) && Apply(l, g, op).Some?
    ensures var m := Apply(l, g, op).value;
            && Solvent(m) && FeesNonNegative(m) && SameOptions(l, m)
            && forall a :: Unbacked(m, a) == Unbacked(l, a)
  {
    hide Actions, PerformAll, Solvent, FeesNonNegative, Unbacked, Effect, SameOptions;
    PerformAllEffect(l, Actions(l, g, op).value);
    forall a ensures Sum(Effect(a), Actions(l, g, op).value) == 0 {
      ActionsCancel(l, g, op, a);
    }
  }

  /** What an action adds to what an account owns of an asset. */
  function OwnEffect(o: Account, a: AssetId): Action -> int {
    (x: Action) =>
      match x
      case Debit(owner, asset, amount) => For(o, a, owner, asset, -amount)
      case Credit(owner, asset, amount) => For(o, a, owner, asset, amount)
      case Deposit(owner, asset, amount) => For(o, a, owner, asset, amount)
      case _ => 0
  }

  lemma PerformPays(l: Ledger, x: Action)
    requires Perform(l, x).Some?
    ensures forall o, a :: Owned(Perform(l, x).value, o, a) == Owned(l, o, a) + OwnEffect(o, a)(x)
  {
    hide Touch, Adjust, GetBalance, Find;
    match x
    case Debit(owner, asset, amount) => TouchPays(l, owner, asset, -amount, 0);
    case Credit(owner, asset, amount) => TouchPays(l, owner, asset, amount, 0);
    case Deposit(owner, asset, amount) => AdjustPays(l, owner, asset, amount, 0);
    case Mint(asset, amount) =>
    case Burn(asset, amount) =>
    case Claim(asset, amount) =>
  }

  lemma {:induction false} PerformAllPays(l: Ledger, xs: seq<Action>)
    requires PerformAll(l, xs).Some?
    ensures forall o, a :: Owned(PerformAll(l, xs).value, o, a) == Owned(l, o, a) + Sum(OwnEffect(o, a), xs)
    decreases |xs|
  {
    hide Perform, Owned, OwnEffect;
    if xs != [] {
      PerformPays(l, xs[0]);
      PerformAllPays(Perform(l, xs[0]).value, xs[1..]);
    }
  }

  /** What an operation means for what an account owns of an asset. */
  function Gains(g: Setting, op: Operation, o: Account, a: AssetId): int {
    match op
    case Transfer(from, to, asset, amount) => For(o, a, to, asset, amount) - For(o, a, from, asset, amount)
    case PayFee(payer, asset, amount) => ToPoolGains(g, o, a, asset, amount) - For(o, a, payer, asset, amount)
    case IssueAsset(to, asset, amount) => For(o, a, to, asset, amount)
    case ReserveAsset(payer, asset, amount) => -For(o, a, payer, asset, amount)
    case ClaimFees(issuer, asset, amount) => For(o, a, issuer, asset, amount)
    case PurchaseCycles(wallet, price, amount) =>
      For(o, a, wallet, g.cycles, amount) - For(o, a, wallet, g.dascoin, price) + ToPoolGains(g, o, a, g.dascoin, price)
    case CyclesFromLicense(wallet, amount) => For(o, a, wallet, g.cycles, amount)
  }

  function ToPoolGains(g: Setting, o: Account, a: AssetId, asset: AssetId, amount: int): int {
    if g.feePool.Some? then For(o, a, g.feePool.value, asset, amount) else 0
  }

  /** Every operation pays and charges exactly the accounts it names. */
  lemma ApplyPays(l: Ledger, g: Setting, op: Operation, o: Account, a: AssetId)
    requires Apply(l, g, op).Some?
    ensures Owned(Apply(l, g, op).value, o, a) == Owned(l, o, a) + Gains(g, op, o, a)
  {
    hide PerformAll, Owned;
    var xs, f := Actions(l, g, op).value, OwnEffect(o, a);
    PerformAllPays(l, xs);
    SumTwo(f, xs[0], xs[1]);
    if |xs| == 2 {
      assert xs == [xs[0], xs[1]];
    } else {
      SumTwo(f, xs[2], xs[3]);
      SumConcat(f, [xs[0], xs[1]], [xs[2], xs[3]]);
      assert xs == [xs[0], xs[1]] + [xs[2], xs[3]];
    }
  }

  /** What an action adds to the supply, and to the accumulated fees. */
  function SupplyEffect(a: AssetId): Action -> int {
    (x: Action) =>
      if x.asset != a then 0
      else match x
        case Mint(_, amount) => amount
        case Burn(_, amount) => -amount
        case _ => 0
  }

  function FeesEffect(a: AssetId): Action -> int {
    (x: Action) => if x.Claim? && x.asset == a then -x.amount else 0
  }

  lemma PerformSupply(l: Ledger, x: Action)
    requires Perform(l, x).Some?
    ensures forall a :: && Supply(Perform(l, x).value, a) == Supply(l, a) + SupplyEffect(a)(x)
                        && Fees(Perform(l, x).value, a) == Fees(l, a) + FeesEffect(a)(x)
  {
    hide GetBalance, Find;
  }

  lemma {:induction false} PerformAllSupply(l: Ledger, xs: seq<Action>)
    requires PerformAll(l, xs).Some?
    ensures forall a :: && Supply(PerformAll(l, xs).value, a) == Supply(l, a) + Sum(SupplyEffect(a), xs)
                        && Fees(PerformAll(l, xs).value, a) == Fees(l, a) + Sum(FeesEffect(a), xs)
    decreases |xs|
  {
    hide Perform, Supply, Fees, SupplyEffect, FeesEffect;
    if xs != [] {
      PerformSupply(l, xs[0]);
      PerformAllSupply(Perform(l, xs[0]).value, xs[1..]);
    }
  }

  /** What an operation means for the supply of an asset: issue and cycles add to it, a burn
      takes away, and so do payments if there is no fee pool. */
  function Supplies(g: Setting, op: Operation, a: AssetId): int {
    match op
    case IssueAsset(_, asset, amount) => if a == asset then amount else 0
    case ReserveAsset(_, asset, amount) => if a == asset then -amount else 0
    case PayFee(_, asset, amount) => if a == asset && g.feePool.None? then -amount else 0
    case PurchaseCycles(_, price, amount) =>
      (if a == g.cycles then amount else 0) - (if a == g.dascoin && g.feePool.None? then price else 0)
    case CyclesFromLicense(_, amount) => if a == g.cycles then amount else 0
    case _ => 0
  }

  /** Supply and accumulated fees after every operation: only claims take from the fees. */
  lemma ApplySupplies(l: Ledger, g: Setting, op: Operation, a: AssetId)
    requires Apply(l, g, op).Some?
    ensures Supply(Apply(l, g, op).value, a) == Supply(l, a) + Supplies(g, op, a)
    ensures Fees(Apply(l, g, op).value, a)
            == Fees(l, a) - if op.ClaimFees? && op.asset == a then op.amount else 0
  {
    hide PerformAll, Supply, Fees;
    var xs := Actions(l, g, op).value;
    PerformAllSupply(l, xs);
    SumOfTwo(SupplyEffect(a), xs);
    SumOfTwo(FeesEffect(a), xs);
  }

  lemma SumOfTwo<T>(f: T -> int, xs: seq<T>)
    ensures |xs| == 2 ==> Sum(f, xs) == f(xs[0]) + f(xs[1])
    ensures |xs| == 4 ==> Sum(f, xs) == f(xs[0]) + f(xs[1]) + f(xs[2]) + f(xs[3])
  {
    if |xs| == 2 {
      SumTwo(f, xs[0], xs[1]);
      assert xs == [xs[0], xs[1]];
    } else if |xs| == 4 {
      SumTwo(f, xs[0], xs[1]);
      SumTwo(f, xs[2], xs[3]);
      SumConcat(f, [xs[0], xs[1]], [xs[2], xs[3]]);
      assert xs == [xs[0], xs[1]] + [xs[2], xs[3]];
    }
  }

  /** The account holds the amount in cash. */
  predicate CanPay(l: Ledger, payer: Account, asset: AssetId, amount: int) {
    Has(l, payer, asset) && amount <= GetBalance(l, payer, asset)
  }

  /** A payment can be put away: the fee pool has a balance, or there is none and the asset
      can be burned. */
  predicate CanCollect(l: Ledger, g: Setting, asset: AssetId) {
    if g.feePool.Some? then Has(l, g.feePool.value, asset) else asset in l.assets
  }

  /** When the node accepts an operation. */
  predicate Acceptable(l: Ledger, g: Setting, op: Operation) {
    && op.amount > 0
    && match op {
         case Transfer(from, _, asset, amount) => CanPay(l, from, asset, amount)
         case PayFee(payer, asset, amount) => CanPay(l, payer, asset, amount) && CanCollect(l, g, asset)
         case IssueAsset(_, asset, amount) =>
           asset in l.assets && asset in g.maxSupply && l.assets[asset].supply + amount <= g.maxSupply[asset]
         case ReserveAsset(payer, asset, amount) =>
           asset in l.assets && amount <= l.assets[asset].supply && CanPay(l, payer, asset, amount)
         case ClaimFees(_, asset, amount) => asset in l.assets && amount <= l.assets[asset].accumulatedFees
         case PurchaseCycles(wallet, price, _) =>
           && 0 <= price && CanPay(l, wallet, g.dascoin, price) && CanCollect(l, g, g.dascoin)
           && Has(l, wallet, g.cycles) && g.cycles in l.assets
         case CyclesFromLicense(wallet, _) => Has(l, wallet, g.cycles) && g.cycles in l.assets
       }
  }

  /** What an action needs of the ledger. */
  predicate Possible(l: Ledger, x: Action) {
    && x.amount >= 0
    && match x {
         case Debit(owner, asset, amount) => CanPay(l, owner, asset, amount)
         case Credit(owner, asset, _) => Has(l, owner, asset)
         case Deposit(_, _, _) => true
         case Mint(asset, _) => asset in l.assets
         case Burn(asset, _) => asset in l.assets
         case Claim(asset, amount) => asset in l.assets && amount <= l.assets[asset].accumulatedFees
       }
  }

  lemma PerformAccepted(l: Ledger, x: Action)
    ensures Perform(l, x).Some? <==> Possible(l, x)
  {
    hide Touch, Adjust, GetBalance, Has, AddSupply, AddFees;
    match x
    case Debit(owner, asset, amount) => RawAcceptedExactly(l, owner, asset, -amount, 0);
    case Credit(owner, asset, amount) => RawAcceptedExactly(l, owner, asset, amount, 0);
    case Deposit(owner, asset, amount) => AdjustAcceptedExactly(l, owner, asset, amount, 0);
    case Mint(asset, amount) => RawAcceptedExactly(l, 0, asset, amount, 0);
    case Burn(asset, amount) => RawAcceptedExactly(l, 0, asset, -amount, 0);
    case Claim(asset, amount) => RawAcceptedExactly(l, 0, asset, -amount, 0);
  }

  /** Actions other than a deposit open no balance object, and none lists or removes an asset. */
  lemma PerformHas(l: Ledger, x: Action)
    requires Perform(l, x).Some?
    ensures Perform(l, x).value.assets.Keys == l.assets.Keys
    ensures !x.Deposit? ==> forall o, a :: Has(Perform(l, x).value, o, a) == Has(l, o, a)
  {
    hide Find, GetBalance;
    var m := Perform(l, x).value;
    if x.Debit? || x.Credit? {
      forall o, a ensures Has(m, o, a) == Has(l, o, a) {
        if b :| b in l.balances && b.owner == o && b.asset == a {
          var i :| 0 <= i < |l.balances| && l.balances[i] == b;
          assert m.balances[i] in m.balances;
        }
        if b :| b in m.balances && b.owner == o && b.asset == a {
          var i :| 0 <= i < |m.balances| && m.balances[i] == b;
          assert l.balances[i] in l.balances;
        }
      }
    }
  }

  lemma BothPossible(l: Ledger, x: Action, y: Action)
    requires !x.Deposit? && x.amount >= 0 && (y.Credit? || y.Deposit? || y.Mint? || y.Burn?)
    ensures PerformAll(l, [x, y]).Some? <==> Possible(l, x) && Possible(l, y)
  {
    hide Perform, Has, GetBalance;
    PerformTwo(l, x, y);
    PerformAccepted(l, x);
    if Perform(l, x).Some? {
      PerformHas(l, x);
      PerformAccepted(Perform(l, x).value, y);
    }
  }

  lemma {:induction false} PerformConcat(l: Ledger, xs: seq<Action>, ys: seq<Action>)
    ensures PerformAll(l, xs + ys) == match PerformAll(l, xs)
                                      case None => None
                                      case Some(m) => PerformAll(m, ys)
    decreases |xs|
  {
    hide Perform;
    if xs == [] {
      assert xs + ys == ys;
    } else {
      assert (xs + ys)[1..] == xs[1..] + ys;
      if Perform(l, xs[0]).Some? {
        PerformConcat(Perform(l, xs[0]).value, xs[1..], ys);
      }
    }
  }

  lemma FourPossible(l: Ledger, x: Action, y: Action, z: Action, w: Action)
    requires !x.Deposit? && y.Credit? && z.Mint? && (w.Credit? || w.Burn?) && x.amount >= 0
    ensures PerformAll(l, [x, y, z, w]).Some? <==> Possible(l, x) && Possible(l, y) && Possible(l, z) && Possible(l, w)
  {
    hide Perform, Has, GetBalance, PerformAll, Possible;
    assert [x, y, z, w] == [x, y] + [z, w];
    PerformConcat(l, [x, y], [z, w]);
    BothPossible(l, x, y);
    if PerformAll(l, [x, y]).Some? {
      var m := PerformAll(l, [x, y]).value;
      PerformTwo(l, x, y);
      PerformHas(l, x);
      PerformHas(Perform(l, x).value, y);
      SamePossible(l, m, z);
      SamePossible(l, m, w);
      NegativeIsImpossible(m, z);
      if z.amount >= 0 {
        BothPossible(m, z, w);
      } else {
        PerformTwo(m, z, w);
        PerformAccepted(m, z);
      }
    }
  }

  lemma SamePossible(l: Ledger, m: Ledger, x: Action)
    requires m.assets.Keys == l.assets.Keys && (forall o, a :: Has(m, o, a) == Has(l, o, a))
    requires x.Credit? || x.Mint? || x.Burn?
    ensures Possible(m, x) == Possible(l, x)
  {
    hide Has;
  }

  lemma NegativeIsImpossible(l: Ledger, x: Action)
    ensures x.amount < 0 ==> !Possible(l, x)
  {
  }

  /** An operation is accepted exactly if it is acceptable. */
  lemma ApplyAcceptedExactly(l: Ledger, g: Setting, op: Operation)
    ensures Apply(l, g, op).Some? <==> Acceptable(l, g, op)
  {
    hide Perform, PerformAll, Has, GetBalance;
    if op.amount > 0 {
      match op
      case Transfer(from, to, asset, amount) => BothPossible(l, Debit(from, asset, amount), Deposit(to, asset, amount));
      case PayFee(payer, asset, amount) => BothPossible(l, Debit(payer, asset, amount), ToPool(g, asset, amount));
      case IssueAsset(to, asset, amount) => IssuePossible(l, to, asset, amount);
      case ReserveAsset(payer, asset, amount) => BothPossible(l, Debit(payer, asset, amount), Burn(asset, amount));
      case ClaimFees(issuer, asset, amount) => BothPossible(l, Claim(asset, amount), Deposit(issuer, asset, amount));
      case PurchaseCycles(wallet, price, amount) => PurchasePossible(l, g, wallet, price, amount);
      case CyclesFromLicense(wallet, amount) => BothPossible(l, Credit(wallet, g.cycles, amount),
                                                             Mint(g.cycles, amount));
    }
  }

  lemma IssuePossible(l: Ledger, to: Account, asset: AssetId, amount: int)
    requires amount > 0
    ensures PerformAll(l, [Deposit(to, asset, amount), Mint(asset, amount)]).Some? <==> asset in l.assets
  {
    hide Perform, Has, GetBalance;
    var x, y := Deposit(to, asset, amount), Mint(asset, amount);
    PerformTwo(l, x, y);
    PerformAccepted(l, x);
    PerformHas(l, x);
    PerformAccepted(Perform(l, x).value, y);
  }

  lemma PurchasePossible(l: Ledger, g: Setting, wallet: Account, price: int, amount: int)
    requires amount > 0
    ensures PerformAll(l, [Debit(wallet, g.dascoin, price), Credit(wallet, g.cycles, amount), Mint(g.cycles, amount),
                           ToPool(g, g.dascoin, price)]).Some? <==>
            && 0 <= price && CanPay(l, wallet, g.dascoin, price) && CanCollect(l, g, g.dascoin)
            && Has(l, wallet, g.cycles) && g.cycles in l.assets
  {
    hide Perform, Has, GetBalance;
    var x := Debit(wallet, g.dascoin, price);
    if price >= 0 {
      FourPossible(l, x, Credit(wallet, g.cycles, amount), Mint(g.cycles, amount), ToPool(g, g.dascoin, price));
    } else {
      PerformAccepted(l, x);
    }
  }

  class LedgerDatabase {
    var ledger: Ledger
    const setting: Setting

    constructor (l: Ledger, g: Setting)
      ensures ledger == l && setting == g
    {
      ledger, setting := l, g;
    }

    /** `pay_fee`: take the fee, then put it in the fee pool or burn it. */
    method ChargeFee(payer: Account, asset: AssetId, amount: int) returns (ok: bool)
      modifies this
      ensures var r := Apply(old(ledger), setting, PayFee(payer, asset, amount));
              ok == r.Some? && ledger == if ok then r.value else old(ledger)
    {
      hide Touch, AddSupply, GetBalance;
      if amount <= 0 || GetBalance(ledger, payer, asset) < amount {
        return false;
      }
      var debited := Touch(ledger, payer, asset, -amount, 0);
      if debited.None? {
        return false;
      }
      var r := match setting.feePool
        case Some(pool) => Touch(debited.value, pool, asset, amount, 0)
        case None => AddSupply(debited.value, asset, -amount);
      PerformTwo(ledger, Debit(payer, asset, amount), ToPool(setting, asset, amount));
      ok := r.Some?;
      if ok {
        ledger := r.value;
      }
    }

    /** `asset_claim_fees`: from the accumulated fees to the issuer. */
    method ClaimAccumulated(issuer: Account, asset: AssetId, amount: int) returns (ok: bool)
      modifies this
      ensures var r := Apply(old(ledger), setting, ClaimFees(issuer, asset, amount));
              ok == r.Some? && ledger == if ok then r.value else old(ledger)
    {
      hide Adjust, AddFees, Fees;
      if amount <= 0 || amount > Fees(ledger, asset) {
        return false;
      }
      PerformTwo(ledger, Claim(asset, amount), Deposit(issuer, asset, amount));
      var taken := AddFees(ledger, asset, -amount);
      if taken.None? {
        return false;
      }
      var r := Adjust(taken.value, issuer, asset, amount, 0);
      ok := r.Some?;
      if ok {
        ledger := r.value;
      }
    }
  }

  lemma PerformTwo(l: Ledger, x: Action, y: Action)
    ensures PerformAll(l, [x, y]) == match Perform(l, x)
                                     case None => None
                                     case Some(m) => Perform(m, y)
  {
    hide Perform;
    assert [x, y][1..] == [y] && [y][1..] == [];
    match Perform(l, x)
    case None =>
    case Some(m) => PerformOne(m, y);
  }

  lemma PerformOne(l: Ledger, x: Action)
    ensures PerformAll(l, [x]) == Perform(l, x)
  {
    hide Perform;
    assert [x][1..] == [];
  }
}
