/** Whole-run conservation: every unit of every asset's supply is in a balance, in an order,
    in an accumulated fee or in a pledge. */
module Conservation {
  import opened Wrappers
  import opened Sums
  import opened Ledger
  import opened OrderBook
  import Market
  import Exchange
  import PledgeTerms
  import Prices
  import RewardQueue
  import Das33
  import Das33Accounting
  import LedgerActions

  datatype World = World(ledger: Ledger, book: seq<Market.Order>, nextId: nat,
                         projects: map<Das33.ProjectId, PledgeTerms.Project>, pledges: seq<Das33.Pledge>,
                         queue: RewardQueue.Queue)

  /** What stays the same during a run. */
  datatype Node = Node(setting: LedgerActions.Setting, web: AssetId, round: Das33.Rounding)

  datatype Operation =
    | Trade(trade: Exchange.Operation)
    | Sale(sale: Das33.Operation)
    | Move(move: LedgerActions.Operation)
    | Submit(account: Account, cycles: int, frequency: int)
    | SubmitFromPool(amount: int, frequency: int)
    | Reward(reward: int)

  function SaleState(w: World): Das33.State {
    Das33.State(w.ledger, w.projects, w.pledges)
  }

  /** The fee pool turns cycles into a submission: they leave the balance and the supply. */
  function SubmitPool(w: World, n: Node, amount: int, frequency: int): Option<World> {
    if n.setting.feePool.None? then None
    else match RewardQueue.GuardedPush(w.queue, n.setting.feePool.value, amount, frequency)
      case None => None
      case Some(q) =>
        match LedgerActions.PerformAll(w.ledger, PoolActions(n, amount))
        case None => None
        case Some(l) => Some(w.(ledger := l, queue := q))
  }

  function PoolActions(n: Node, amount: int): seq<LedgerActions.Action>
    requires n.setting.feePool.Some?
  {
    [LedgerActions.Debit(n.setting.feePool.value, n.setting.cycles, amount),
     LedgerActions.Burn(n.setting.cycles, amount)]
  }

  /** One operation; one that fails leaves no trace. */
  function Step(w: World, n: Node, op: Operation): World
    requires RewardQueue.ValidEntries(w.queue.entries)
  {
    match op
    case Trade(x) =>
      var e := Exchange.Step(Exchange.Exchange(w.ledger, w.book, w.nextId), x);
      w.(ledger := e.ledger, book := e.book, nextId := e.nextId)
    case Sale(x) =>
      (match Das33.Step(SaleState(w), x, n.web, n.round)
       case None => w
       case Some(s) => w.(ledger := s.ledger, projects := s.projects, pledges := s.pledges))
    case Move(x) =>
      (match LedgerActions.Apply(w.ledger, n.setting, x)
       case None => w
       case Some(l) => w.(ledger := l))
    case Submit(account, cycles, frequency) =>
      (match RewardQueue.GuardedPush(w.queue, account, cycles, frequency)
       case None => w
       case Some(q) => w.(queue := q))
    case SubmitFromPool(amount, frequency) =>
      (match SubmitPool(w, n, amount, frequency)
       case None => w
       case Some(v) => v)
    case Reward(reward) =>
      (match RewardQueue.IssueAll(w.ledger, n.setting.dascoin, RewardQueue.PayRound(w.queue.entries, reward).payments)
       case None => w
       case Some(l) => w.(ledger := l, queue := RewardQueue.Mint(w.queue, reward)))
  }

  /** When the fee pool can submit cycles, and what that does: they leave its balance and the
      supply, and one entry for the pool is appended to the queue. */
  lemma SubmitPoolDoes(w: World, n: Node, amount: int, frequency: int, o: Account, a: AssetId)
    ensures SubmitPool(w, n, amount, frequency).Some? <==>
            && n.setting.feePool.Some? && amount > 0 && frequency > 0
            && RewardQueue.ToDascoin(amount, frequency) <= RewardQueue.CAP - RewardQueue.FastTotal(w.queue)
            && LedgerActions.CanPay(w.ledger, n.setting.feePool.value, n.setting.cycles, amount)
            && n.setting.cycles in w.ledger.assets
    ensures SubmitPool(w, n, amount, frequency).Some? ==>
            var v, pool := SubmitPool(w, n, amount, frequency).value, n.setting.feePool.value;
            && v == w.(ledger := v.ledger, queue := RewardQueue.Push(w.queue, pool, amount, frequency))
            && Owned(v.ledger, o, a) == Owned(w.ledger, o, a) - For(o, a, pool, n.setting.cycles, amount)
            && Supply(v.ledger, a) == Supply(w.ledger, a) - (if a == n.setting.cycles then amount else 0)
            && Fees(v.ledger, a) == Fees(w.ledger, a)
  {
    hide LedgerActions.PerformAll, LedgerActions.CanPay, Owned, Supply, Fees, RewardQueue.ToDascoin,
      RewardQueue.FastTotal;
    if n.setting.feePool.Some? {
      var pool := n.setting.feePool.value;
      RewardQueue.PushGuard(w.queue, pool, amount, frequency);
      if amount > 0 {
        var x := LedgerActions.Debit(pool, n.setting.cycles, amount);
        var y := LedgerActions.Burn(n.setting.cycles, amount);
        LedgerActions.BothPossible(w.ledger, x, y);
        if LedgerActions.PerformAll(w.ledger, PoolActions(n, amount)).Some? {
          LedgerActions.PerformAllPays(w.ledger, [x, y]);
          LedgerActions.PerformAllSupply(w.ledger, [x, y]);
          LedgerActions.SumTwo(LedgerActions.OwnEffect(o, a), x, y);
          LedgerActions.SumTwo(LedgerActions.SupplyEffect(a), x, y);
          LedgerActions.SumTwo(LedgerActions.FeesEffect(a), x, y);
        }
      }
    }
  }

  /** An operation of the combined machine does what it does in its own part, if that accepts
      it, and touches nothing else; otherwise it changes nothing. */
  lemma StepDoes(w: World, n: Node, op: Operation)
    requires RewardQueue.ValidEntries(w.queue.entries)
    ensures var v := Step(w, n, op);
            match op
            case Trade(x) =>
              && v == w.(ledger := v.ledger, book := v.book, nextId := v.nextId)
              && Exchange.Exchange(v.ledger, v.book, v.nextId)
                 == Exchange.Step(Exchange.Exchange(w.ledger, w.book, w.nextId), x)
            case Sale(x) =>
              && v == w.(ledger := v.ledger, projects := v.projects, pledges := v.pledges)
              && (Das33.Step(SaleState(w), x, n.web, n.round) == Some(SaleState(v))
                  || (Das33.Step(SaleState(w), x, n.web, n.round).None? && v == w))
            case Move(x) =>
              && v == w.(ledger := v.ledger)
              && if LedgerActions.Acceptable(w.ledger, n.setting, x)
                 then LedgerActions.Apply(w.ledger, n.setting, x) == Some(v.ledger) else v == w
            case Submit(account, cycles, frequency) =>
              if && cycles > 0 && frequency > 0
                 && RewardQueue.ToDascoin(cycles, frequency) <= RewardQueue.CAP - RewardQueue.FastTotal(w.queue)
              then v == w.(queue := RewardQueue.Push(w.queue, account, cycles, frequency))
              else v == w
            case SubmitFromPool(amount, frequency) =>
              var r := SubmitPool(w, n, amount, frequency);
              if r.Some? then v == r.value else v == w
            case Reward(reward) =>
              var payments := RewardQueue.PayRound(w.queue.entries, reward).payments;
              var r := RewardQueue.IssueAll(w.ledger, n.setting.dascoin, payments);
              if r.Some? then v == w.(ledger := r.value, queue := RewardQueue.Mint(w.queue, reward)) else v == w
  {
    hide Exchange.Step, Das33.Step, LedgerActions.Apply, LedgerActions.Acceptable, SubmitPool, RewardQueue.ToDascoin,
      RewardQueue.FastTotal;
    if op.Move? {
      LedgerActions.ApplyAcceptedExactly(w.ledger, n.setting, op.move);
    } else if op.Submit? {
      RewardQueue.PushGuard(w.queue, op.account, op.cycles, op.frequency);
    }
  }

  /** What exists of an asset, less its supply. */
  function Surplus(w: World, a: AssetId): int {
    Circulating(w.ledger, w.book, a) + Sum(Das33Accounting.EscrowOf(a), w.pledges) - Supply(w.ledger, a)
  }

  ghost predicate Valid(w: World, n: Node) {
    && ValidLedger(w.ledger) && OrderlyBook(w.book, w.nextId)
    && Das33Accounting.ValidPledges(w.pledges, w.projects) && Das33Accounting.ValidProjects(w.projects, n.web)
    && RewardQueue.ValidEntries(w.queue.entries)
    && forall a :: Surplus(w, a) == 0
  }

  predicate SupplyOnly(l: Ledger, m: Ledger) {
    && m.assets.Keys == l.assets.Keys
    && forall a :: a in l.assets ==> m.assets[a] == l.assets[a].(supply := m.assets[a].supply)
  }

  lemma EscrowIsNatural(w: World, n: Node, a: AssetId)
    requires Valid(w, n)
    ensures Sum(Das33Accounting.EscrowOf(a), w.pledges) >= 0
  {
    hide OrderlyBook, ValidLedger, Surplus;
    var f := Das33Accounting.EscrowOf(a);
    forall p | p in w.pledges ensures f(p) >= 0 {
      assert Das33Accounting.ValidPledge(p);
    }
    SumNonNegative(f, w.pledges);
  }

  lemma TradeKeeps(w: World, n: Node, x: Exchange.Operation)
    requires Valid(w, n)
    ensures Valid(Step(w, n, Trade(x)), n)
  {
    hide OrderlyBook, ValidLedger, Circulating, Exchange.Step, Das33Accounting.ValidPledges,
      Das33Accounting.ValidProjects;
    var e := Exchange.Exchange(w.ledger, w.book, w.nextId);
    Exchange.StepConserves(e, x);
    var v := Step(w, n, Trade(x));
    forall a ensures Surplus(v, a) == 0 {
      assert Surplus(w, a) == 0;
      SameSupply(w.ledger, v.ledger, a);
    }
  }

  lemma SameSupply(l: Ledger, m: Ledger, a: AssetId)
    requires SameRules(l, m)
    ensures Supply(m, a) == Supply(l, a)
  {
  }

  lemma SupplyOnlyKeeps(l: Ledger, m: Ledger)
    requires ValidLedger(l) && Solvent(m) && SupplyOnly(l, m)
    ensures ValidLedger(m) && forall a :: Fees(m, a) == Fees(l, a)
  {
  }

  lemma IssueSupplyOnly(l: Ledger, owner: Account, asset: AssetId, cash: int)
    requires Issue(l, owner, asset, cash, 0).Some?
    ensures SupplyOnly(l, Issue(l, owner, asset, cash, 0).value)
  {
  }

  lemma PaidOutSupplyOnly(l: Ledger, p: Das33.Pledge, q: Das33.Pledge, owner: Account)
    requires Das33.PaidOut(l, p, q, owner).Some?
    ensures SupplyOnly(l, Das33.PaidOut(l, p, q, owner).value)
  {
    hide Issue;
    var m := Adjust(l, owner, p.asset, p.pledgeRemaining - q.pledgeRemaining, 0).value;
    IssueSupplyOnly(Das33.Opened(m, p.account, p.token), p.account, p.token,
                    p.baseRemaining - q.baseRemaining + p.bonusRemaining - q.bonusRemaining);
  }

  lemma {:induction false} DistributeSupplyOnly(l: Ledger, ps: seq<Das33.Pledge>, project: Das33.ProjectId,
                                                phase: Option<int>,
                                                owner: Account, r: Das33.Rates, round: Das33.Rounding)
    requires Das33.DistributeAll(l, ps, project, phase, owner, r, round).Some?
    ensures SupplyOnly(l, Das33.DistributeAll(l, ps, project, phase, owner, r, round).value.0)
    decreases |ps|
  {
    hide Das33.PaidOut, Das33.Distributed, Das33.Selected, Das33.Kept;
    if ps != [] {
      if Das33.Selected(ps[0], project, phase) {
        var q := Das33.Distributed(ps[0], r, round);
        PaidOutSupplyOnly(l, ps[0], q, owner);
        DistributeSupplyOnly(Das33.PaidOut(l, ps[0], q, owner).value, ps[1..], project, phase, owner, r, round);
      } else {
        DistributeSupplyOnly(l, ps[1..], project, phase, owner, r, round);
      }
    }
  }

  lemma {:induction false} RejectSupplyOnly(l: Ledger, ps: seq<Das33.Pledge>, project: Das33.ProjectId)
    requires Das33.RejectAll(l, ps, project).Some?
    ensures Das33.RejectAll(l, ps, project).value.0.assets == l.assets
    decreases |ps|
  {
    if ps != [] {
      if ps[0].project == project {
        RejectSupplyOnly(Touch(l, ps[0].account, ps[0].asset, ps[0].pledged, 0).value, ps[1..], project);
      } else {
        RejectSupplyOnly(l, ps[1..], project);
      }
    }
  }

  lemma SaleSupplyOnly(s: Das33.State, op: Das33.Operation, web: AssetId, round: Das33.Rounding)
    requires Das33.Step(s, op, web, round).Some?
    ensures SupplyOnly(s.ledger, Das33.Step(s, op, web, round).value.ledger)
  {
    hide Das33.PaidOut, Das33.Distributed, Das33.DistributeAll, Das33.RejectAll, Das33.Kept;
    match op
    case MakePledge(_, _, _, _) => PledgeSupplyOnly(s, op);
    case UpdateProject(_, _) =>
    case DistributePledge(i, rates) =>
      var p := s.pledges[i];
      PaidOutSupplyOnly(s.ledger, p, Das33.Distributed(p, rates, round), s.projects[p.project].owner);
    case DistributeProject(id, phase, rates) =>
      DistributeSupplyOnly(s.ledger, s.pledges, id, phase, s.projects[id].owner, rates, round);
    case RejectPledge(i) =>
    case RejectProject(id) => RejectSupplyOnly(s.ledger, s.pledges, id);
  }

  lemma PledgeSupplyOnly(s: Das33.State, op: Das33.Operation)
    requires op.MakePledge? && Das33.MakePledgeStep(s, op).Some?
    ensures SupplyOnly(s.ledger, Das33.MakePledgeStep(s, op).value.ledger)
  {
    hide PledgeTerms.Evaluate, Prices.Times;
  }

  lemma SaleKeeps(w: World, n: Node, x: Das33.Operation)
    requires Valid(w, n) && Das33Accounting.ValidReading(x, n.web)
    ensures Valid(Step(w, n, Sale(x)), n)
  {
    hide OrderlyBook, ValidLedger, Das33.Step, Das33Accounting.ValidPledges, Das33Accounting.ValidProjects,
      Das33Accounting.ValidReading, Held, Supply, Fees;
    var s := SaleState(w);
    var r := Das33.Step(s, x, n.web, n.round);
    if r.Some? {
      LedgerIsSolvent(w.ledger);
      Das33Accounting.StepKeeps(s, x, n.web, n.round);
      SaleSupplyOnly(s, x, n.web, n.round);
      SupplyOnlyKeeps(w.ledger, r.value.ledger);
      var v := Step(w, n, Sale(x));
      forall a ensures Surplus(v, a) == 0 {
        assert Surplus(w, a) == 0;
        assert Das33Accounting.Excess(v.ledger, v.pledges, a) == Das33Accounting.Excess(w.ledger, w.pledges, a);
      }
    }
  }

  lemma LedgerIsSolvent(l: Ledger)
    requires ValidLedger(l)
    ensures Solvent(l) && LedgerActions.FeesNonNegative(l)
  {
  }

  lemma SameOptionsKeeps(l: Ledger, m: Ledger)
    requires ValidLedger(l) && Solvent(m) && LedgerActions.FeesNonNegative(m) && LedgerActions.SameOptions(l, m)
    ensures ValidLedger(m)
  {
  }

  /** A change of the ledger alone that keeps what is not backed keeps the invariant. */
  lemma LedgerChangeKeeps(w: World, n: Node, l: Ledger)
    requires Valid(w, n) && ValidLedger(l)
    requires forall a :: LedgerActions.Unbacked(l, a) == LedgerActions.Unbacked(w.ledger, a)
    ensures Valid(w.(ledger := l), n)
  {
    hide OrderlyBook, ValidLedger, Das33Accounting.ValidPledges, Das33Accounting.ValidProjects, Held, Supply, Fees;
    forall a ensures Surplus(w.(ledger := l), a) == 0 {
      assert Surplus(w, a) == 0;
      assert LedgerActions.Unbacked(l, a) == LedgerActions.Unbacked(w.ledger, a);
    }
  }

  lemma MoveKeeps(w: World, n: Node, x: LedgerActions.Operation)
    requires Valid(w, n)
    ensures Valid(Step(w, n, Move(x)), n)
  {
    hide ValidLedger, LedgerActions.Apply, LedgerActions.Unbacked, LedgerActions.SameOptions,
      LedgerActions.FeesNonNegative;
    if LedgerActions.Apply(w.ledger, n.setting, x).Some? {
      LedgerIsSolvent(w.ledger);
      LedgerActions.ApplyKeeps(w.ledger, n.setting, x);
      SameOptionsKeeps(w.ledger, LedgerActions.Apply(w.ledger, n.setting, x).value);
      LedgerChangeKeeps(w, n, LedgerActions.Apply(w.ledger, n.setting, x).value);
    }
  }

  lemma QueueChangeKeeps(w: World, n: Node, q: RewardQueue.Queue)
    requires Valid(w, n) && RewardQueue.ValidEntries(q.entries)
    ensures Valid(w.(queue := q), n)
  {
    hide OrderlyBook, ValidLedger, Das33Accounting.ValidPledges, Das33Accounting.ValidProjects, Circulating, Supply;
    forall a ensures Surplus(w.(queue := q), a) == 0 {
      assert Surplus(w, a) == 0;
    }
  }

  lemma PushIsValid(q: RewardQueue.Queue, account: Account, amount: int, frequency: int)
    requires RewardQueue.ValidEntries(q.entries) && RewardQueue.GuardedPush(q, account, amount, frequency).Some?
    ensures RewardQueue.ValidEntries(RewardQueue.GuardedPush(q, account, amount, frequency).value.entries)
  {
    hide RewardQueue.ToDascoin;
  }

  lemma SubmitPoolKeeps(w: World, n: Node, amount: int, frequency: int)
    requires Valid(w, n) && SubmitPool(w, n, amount, frequency).Some?
    ensures Valid(SubmitPool(w, n, amount, frequency).value, n)
  {
    hide ValidLedger, LedgerActions.PerformAll, LedgerActions.Unbacked, LedgerActions.SameOptions,
      LedgerActions.FeesNonNegative, RewardQueue.GuardedPush;
    var xs := PoolActions(n, amount);
    var l := LedgerActions.PerformAll(w.ledger, xs).value;
    LedgerIsSolvent(w.ledger);
    LedgerActions.PerformAllEffect(w.ledger, xs);
    forall a ensures Sum(LedgerActions.Effect(a), xs) == 0 {
      LedgerActions.SumTwo(LedgerActions.Effect(a), xs[0], xs[1]);
    }
    SameOptionsKeeps(w.ledger, l);
    LedgerChangeKeeps(w, n, l);
    PushIsValid(w.queue, n.setting.feePool.value, amount, frequency);
    QueueChangeKeeps(w.(ledger := l), n,
                     RewardQueue.GuardedPush(w.queue, n.setting.feePool.value, amount, frequency).value);
  }

  lemma {:induction false} IssueAllSupplyOnly(l: Ledger, asset: AssetId, ps: seq<RewardQueue.Payment>)
    requires Solvent(l) && (forall i :: 0 <= i < |ps| ==> ps[i].amount >= 0)
    requires RewardQueue.IssueAll(l, asset, ps).Some?
    ensures var m := RewardQueue.IssueAll(l, asset, ps).value; SupplyOnly(l, m) && Solvent(m)
    decreases |ps|
  {
    hide Issue, Solvent;
    if ps != [] {
      IssueSupplyOnly(l, ps[0].account, asset, ps[0].amount);
      IssueMoves(l, ps[0].account, asset, ps[0].amount, 0);
      IssueAllSupplyOnly(Issue(l, ps[0].account, asset, ps[0].amount, 0).value, asset, ps[1..]);
    }
  }

  lemma PaymentsAreNatural(s: seq<RewardQueue.Entry>, reward: int)
    requires RewardQueue.ValidEntries(s)
    ensures forall i :: 0 <= i < |RewardQueue.PayRound(s, reward).payments| ==>
            RewardQueue.PayRound(s, reward).payments[i].amount >= 0
  {
    hide RewardQueue.PayRound, RewardQueue.ToDascoin;
    RewardQueue.RoundPaysInOrder(s, reward);
    var r := RewardQueue.PayRound(s, reward);
    forall i | 0 <= i < |r.payments| ensures r.payments[i].amount >= 0 {
      if i < r.finished {
        RewardQueue.OwedNonNegative(s[i]);
      }
    }
  }

  lemma RewardKeeps(w: World, n: Node, reward: int)
    requires Valid(w, n)
    ensures Valid(Step(w, n, Reward(reward)), n)
  {
    hide ValidLedger, RewardQueue.IssueAll, RewardQueue.PayRound, Held, Supply, Fees, Solvent;
    var payments := RewardQueue.PayRound(w.queue.entries, reward).payments;
    var r := RewardQueue.IssueAll(w.ledger, n.setting.dascoin, payments);
    if r.Some? {
      LedgerIsSolvent(w.ledger);
      PaymentsAreNatural(w.queue.entries, reward);
      IssueAllSupplyOnly(w.ledger, n.setting.dascoin, payments);
      SupplyOnlyKeeps(w.ledger, r.value);
      RewardQueue.IssueAllMoves(w.ledger, n.setting.dascoin, payments);
      LedgerChangeKeeps(w, n, r.value);
      RewardQueue.RoundKeepsOrder(w.queue.entries, reward);
      QueueChangeKeeps(w.(ledger := r.value), n, RewardQueue.Mint(w.queue, reward));
    }
  }

  ghost predicate ValidOperation(op: Operation, n: Node) {
    op.Sale? ==> Das33Accounting.ValidReading(op.sale, n.web)
  }

  /** Every operation keeps every unit of every supply accounted for. */
  lemma StepKeeps(w: World, n: Node, op: Operation)
    requires Valid(w, n) && ValidOperation(op, n)
    ensures Valid(Step(w, n, op), n)
  {
    match op
    case Trade(x) => TradeKeeps(w, n, x);
    case Sale(x) => SaleKeeps(w, n, x);
    case Move(x) => MoveKeeps(w, n, x);
    case Submit(account, cycles, frequency) => SubmitKeeps(w, n, account, cycles, frequency);
    case SubmitFromPool(amount, frequency) =>
      hide Valid;
      if SubmitPool(w, n, amount, frequency).Some? {
        SubmitPoolKeeps(w, n, amount, frequency);
      }
    case Reward(reward) => RewardKeeps(w, n, reward);
  }

  lemma SubmitKeeps(w: World, n: Node, account: Account, cycles: int, frequency: int)
    requires Valid(w, n)
    ensures Valid(Step(w, n, Submit(account, cycles, frequency)), n)
  {
    hide RewardQueue.GuardedPush;
    if RewardQueue.GuardedPush(w.queue, account, cycles, frequency).Some? {
      PushIsValid(w.queue, account, cycles, frequency);
      QueueChangeKeeps(w, n, RewardQueue.GuardedPush(w.queue, account, cycles, frequency).value);
    }
  }

  ghost predicate ValidOperations(ops: seq<Operation>, n: Node) {
    forall op :: op in ops ==> ValidOperation(op, n)
  }

  ghost function Run(w: World, n: Node, ops: seq<Operation>): World
    requires Valid(w, n) && ValidOperations(ops, n)
    decreases |ops|
  {
    if ops == [] then w
    else
      StepKeeps(w, n, ops[0]);
      Run(Step(w, n, ops[0]), n, ops[1..])
  }

  lemma {:induction false} RunAppends(w: World, n: Node, ops: seq<Operation>, op: Operation)
    requires Valid(w, n) && ValidOperations(ops, n) && ValidOperation(op, n)
    ensures ValidOperations(ops + [op], n) && RewardQueue.ValidEntries(Run(w, n, ops).queue.entries)
    ensures Run(w, n, ops + [op]) == Step(Run(w, n, ops), n, op)
    decreases |ops|
  {
    hide Step, ValidOperation, ValidLedger, OrderlyBook, Das33Accounting.ValidPledges, Das33Accounting.ValidProjects;
    if ops == [] {
      assert ops + [op] == [op] && [op][1..] == [];
      StepKeeps(w, n, op);
    } else {
      assert (ops + [op])[1..] == ops[1..] + [op];
      StepKeeps(w, n, ops[0]);
      RunAppends(Step(w, n, ops[0]), n, ops[1..], op);
    }
  }

  /** Over every run of orders, cancellations, transfers, fees, issues, burns, cycle purchases,
      queue submissions and payouts, pledges, distributions and rejections: for every asset
      the supply is what balances, orders, accumulated fees and pledges hold. */
  lemma {:induction false} RunKeeps(w: World, n: Node, ops: seq<Operation>, a: AssetId)
    requires Valid(w, n) && ValidOperations(ops, n)
    ensures var v := Run(w, n, ops);
            && Valid(v, n)
            && Supply(v.ledger, a) == Held(v.ledger, a) + Fees(v.ledger, a)
                 + Sum(ForSaleIn(a), v.book) + Sum(Das33Accounting.EscrowOf(a), v.pledges)
    decreases |ops|
  {
    hide Step, ValidOperation, ValidLedger, OrderlyBook, Das33Accounting.ValidPledges, Das33Accounting.ValidProjects;
    if ops == [] {
      assert Surplus(w, a) == 0;
    } else {
      StepKeeps(w, n, ops[0]);
      RunKeeps(Step(w, n, ops[0]), n, ops[1..], a);
    }
  }

  /** The operation is a create that misses an order. */
  ghost predicate Misses(w: World, op: Operation) {
    op.Trade? && Exchange.Misses(Exchange.Exchange(w.ledger, w.book, w.nextId), op.trade)
  }

  predicate InReach(op: Operation) {
    op.Trade? ==> Exchange.OffersInReach(op.trade)
  }

  lemma StepUncrossedExactly(w: World, n: Node, op: Operation)
    requires Valid(w, n) && Uncrossed(w.book)
    ensures Uncrossed(Step(w, n, op).book) <==> !Misses(w, op)
    ensures AllInReach(w.book) && InReach(op) ==> AllInReach(Step(w, n, op).book) && !Misses(w, op)
  {
    hide OrderlyBook, Uncrossed, AllInReach, ValidLedger, Exchange.Step, Exchange.Misses, Exchange.OffersInReach,
      Das33.Step;
    if op.Trade? {
      Exchange.StepUncrossedExactly(Exchange.Exchange(w.ledger, w.book, w.nextId), op.trade);
    }
  }

  /** The book is uncrossed all through a run. */
  ghost predicate StaysUncrossed(w: World, n: Node, ops: seq<Operation>)
    requires Valid(w, n) && ValidOperations(ops, n)
    decreases |ops|
  {
    Uncrossed(w.book) &&
    (ops == [] ||
     (StepKeeps(w, n, ops[0]);
      StaysUncrossed(Step(w, n, ops[0]), n, ops[1..])))
  }

  /** Some create of a run misses an order. */
  ghost predicate RunMisses(w: World, n: Node, ops: seq<Operation>)
    requires Valid(w, n) && ValidOperations(ops, n)
    decreases |ops|
  {
    ops != [] &&
    (Misses(w, ops[0]) ||
     (StepKeeps(w, n, ops[0]);
      RunMisses(Step(w, n, ops[0]), n, ops[1..])))
  }

  /** Whatever happens to the ledger, the book is uncrossed all through a run exactly if no
      create misses an order; and none does if all offers are in reach. */
  lemma {:induction false} RunUncrossedExactly(w: World, n: Node, ops: seq<Operation>)
    requires Valid(w, n) && ValidOperations(ops, n) && Uncrossed(w.book)
    ensures StaysUncrossed(w, n, ops) <==> !RunMisses(w, n, ops)
    ensures AllInReach(w.book) && (forall op :: op in ops ==> InReach(op)) ==> !RunMisses(w, n, ops)
    decreases |ops|
  {
    hide Step, ValidLedger, OrderlyBook, Surplus, ValidOperation, Uncrossed, AllInReach, Misses, InReach,
      Das33Accounting.ValidPledges, Das33Accounting.ValidProjects;
    if ops != [] {
      StepKeeps(w, n, ops[0]);
      StepUncrossedExactly(w, n, ops[0]);
      if !Misses(w, ops[0]) {
        RunUncrossedExactly(Step(w, n, ops[0]), n, ops[1..]);
      }
    }
  }

  /** No supply is above the maximum that order prices are made for. */
  ghost predicate SuppliesFit(w: World) {
    forall a :: Supply(w.ledger, a) <= MAX_SHARE_SUPPLY
  }

  /** No supply passes the maximum before the last step. */
  ghost predicate StaysFit(w: World, n: Node, ops: seq<Operation>)
    requires Valid(w, n) && ValidOperations(ops, n)
    decreases |ops|
  {
    ops == [] ||
    (StepKeeps(w, n, ops[0]);
     SuppliesFit(w) && StaysFit(Step(w, n, ops[0]), n, ops[1..]))
  }

  lemma ExchangeIsValid(w: World, n: Node)
    requires Valid(w, n) && SuppliesFit(w) && SettledBook(w.book)
    ensures Exchange.Valid(Exchange.Exchange(w.ledger, w.book, w.nextId))
  {
    hide OrderlyBook, SettledBook, ValidLedger, Circulating, Supply;
    forall a ensures Circulating(w.ledger, w.book, a) <= MAX_SHARE_SUPPLY {
      EscrowIsNatural(w, n, a);
      assert Surplus(w, a) == 0;
    }
  }

  lemma StepStaysSettled(w: World, n: Node, op: Operation)
    requires Valid(w, n) && SuppliesFit(w) && SettledBook(w.book)
    ensures SettledBook(Step(w, n, op).book)
  {
    hide OrderlyBook, SettledBook, ValidLedger, Exchange.Step, Das33.Step, SuppliesFit;
    if op.Trade? {
      ExchangeIsValid(w, n);
      Exchange.StepKeeps(Exchange.Exchange(w.ledger, w.book, w.nextId), op.trade);
    }
  }

  /** In every run in which the supplies stay within the maximum, whatever else happens to the
      ledger, the book stays uncrossed. */
  lemma {:induction false} RunStaysSettled(w: World, n: Node, ops: seq<Operation>)
    requires Valid(w, n) && ValidOperations(ops, n) && StaysFit(w, n, ops) && SettledBook(w.book)
    ensures SettledBook(Run(w, n, ops).book)
    decreases |ops|
  {
    hide Step, ValidLedger, OrderlyBook, Surplus, ValidOperation, SuppliesFit, SettledBook,
      Das33Accounting.ValidPledges, Das33Accounting.ValidProjects;
    if ops != [] {
      StepKeeps(w, n, ops[0]);
      StepStaysSettled(w, n, ops[0]);
      RunStaysSettled(Step(w, n, ops[0]), n, ops[1..]);
    }
  }
}
