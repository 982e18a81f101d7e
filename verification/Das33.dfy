/** Crowd-sale projects: pledges, their distribution and their rejection. */
module Das33 {
  import opened Wrappers
  import opened Sums
  import opened Arithmetic
  import opened Ledger
  import opened Prices
  import opened PledgeTerms

  type ProjectId = nat

  datatype Pledge = Pledge(account: Account, project: ProjectId, asset: AssetId, token: AssetId,
                           pledged: int, pledgeRemaining: int,
                           baseExpected: int, baseRemaining: int,
                           bonusExpected: int, bonusRemaining: int, phase: int)

  /** Pledges in the order of their ids. */
  datatype State = State(ledger: Ledger, projects: map<ProjectId, Project>, pledges: seq<Pledge>)

  /** What the operation reads from the rest of the node: the price of the pledged asset,
      the decimals of the assets involved and the time. */
  datatype Reading = Reading(price: Option<Price>, decimals: nat, tokenDecimals: nat, webDecimals: nat, now: int)

  /** The parts of a pledge to distribute, in hundredths of a percent. */
  datatype Rates = Rates(toEscrow: int, baseToPledger: int, bonusToPledger: int)

  /** A share of an amount at a rate, rounded to an integer by floating point arithmetic.
      Nothing but its sign is used, so every way to round is covered. */
  type Rounding = (int, int) -> nat

  datatype Operation =
    | MakePledge(account: Account, project: ProjectId, pledged: Asset, reading: Reading)
    | UpdateProject(project: ProjectId, update: Update)
    | DistributePledge(index: nat, rates: Rates)
    | DistributeProject(project: ProjectId, phaseFilter: Option<int>, rates: Rates)
    | RejectPledge(index: nat)
    | RejectProject(project: ProjectId)

  datatype Update = Update(owner: Option<Account>, discounts: Option<map<AssetId, int>>, minPledge: Option<int>,
                           maxPledge: Option<int>, tokenPrice: Option<Price>, active: Option<bool>,
                           phase: Option<int>, phaseLimit: Option<int>, phaseEnd: Option<Option<int>>)

  function Or<T>(o: Option<T>, x: T): T {
    if o.Some? then o.value else x
  }

  function PreviousOf(account: Account, project: ProjectId, phase: int): Pledge -> int {
    (p: Pledge) => if p.account == account && p.project == project && p.phase == phase then p.baseExpected else 0
  }

  /** `das33_pledge_asset_evaluator`: take the asset, count the tokens as sold, keep the pledge. */
  function MakePledgeStep(s: State, op: Operation): Option<State>
    requires op.MakePledge?
  {
    var pledged, reading := op.pledged, op.reading;
    if op.project !in s.projects || reading.price.None? then None
    else
      var p := s.projects[op.project];
      if Find(s.ledger.balances, op.account, pledged.id).None? then None
      else if GetBalance(s.ledger, op.account, pledged.id) < pledged.amount then None
      else if p.phaseEnd.Some? && reading.now >= p.phaseEnd.value then None
      else
        var previous := Sum(PreviousOf(op.account, op.project, p.phase), s.pledges);
        match Evaluate(p, pledged, reading.price.value, previous,
                       PrecisionModifier(reading.decimals, reading.webDecimals),
                       PrecisionModifier(reading.tokenDecimals, reading.webDecimals))
        case None => None
        case Some(t) =>
          match Times(t.take, reading.price.value)
          case None => None
          case Some(eur) =>
            match Touch(s.ledger, op.account, pledged.id, -t.take.amount, 0)
            case None => None
            case Some(l) =>
              var sold := p.(sold := p.sold + t.base + t.bonus, collected := p.collected + eur.amount);
              var pledge := Pledge(op.account, op.project, t.take.id, p.token, t.take.amount, t.take.amount,
                                   t.base, t.base, t.bonus, t.bonus, p.phase);
              Some(State(l, s.projects[op.project := sold], s.pledges + [pledge]))
  }

  /** `das33_project_update_evaluator`, for the fields the sale depends on. */
  function UpdateStep(s: State, id: ProjectId, u: Update, web: AssetId): Option<State> {
    if id !in s.projects then None
    else
      var p := s.projects[id];
      if u.tokenPrice.Some? && !Between(u.tokenPrice.value, web, p.token) then None
      else if u.discounts.Some?
              && exists a :: a in u.discounts.value && !(0 < u.discounts.value[a] <= BONUS_PRECISION) then None
      else if u.minPledge.Some? && u.minPledge.value < 0 then None
      else if u.maxPledge.Some? && u.maxPledge.value < 0 then None
      else if u.phase.Some? && u.phase.value <= p.phase then None
      else if u.phaseLimit.Some? && p.phaseLimit != p.maxSupply && u.phaseLimit.value < p.sold then None
      else if u.phaseLimit.Some? && u.phaseLimit.value > p.maxSupply then None
      else Some(s.(projects := s.projects[id := p.(
        owner := Or(u.owner, p.owner), discounts := Or(u.discounts, p.discounts),
        minPledge := Or(u.minPledge, p.minPledge), maxPledge := Or(u.maxPledge, p.maxPledge),
        tokenPrice := Or(u.tokenPrice, p.tokenPrice), active := Or(u.active, p.active),
        phase := Or(u.phase, p.phase), phaseLimit := Or(u.phaseLimit, p.phaseLimit),
        phaseEnd := Or(u.phaseEnd, p.phaseEnd))]))
  }

  /** The pledge after one distribution. */
  function Distributed(p: Pledge, r: Rates, round: Rounding): Pledge {
    p.(baseRemaining := p.baseRemaining - Min(round(p.baseExpected, r.baseToPledger), p.baseRemaining),
       bonusRemaining := p.bonusRemaining - Min(round(p.bonusExpected, r.bonusToPledger), p.bonusRemaining),
       pledgeRemaining := p.pledgeRemaining - Min(round(p.pledged, r.toEscrow), p.pledgeRemaining))
  }

  /** Open an empty balance object if there is none. */
  function Opened(l: Ledger, owner: Account, asset: AssetId): Ledger {
    if Find(l.balances, owner, asset).Some? then l
    else l.(balances := l.balances + [Balance(owner, asset, 0, 0)])
  }

  /** The ledger after `p` went to `q`: the owner of the project is paid, tokens are issued. */
  function PaidOut(l: Ledger, p: Pledge, q: Pledge, owner: Account): Option<Ledger> {
    match Adjust(l, owner, p.asset, p.pledgeRemaining - q.pledgeRemaining, 0)
    case None => None
    case Some(m) =>
      Issue(Opened(m, p.account, p.token), p.account, p.token,
            p.baseRemaining - q.baseRemaining + p.bonusRemaining - q.bonusRemaining, 0)
  }

  /** A pledge of which everything is distributed is removed. */
  function Kept(p: Pledge): seq<Pledge> {
    if p.pledgeRemaining + p.baseRemaining + p.bonusRemaining <= 0 then [] else [p]
  }

  function DistributeOne(s: State, i: nat, r: Rates, round: Rounding): Option<State> {
    if i >= |s.pledges| || s.pledges[i].project !in s.projects then None
    else
      var p := s.pledges[i];
      var q := Distributed(p, r, round);
      match PaidOut(s.ledger, p, q, s.projects[p.project].owner)
      case None => None
      case Some(l) => Some(s.(ledger := l, pledges := s.pledges[..i] + Kept(q) + s.pledges[i + 1..]))
  }

  predicate Selected(p: Pledge, project: ProjectId, phase: Option<int>) {
    p.project == project && (phase.None? || p.phase == phase.value)
  }

  /** Distribute every selected pledge of the list, in order. */
  function DistributeAll(l: Ledger, ps: seq<Pledge>, project: ProjectId, phase: Option<int>, owner: Account,
                         r: Rates, round: Rounding): Option<(Ledger, seq<Pledge>)>
    decreases |ps|
  {
    if ps == [] then Some((l, []))
    else if !Selected(ps[0], project, phase) then
      match DistributeAll(l, ps[1..], project, phase, owner, r, round)
      case None => None
      case Some(x) => Some((x.0, [ps[0]] + x.1))
    else
      var q := Distributed(ps[0], r, round);
      match PaidOut(l, ps[0], q, owner)
      case None => None
      case Some(m) =>
        match DistributeAll(m, ps[1..], project, phase, owner, r, round)
        case None => None
        case Some(x) => Some((x.0, Kept(q) + x.1))
  }

  predicate Untouched(p: Pledge) {
    p.baseRemaining == p.baseExpected && p.bonusRemaining == p.bonusExpected && p.pledgeRemaining == p.pledged
  }

  function RejectOne(s: State, i: nat): Option<State> {
    if i >= |s.pledges| || s.pledges[i].project !in s.projects || !Untouched(s.pledges[i]) then None
    else
      match Touch(s.ledger, s.pledges[i].account, s.pledges[i].asset, s.pledges[i].pledged, 0)
      case None => None
      case Some(l) => Some(s.(ledger := l, pledges := s.pledges[..i] + s.pledges[i + 1..]))
  }

  /** Refund and remove every pledge of a project. */
  function RejectAll(l: Ledger, ps: seq<Pledge>, project: ProjectId): Option<(Ledger, seq<Pledge>)>
    decreases |ps|
  {
    if ps == [] then Some((l, []))
    else if ps[0].project != project then
      match RejectAll(l, ps[1..], project)
      case None => None
      case Some(x) => Some((x.0, [ps[0]] + x.1))
    else
      match Touch(l, ps[0].account, ps[0].asset, ps[0].pledged, 0)
      case None => None
      case Some(m) => RejectAll(m, ps[1..], project)
  }

  /** One operation; `None` if the node refuses it. */
  function Step(s: State, op: Operation, web: AssetId, round: Rounding): Option<State> {
    match op
    case MakePledge(_, _, _, _) => MakePledgeStep(s, op)
    case UpdateProject(id, update) => UpdateStep(s, id, update, web)
    case DistributePledge(i, rates) => DistributeOne(s, i, rates, round)
    case DistributeProject(id, phase, rates) =>
      if id !in s.projects then None
      else (match DistributeAll(s.ledger, s.pledges, id, phase, s.projects[id].owner, rates, round)
            case None => None
            case Some(x) => Some(s.(ledger := x.0, pledges := x.1)))
    case RejectPledge(i) => RejectOne(s, i)
    case RejectProject(id) =>
      if id !in s.projects || exists p :: p in s.pledges && p.project == id && !Untouched(p) then None
      else (match RejectAll(s.ledger, s.pledges, id)
            case None => None
            case Some(x) => Some(s.(ledger := x.0, pledges := x.1)))
  }

  /** The loop of `das33_distribute_project_pledges_evaluator::do_apply`. */
  method DistributeLoop(l: Ledger, ps: seq<Pledge>, project: ProjectId, phase: Option<int>, owner: Account,
                        r: Rates, round: Rounding) returns (result: Option<(Ledger, seq<Pledge>)>)
    ensures result == DistributeAll(l, ps, project, phase, owner, r, round)
  {
    hide PaidOut, Distributed, Selected, Kept;
    var m, kept, i := l, [], 0;
    assert ps[0..] == ps;
    PrependNothing(DistributeAll(l, ps, project, phase, owner, r, round));
    while i < |ps|
      invariant 0 <= i <= |ps|
      invariant DistributeAll(l, ps, project, phase, owner, r, round) ==
                Prepend(kept, DistributeAll(m, ps[i..], project, phase, owner, r, round))
    {
      var p := ps[i];
      assert ps[i..][1..] == ps[i + 1..];
      if Selected(p, project, phase) {
        var q := Distributed(p, r, round);
        var paid := PaidOut(m, p, q, owner);
        if paid.None? {
          return None;
        }
        PrependTwice(kept, Kept(q), DistributeAll(paid.value, ps[i + 1..], project, phase, owner, r, round));
        m, kept := paid.value, kept + Kept(q);
      } else {
        PrependTwice(kept, [p], DistributeAll(m, ps[i + 1..], project, phase, owner, r, round));
        kept := kept + [p];
      }
      i := i + 1;
    }
    assert kept + [] == kept;
    result := Some((m, kept));
  }

  /** The loop of `das33_project_reject_evaluator::do_apply`. */
  method RejectLoop(l: Ledger, ps: seq<Pledge>, project: ProjectId) returns (result: Option<(Ledger, seq<Pledge>)>)
    ensures result == RejectAll(l, ps, project)
  {
    hide Touch;
    var m, kept, i := l, [], 0;
    assert ps[0..] == ps;
    PrependNothing(RejectAll(l, ps, project));
    while i < |ps|
      invariant 0 <= i <= |ps|
      invariant RejectAll(l, ps, project) == Prepend(kept, RejectAll(m, ps[i..], project))
    {
      var p := ps[i];
      assert ps[i..][1..] == ps[i + 1..];
      if p.project == project {
        var paid := Touch(m, p.account, p.asset, p.pledged, 0);
        if paid.None? {
          return None;
        }
        m := paid.value;
      } else {
        PrependTwice(kept, [p], RejectAll(m, ps[i + 1..], project));
        kept := kept + [p];
      }
      i := i + 1;
    }
    assert kept + [] == kept;
    result := Some((m, kept));
  }

  function Prepend(ps: seq<Pledge>, r: Option<(Ledger, seq<Pledge>)>): Option<(Ledger, seq<Pledge>)> {
    match r
    case None => None
    case Some(x) => Some((x.0, ps + x.1))
  }

  lemma PrependNothing(r: Option<(Ledger, seq<Pledge>)>)
    ensures Prepend([], r) == r
  {
    if r.Some? {
      assert [] + r.value.1 == r.value.1;
    }
  }

  lemma PrependTwice(ps: seq<Pledge>, qs: seq<Pledge>, r: Option<(Ledger, seq<Pledge>)>)
    ensures Prepend(ps, Prepend(qs, r)) == Prepend(ps + qs, r)
  {
    if r.Some? {
      assert ps + (qs + r.value.1) == (ps + qs) + r.value.1;
    }
  }

  class Das33Database {
    var state: State
    const web: AssetId
    const round: Rounding

    constructor (s: State, w: AssetId, f: Rounding)
      ensures state == s && web == w && round == f
    {
      state, web, round := s, w, f;
    }

    method PledgeAsset(account: Account, project: ProjectId, pledged: Asset, reading: Reading) returns (ok: bool)
      modifies this
      ensures var r := Step(old(state), MakePledge(account, project, pledged, reading), web, round);
              ok == r.Some? && state == if ok then r.value else old(state)
    {
      hide Evaluate, Times, Touch, GetBalance, PrecisionModifier;
      if project !in state.projects || reading.price.None? || Find(state.ledger.balances, account, pledged.id).None? {
        return false;
      }
      var p, price := state.projects[project], reading.price.value;
      if GetBalance(state.ledger, account, pledged.id) < pledged.amount {
        return false;
      }
      if p.phaseEnd.Some? && reading.now >= p.phaseEnd.value {
        return false;
      }
      var previous := PledgedInPhase(account, project, p.phase);
      var terms := Evaluate(p, pledged, price, previous,
                            PrecisionModifier(reading.decimals, reading.webDecimals),
                            PrecisionModifier(reading.tokenDecimals, reading.webDecimals));
      if terms.None? {
        return false;
      }
      var t := terms.value;
      var eur := Times(t.take, price);
      var ledger := Touch(state.ledger, account, pledged.id, -t.take.amount, 0);
      if eur.None? || ledger.None? {
        return false;
      }
      p := p.(sold := p.sold + t.base + t.bonus, collected := p.collected + eur.value.amount);
      var pledge := Pledge(account, project, t.take.id, p.token, t.take.amount, t.take.amount,
                           t.base, t.base, t.bonus, t.bonus, p.phase);
      state := State(ledger.value, state.projects[project := p], state.pledges + [pledge]);
      ok := true;
    }

    /** The loop of `users_total_pledges_in_round`. */
    method PledgedInPhase(account: Account, project: ProjectId, phase: int) returns (sum: int)
      ensures sum == Sum(PreviousOf(account, project, phase), state.pledges)
    {
      sum := 0;
      ghost var f := PreviousOf(account, project, phase);
      var i := 0;
      while i < |state.pledges|
        invariant 0 <= i <= |state.pledges| && sum == Sum(f, state.pledges[..i])
      {
        var p := state.pledges[i];
        assert state.pledges[..i + 1] == state.pledges[..i] + [p];
        SumAppend(f, state.pledges[..i], p);
        if p.account == account && p.project == project && p.phase == phase {
          sum := sum + p.baseExpected;
        }
        i := i + 1;
      }
      assert state.pledges[..i] == state.pledges;
    }

    method DistributeProjectPledges(project: ProjectId, phase: Option<int>, rates: Rates) returns (ok: bool)
      modifies this
      ensures var r := Step(old(state), DistributeProject(project, phase, rates), web, round);
              ok == r.Some? && state == if ok then r.value else old(state)
    {
      if project !in state.projects {
        return false;
      }
      var r := DistributeLoop(state.ledger, state.pledges, project, phase, state.projects[project].owner, rates, round);
      ok := r.Some?;
      if ok {
        state := state.(ledger := r.value.0, pledges := r.value.1);
      }
    }

    method RejectProjectPledges(project: ProjectId) returns (ok: bool)
      modifies this
      ensures var r := Step(old(state), RejectProject(project), web, round);
              ok == r.Some? && state == if ok then r.value else old(state)
    {
      if project !in state.projects {
        return false;
      }
      var i := 0;
      while i < |state.pledges|
        invariant 0 <= i <= |state.pledges| && state == old(state)
        invariant forall p :: p in state.pledges[..i] && p.project == project ==> Untouched(p)
      {
        var p := state.pledges[i];
        if p.project == project && !Untouched(p) {
          return false;
        }
        i := i + 1;
      }
      assert state.pledges[..i] == state.pledges;
      var r := RejectLoop(state.ledger, state.pledges, project);
      ok := r.Some?;
      if ok {
        state := state.(ledger := r.value.0, pledges := r.value.1);
      }
    }
  }
}
