/** What every run of crowd-sale operations keeps: no asset is lost or made, and the tokens
    issued, promised and rejected add up to the tokens sold. */
module Das33Accounting {
  import opened Wrappers
  import opened Arithmetic
  import opened Sums
  import opened Ledger
  import opened Prices
  import opened PledgeTerms
  import opened Das33

  predicate ValidPledge(p: Pledge) {
    && 0 <= p.pledgeRemaining <= p.pledged
    && 0 <= p.baseRemaining <= p.baseExpected
    && 0 <= p.bonusRemaining <= p.bonusExpected
  }

  /** Pledges are within bounds and wait for the token of their project. */
  ghost predicate ValidPledges(ps: seq<Pledge>, projects: map<ProjectId, Project>) {
    forall p :: p in ps ==> ValidPledge(p) && p.project in projects && p.token == projects[p.project].token
  }

  ghost predicate ValidProjects(projects: map<ProjectId, Project>, web: AssetId) {
    && (forall id :: id in projects ==> ValidProject(projects[id], web))
    && (forall i, j :: i in projects && j in projects && i != j ==> projects[i].token != projects[j].token)
  }

  ghost predicate Valid(s: State, web: AssetId) {
    Solvent(s.ledger) && ValidPledges(s.pledges, s.projects) && ValidProjects(s.projects, web)
  }

  function EscrowOf(a: AssetId): Pledge -> int {
    (p: Pledge) => if p.asset == a then p.pledgeRemaining else 0
  }

  /** Tokens of `a` that a pledge still waits for. */
  function Promised(p: Pledge, a: AssetId): int {
    if p.token == a then p.baseRemaining + p.bonusRemaining else 0
  }

  function PromisedOf(a: AssetId): Pledge -> int {
    (p: Pledge) => Promised(p, a)
  }

  /** What accounts hold and what pledges hold, less the supply. */
  function Excess(l: Ledger, ps: seq<Pledge>, a: AssetId): int {
    Held(l, a) + Sum(EscrowOf(a), ps) - Supply(l, a)
  }

  /** Tokens issued and tokens still promised. */
  function Committed(l: Ledger, ps: seq<Pledge>, a: AssetId): int {
    Supply(l, a) + Sum(PromisedOf(a), ps)
  }

  /** Between two ledgers and lists of pledges no asset is gained or lost, and the tokens
      committed change by `change`. */
  ghost predicate Balanced(l: Ledger, ps: seq<Pledge>, m: Ledger, qs: seq<Pledge>, change: AssetId -> int) {
    forall a :: Excess(m, qs, a) == Excess(l, ps, a) && Committed(m, qs, a) == Committed(l, ps, a) + change(a)
  }

  function Nothing(): AssetId -> int {
    (a: AssetId) => 0
  }

  function TokensOf(p: Pledge): AssetId -> int {
    (a: AssetId) => Promised(p, a)
  }

  lemma OpenedMoves(l: Ledger, owner: Account, asset: AssetId)
    ensures var m := Opened(l, owner, asset);
            Moves(l, m, asset, 0) && (Solvent(l) ==> Solvent(m))
  {
    if Find(l.balances, owner, asset).None? {
      var m := Opened(l, owner, asset);
      forall a ensures Held(m, a) == Held(l, a) {
        SumAppend(HeldIn(a), l.balances, Balance(owner, asset, 0, 0));
      }
    }
  }

  /** A distribution takes from the pledge at most what remains of it. */
  lemma DistributedIsValid(p: Pledge, r: Rates, round: Rounding)
    requires ValidPledge(p)
    ensures var q := Distributed(p, r, round);
            && ValidPledge(q) && q.project == p.project && q.token == p.token && q.asset == p.asset
            && q.pledgeRemaining <= p.pledgeRemaining && q.baseRemaining <= p.baseRemaining
            && q.bonusRemaining <= p.bonusRemaining
  {
  }

  /** Paying out moves exactly what leaves the pledge: the asset to the owner of the
      project, the tokens into the supply and to the pledger. */
  lemma PaidOutEffect(l: Ledger, p: Pledge, q: Pledge, owner: Account)
    requires Solvent(l) && PaidOut(l, p, q, owner).Some?
    requires q.pledgeRemaining <= p.pledgeRemaining && q.baseRemaining <= p.baseRemaining
    requires q.bonusRemaining <= p.bonusRemaining && q.token == p.token && q.asset == p.asset
    ensures var m := PaidOut(l, p, q, owner).value;
            && Solvent(m)
            && forall a :: && Held(m, a) - Supply(m, a) == Held(l, a) - Supply(l, a) + EscrowOf(a)(p) - EscrowOf(a)(q)
                           && Supply(m, a) == Supply(l, a) + Promised(p, a) - Promised(q, a)
  {
    hide Adjust, Issue, Opened, Held;
    var m := Adjust(l, owner, p.asset, p.pledgeRemaining - q.pledgeRemaining, 0).value;
    AdjustMoves(l, owner, p.asset, p.pledgeRemaining - q.pledgeRemaining, 0);
    OpenedMoves(m, p.account, p.token);
    IssueMoves(Opened(m, p.account, p.token), p.account, p.token,
               p.baseRemaining - q.baseRemaining + p.bonusRemaining - q.bonusRemaining, 0);
  }

  /** The owner of the project gets what leaves the pledge, the pledger gets the tokens, and
      nobody else is paid. */
  lemma PaidOutPays(l: Ledger, p: Pledge, q: Pledge, owner: Account)
    requires PaidOut(l, p, q, owner).Some?
    ensures forall o, a :: Owned(PaidOut(l, p, q, owner).value, o, a) == Owned(l, o, a)
              + For(o, a, owner, p.asset, p.pledgeRemaining - q.pledgeRemaining)
              + For(o, a, p.account, p.token, p.baseRemaining - q.baseRemaining + p.bonusRemaining - q.bonusRemaining)
  {
    hide Adjust, Issue, Opened, Owned, GetBalance, For;
    var m := Adjust(l, owner, p.asset, p.pledgeRemaining - q.pledgeRemaining, 0).value;
    AdjustPays(l, owner, p.asset, p.pledgeRemaining - q.pledgeRemaining, 0);
    OpenedPays(m, p.account, p.token);
    IssuePays(Opened(m, p.account, p.token), p.account, p.token,
              p.baseRemaining - q.baseRemaining + p.bonusRemaining - q.bonusRemaining, 0);
  }

  lemma OpenedPays(l: Ledger, owner: Account, asset: AssetId)
    ensures forall o, a :: Owned(Opened(l, owner, asset), o, a) == Owned(l, o, a)
  {
    hide Find;
    forall o, a ensures Owned(Opened(l, owner, asset), o, a) == Owned(l, o, a) {
      FindAppend(l.balances, Balance(owner, asset, 0, 0), o, a);
    }
  }

  /** A removed pledge held nothing and waited for nothing. */
  lemma KeptSums(p: Pledge, a: AssetId)
    requires ValidPledge(p)
    ensures Sum(EscrowOf(a), Kept(p)) == EscrowOf(a)(p) && Sum(PromisedOf(a), Kept(p)) == Promised(p, a)
  {
  }

  lemma DistributeOneBalanced(s: State, i: nat, r: Rates, round: Rounding, web: AssetId)
    requires Valid(s, web) && DistributeOne(s, i, r, round).Some?
    ensures var t := DistributeOne(s, i, r, round).value;
            Valid(t, web) && t.projects == s.projects && Balanced(s.ledger, s.pledges, t.ledger, t.pledges, Nothing())
  {
    hide PaidOut, Distributed, Held, Supply, ValidProjects, Kept, ValidPledge, Solvent;
    var t := DistributeOne(s, i, r, round).value;
    var p := s.pledges[i];
    var q := Distributed(p, r, round);
    DistributedIsValid(p, r, round);
    PaidOutEffect(s.ledger, p, q, s.projects[p.project].owner);
    KeptIsIt(q);
    forall a ensures Excess(t.ledger, t.pledges, a) == Excess(s.ledger, s.pledges, a)
                  && Committed(t.ledger, t.pledges, a) == Committed(s.ledger, s.pledges, a)
    {
      SumReplace(EscrowOf(a), s.pledges, i, Kept(q));
      SumReplace(PromisedOf(a), s.pledges, i, Kept(q));
      KeptSums(q, a);
    }
  }

  lemma KeptIsIt(q: Pledge)
    ensures forall p :: p in Kept(q) ==> p == q
  {
  }

  lemma {:induction false} DistributeAllBalanced(l: Ledger, ps: seq<Pledge>, project: ProjectId, phase: Option<int>,
                                                 owner: Account, r: Rates, round: Rounding,
                                                 projects: map<ProjectId, Project>)
    requires Solvent(l) && ValidPledges(ps, projects)
    requires DistributeAll(l, ps, project, phase, owner, r, round).Some?
    ensures var x := DistributeAll(l, ps, project, phase, owner, r, round).value;
            Solvent(x.0) && ValidPledges(x.1, projects) && Balanced(l, ps, x.0, x.1, Nothing())
    decreases |ps|
  {
    hide PaidOut, Distributed, Held, Supply, Kept, ValidPledge, Solvent;
    if ps != [] {
      var rest, p := ps[1..], ps[0];
      assert ps == [p] + rest;
      if !Selected(p, project, phase) {
        DistributeAllBalanced(l, rest, project, phase, owner, r, round, projects);
        var x := DistributeAll(l, rest, project, phase, owner, r, round).value;
        OneSums(p);
        ConsBalanced(l, p, rest, x.0, [p], x.1, l, Nothing(), Nothing(), Nothing());
      } else {
        var q := Distributed(p, r, round);
        DistributedIsValid(p, r, round);
        PaidOutEffect(l, p, q, owner);
        KeptIsIt(q);
        var m := PaidOut(l, p, q, owner).value;
        DistributeAllBalanced(m, rest, project, phase, owner, r, round, projects);
        var x := DistributeAll(m, rest, project, phase, owner, r, round).value;
        forall a ensures Sum(EscrowOf(a), Kept(q)) == EscrowOf(a)(q) && Sum(PromisedOf(a), Kept(q)) == Promised(q, a) {
          KeptSums(q, a);
        }
        ConsBalanced(l, p, rest, x.0, Kept(q), x.1, m, Nothing(), Nothing(), Nothing());
      }
    }
  }

  /** One pledge goes from `p` to `kept` while the ledger goes from `l` to `m`, and then the
      rest goes from `rest` to `more` while the ledger goes to `n`. */
  lemma ConsBalanced(l: Ledger, p: Pledge, rest: seq<Pledge>, n: Ledger, kept: seq<Pledge>, more: seq<Pledge>,
                     m: Ledger,
                     first: AssetId -> int, second: AssetId -> int, both: AssetId -> int)
    requires Balanced(m, rest, n, more, second)
    requires forall a :: && Held(m, a) - Supply(m, a)
                            == Held(l, a) - Supply(l, a) + EscrowOf(a)(p) - Sum(EscrowOf(a), kept)
                         && Supply(m, a) == Supply(l, a) + Promised(p, a) - Sum(PromisedOf(a), kept) + first(a)
    requires forall a :: both(a) == first(a) + second(a)
    ensures Balanced(l, [p] + rest, n, kept + more, both)
  {
    hide Held, Supply;
    forall a ensures Excess(n, kept + more, a) == Excess(l, [p] + rest, a)
                  && Committed(n, kept + more, a) == Committed(l, [p] + rest, a) + both(a)
    {
      assert Excess(n, more, a) == Excess(m, rest, a);
      SumConcat(EscrowOf(a), kept, more);
      SumConcat(PromisedOf(a), kept, more);
      SumConcat(EscrowOf(a), [p], rest);
      SumConcat(PromisedOf(a), [p], rest);
    }
  }

  /** The tokens of `a` that the pledges of a project wait for. */
  function PromisedBy(project: ProjectId, a: AssetId): Pledge -> int {
    (p: Pledge) => if p.project == project then Promised(p, a) else 0
  }

  function Dropped(ps: seq<Pledge>, project: ProjectId): AssetId -> int {
    (a: AssetId) => -Sum(PromisedBy(project, a), ps)
  }

  /** A refund takes the pledge off the books: its asset goes back, its tokens are dropped. */
  lemma RefundEffect(l: Ledger, p: Pledge)
    requires Solvent(l) && ValidPledge(p) && Untouched(p) && Touch(l, p.account, p.asset, p.pledged, 0).Some?
    ensures var m := Touch(l, p.account, p.asset, p.pledged, 0).value;
            && Solvent(m) && Pays(l, m, p.account, p.asset, p.pledged, 0)
            && forall a :: Supply(m, a) == Supply(l, a) && Held(m, a) == Held(l, a) + EscrowOf(a)(p)
  {
    hide Pays;
    TouchMoves(l, p.account, p.asset, p.pledged, 0);
    TouchPays(l, p.account, p.asset, p.pledged, 0);
  }

  lemma RejectOneBalanced(s: State, i: nat, web: AssetId)
    requires Valid(s, web) && RejectOne(s, i).Some?
    ensures i < |s.pledges|
    ensures var t := RejectOne(s, i).value;
            && Valid(t, web) && t.projects == s.projects
            && Balanced(s.ledger, s.pledges, t.ledger, t.pledges, (a: AssetId) => -Promised(s.pledges[i], a))
  {
    hide Touch, Held, Supply, ValidProjects, ValidPledge, Solvent, Pays;
    var t := RejectOne(s, i).value;
    RefundEffect(s.ledger, s.pledges[i]);
    forall a ensures Excess(t.ledger, t.pledges, a) == Excess(s.ledger, s.pledges, a)
                  && Committed(t.ledger, t.pledges, a) == Committed(s.ledger, s.pledges, a) - Promised(s.pledges[i], a)
    {
      SumWithout(EscrowOf(a), s.pledges, i);
      SumWithout(PromisedOf(a), s.pledges, i);
    }
  }

  lemma {:induction false} RejectAllBalanced(l: Ledger, ps: seq<Pledge>, project: ProjectId,
                                             projects: map<ProjectId, Project>)
    requires Solvent(l) && ValidPledges(ps, projects)
    requires forall p :: p in ps && p.project == project ==> Untouched(p)
    requires RejectAll(l, ps, project).Some?
    ensures var x := RejectAll(l, ps, project).value;
            Solvent(x.0) && ValidPledges(x.1, projects) && Balanced(l, ps, x.0, x.1, Dropped(ps, project))
    decreases |ps|
  {
    hide Touch, Held, Supply, ValidPledge, Solvent, Untouched, Pays;
    if ps != [] {
      var rest, p := ps[1..], ps[0];
      assert ps == [p] + rest;
      if p.project != project {
        RejectAllBalanced(l, rest, project, projects);
        var x := RejectAll(l, rest, project).value;
        OneSums(p);
        ConsBalanced(l, p, rest, x.0, [p], x.1, l, Nothing(), Dropped(rest, project), Dropped(ps, project));
      } else {
        RefundEffect(l, p);
        var m := Touch(l, p.account, p.asset, p.pledged, 0).value;
        RejectAllBalanced(m, rest, project, projects);
        var x := RejectAll(m, rest, project).value;
        ConsBalanced(l, p, rest, x.0, [], x.1, m, (a: AssetId) => -Promised(p, a), Dropped(rest, project),
                     Dropped(ps, project));
        assert [] + x.1 == x.1;
      }
    }
  }

  lemma OneSums(p: Pledge)
    ensures forall a :: Sum(EscrowOf(a), [p]) == EscrowOf(a)(p) && Sum(PromisedOf(a), [p]) == Promised(p, a)
  {
    forall a ensures Sum(EscrowOf(a), [p]) == EscrowOf(a)(p) && Sum(PromisedOf(a), [p]) == Promised(p, a) {
      SumOne(EscrowOf(a), p);
      SumOne(PromisedOf(a), p);
    }
  }

  /** What an operation reads is what the node answers: a price between the two assets. */
  ghost predicate ValidReading(op: Operation, web: AssetId) {
    op.MakePledge? && op.reading.price.Some? ==> IsWebPrice(op.reading.price.value, op.pledged.id, web)
  }

  /** The project and the pledge that a successful pledge leaves behind, and its charge. */
  ghost predicate Pledged(s: State, t: State, id: ProjectId, pledge: Pledge, account: Account, offered: Asset) {
    && id in s.projects && id in t.projects
    && var p := s.projects[id];
       && t.projects == s.projects[id := t.projects[id]]
       && t.projects[id] == p.(sold := p.sold + pledge.baseExpected + pledge.bonusExpected,
                               collected := t.projects[id].collected)
       && t.projects[id].sold <= p.maxSupply && t.projects[id].sold <= p.phaseLimit
       && t.pledges == s.pledges + [pledge]
       && Untouched(pledge) && ValidPledge(pledge)
       && pledge.account == account && pledge.project == id && pledge.phase == p.phase
       && pledge.token == p.token && pledge.asset == offered.id && pledge.pledged <= offered.amount
       && Sum(PreviousOf(account, id, p.phase), t.pledges) <= p.maxPledge
       && Moves(s.ledger, t.ledger, offered.id, -pledge.pledged)
       && Pays(s.ledger, t.ledger, account, offered.id, -pledge.pledged, 0)
  }

  lemma PledgeEffect(s: State, op: Operation, web: AssetId)
    requires op.MakePledge? && Valid(s, web) && ValidReading(op, web) && MakePledgeStep(s, op).Some?
    ensures var t := MakePledgeStep(s, op).value;
            && t.pledges != [] && Solvent(t.ledger)
            && Pledged(s, t, op.project, t.pledges[|t.pledges| - 1], op.account, op.pledged)
  {
    hide Evaluate, Times, Touch, Held, PrecisionModifier, ValidPledges, Between, IsWebPrice, Pays;
    var p := s.projects[op.project];
    var previous := Sum(PreviousOf(op.account, op.project, p.phase), s.pledges);
    var precision := PrecisionModifier(op.reading.decimals, op.reading.webDecimals);
    var tokenPrecision := PrecisionModifier(op.reading.tokenDecimals, op.reading.webDecimals);
    TermsAreGood(p, op.pledged, op.reading.price.value, previous, precision, tokenPrecision, web);
    var terms := Evaluate(p, op.pledged, op.reading.price.value, previous, precision, tokenPrecision).value;
    TouchMoves(s.ledger, op.account, op.pledged.id, -terms.take.amount, 0);
    TouchPays(s.ledger, op.account, op.pledged.id, -terms.take.amount, 0);
    var t := MakePledgeStep(s, op).value;
    SumAppend(PreviousOf(op.account, op.project, p.phase), s.pledges, t.pledges[|s.pledges|]);
  }

  /** The account has a balance for the pledge, and the phase has not ended. */
  predicate MayPledge(s: State, op: Operation)
    requires op.MakePledge?
  {
    && op.project in s.projects && op.reading.price.Some?
    && Find(s.ledger.balances, op.account, op.pledged.id).Some?
    && op.pledged.amount <= GetBalance(s.ledger, op.account, op.pledged.id)
    && (s.projects[op.project].phaseEnd.Some? ==> op.reading.now < s.projects[op.project].phaseEnd.value)
  }

  /** When a pledge is accepted: the terms are, and what it takes can be valued. */
  lemma PledgeAcceptedExactly(s: State, op: Operation)
    requires op.MakePledge?
    ensures MakePledgeStep(s, op).Some? <==>
            && MayPledge(s, op)
            && var p := s.projects[op.project];
            && var terms := Evaluate(p, op.pledged, op.reading.price.value,
                                     Sum(PreviousOf(op.account, op.project, p.phase), s.pledges),
                                     PrecisionModifier(op.reading.decimals, op.reading.webDecimals),
                                     PrecisionModifier(op.reading.tokenDecimals, op.reading.webDecimals));
               terms.Some? && Times(terms.value.take, op.reading.price.value).Some?
  {
    hide Evaluate, Times, PrecisionModifier, Sum;
  }

  /** What a pledge costs.  One that is not cut takes all that was offered; the project has
      collected the value of what was taken. */
  lemma PledgeTakes(s: State, op: Operation, web: AssetId)
    requires op.MakePledge? && Valid(s, web) && ValidReading(op, web) && MakePledgeStep(s, op).Some?
    ensures op.project in s.projects && op.pledged.id in s.projects[op.project].discounts && op.reading.price.Some?
    ensures var t, p := MakePledgeStep(s, op).value, s.projects[op.project];
            && t.pledges != [] && op.project in t.projects
            && var pledge, asked := t.pledges[|t.pledges| - 1], Asked(p, op.pledged, op.reading);
            && Pays(s.ledger, t.ledger, op.account, op.pledged.id, -pledge.pledged, 0)
            && (asked <= Available(p) ==>
                  pledge.pledged == op.pledged.amount && pledge.baseExpected + pledge.bonusExpected == asked)
            && (asked > Available(p) ==>
                  && pledge.baseExpected == Available(p) * p.discounts[op.pledged.id] / 100
                  && pledge.baseExpected + pledge.bonusExpected == Available(p))
            && Times(Asset(pledge.pledged, pledge.asset), op.reading.price.value)
               == Some(Asset(t.projects[op.project].collected - p.collected, CounterAsset(op)))
  {
    hide Evaluate, Times, Touch, Held, PrecisionModifier, Between, IsWebPrice, Pays, Sum, Convert, Valid, ValidReading;
    PledgeEffect(s, op, web);
    var p, price := s.projects[op.project], op.reading.price.value;
    var previous := Sum(PreviousOf(op.account, op.project, p.phase), s.pledges);
    TermsExactly(p, op.pledged, price, previous, PrecisionModifier(op.reading.decimals, op.reading.webDecimals),
                 PrecisionModifier(op.reading.tokenDecimals, op.reading.webDecimals));
    ValuedIn(op, Evaluate(p, op.pledged, price, previous,
                          PrecisionModifier(op.reading.decimals, op.reading.webDecimals),
                          PrecisionModifier(op.reading.tokenDecimals, op.reading.webDecimals)).value.take);
  }

  /** The other asset of the price that a pledge is read with. */
  function CounterAsset(op: Operation): AssetId
    requires op.MakePledge? && op.reading.price.Some?
  {
    var p := op.reading.price.value;
    if op.pledged.id == p.baseAsset then p.quoteAsset else p.baseAsset
  }

  lemma ValuedIn(op: Operation, take: Asset)
    requires op.MakePledge? && op.reading.price.Some? && take.id == op.pledged.id
    requires Times(take, op.reading.price.value).Some?
    ensures Times(take, op.reading.price.value).value.id == CounterAsset(op)
  {
  }

  lemma PledgeIsValid(s: State, op: Operation, web: AssetId)
    requires op.MakePledge? && Valid(s, web) && ValidReading(op, web) && MakePledgeStep(s, op).Some?
    ensures Valid(MakePledgeStep(s, op).value, web)
    ensures MakePledgeStep(s, op).value.projects.Keys == s.projects.Keys
  {
    hide MakePledgeStep, Moves, Solvent, Between, Sum, Pays;
    PledgeEffect(s, op, web);
  }

  lemma PledgeBalanced(s: State, op: Operation, web: AssetId)
    requires op.MakePledge? && Valid(s, web) && ValidReading(op, web) && MakePledgeStep(s, op).Some?
    ensures var t := MakePledgeStep(s, op).value;
            t.pledges != [] && Balanced(s.ledger, s.pledges, t.ledger, t.pledges, TokensOf(t.pledges[|t.pledges| - 1]))
  {
    hide MakePledgeStep, Held, Valid, ValidReading, ValidPledge, Pays;
    PledgeEffect(s, op, web);
    var t := MakePledgeStep(s, op).value;
    var pledge := t.pledges[|t.pledges| - 1];
    forall a ensures Excess(t.ledger, t.pledges, a) == Excess(s.ledger, s.pledges, a)
                  && Committed(t.ledger, t.pledges, a) == Committed(s.ledger, s.pledges, a) + TokensOf(pledge)(a)
    {
      SumAppend(EscrowOf(a), s.pledges, pledge);
      SumAppend(PromisedOf(a), s.pledges, pledge);
    }
  }

  /** An update touches neither the token nor the number sold, and keeps the project valid. */
  lemma UpdateKeeps(s: State, id: ProjectId, u: Update, web: AssetId)
    requires Valid(s, web) && UpdateStep(s, id, u, web).Some?
    ensures var t := UpdateStep(s, id, u, web).value;
            && Valid(t, web) && t.projects.Keys == s.projects.Keys && t.ledger == s.ledger && t.pledges == s.pledges
            && forall i :: i in s.projects ==>
                 t.projects[i].sold == s.projects[i].sold && t.projects[i].token == s.projects[i].token
  {
    hide Between, ValidPledge, Solvent;
  }

  /** The tokens of `a` an operation drops, by rejecting pledges. */
  function Rejected(s: State, op: Operation, a: AssetId): int {
    match op
    case RejectPledge(i) => if i < |s.pledges| then Promised(s.pledges[i], a) else 0
    case RejectProject(id) => Sum(PromisedBy(id, a), s.pledges)
    case _ => 0
  }

  /** What one step keeps: every asset is conserved, and for every project the tokens
      committed follow the tokens sold, less the rejected. */
  ghost predicate StepBalances(s: State, t: State, op: Operation) {
    && t.projects.Keys == s.projects.Keys
    && (forall a :: Excess(t.ledger, t.pledges, a) == Excess(s.ledger, s.pledges, a))
    && forall id :: id in s.projects ==>
         var token := s.projects[id].token;
         && t.projects[id].token == token
         && Committed(t.ledger, t.pledges, token) - t.projects[id].sold
            == Committed(s.ledger, s.pledges, token) - s.projects[id].sold - Rejected(s, op, token)
  }

  lemma PledgeBalances(s: State, op: Operation, web: AssetId)
    requires op.MakePledge? && Valid(s, web) && ValidReading(op, web) && MakePledgeStep(s, op).Some?
    ensures Valid(MakePledgeStep(s, op).value, web) && StepBalances(s, MakePledgeStep(s, op).value, op)
  {
    hide MakePledgeStep, ValidProject, ValidPledges, Solvent, Excess, Committed, Pays;
    PledgeIsValid(s, op, web);
    PledgeBalanced(s, op, web);
    PledgeEffect(s, op, web);
    var t := MakePledgeStep(s, op).value;
    var pledge := t.pledges[|t.pledges| - 1];
    forall id | id in s.projects
      ensures TokensOf(pledge)(s.projects[id].token) == t.projects[id].sold - s.projects[id].sold
    {
      if id != op.project {
        assert s.projects[id].token != s.projects[op.project].token;
      }
    }
  }

  lemma StepKeeps(s: State, op: Operation, web: AssetId, round: Rounding)
    requires Valid(s, web) && ValidReading(op, web) && Step(s, op, web, round).Some?
    ensures var t := Step(s, op, web, round).value;
            Valid(t, web) && StepBalances(s, t, op)
  {
    hide MakePledgeStep, UpdateStep, DistributeOne, DistributeAll, RejectOne, RejectAll, ValidProject, ValidPledge,
      Solvent, Excess, Committed;
    match op
    case MakePledge(_, _, _, _) => PledgeBalances(s, op, web);
    case UpdateProject(id, update) => UpdateKeeps(s, id, update, web);
    case DistributePledge(i, rates) => DistributeOneBalanced(s, i, rates, round, web);
    case DistributeProject(id, phase, rates) =>
      DistributeAllBalanced(s.ledger, s.pledges, id, phase, s.projects[id].owner, rates, round, s.projects);
    case RejectPledge(i) => RejectOneBalanced(s, i, web);
    case RejectProject(id) => RejectAllBalanced(s.ledger, s.pledges, id, s.projects);
  }

  /** Run operations in order; a refused operation changes nothing. */
  function Run(s: State, ops: seq<Operation>, web: AssetId, round: Rounding): State
    decreases |ops|
  {
    if ops == [] then s
    else
      var r := Step(s, ops[0], web, round);
      Run(if r.Some? then r.value else s, ops[1..], web, round)
  }

  /** The tokens of `a` that a run drops by rejecting pledges. */
  function RejectedInRun(s: State, ops: seq<Operation>, web: AssetId, round: Rounding, a: AssetId): int
    decreases |ops|
  {
    if ops == [] then 0
    else
      var r := Step(s, ops[0], web, round);
      if r.None? then RejectedInRun(s, ops[1..], web, round, a)
      else Rejected(s, ops[0], a) + RejectedInRun(r.value, ops[1..], web, round, a)
  }

  ghost predicate RunBalances(s: State, t: State, ops: seq<Operation>, web: AssetId, round: Rounding) {
    && t.projects.Keys == s.projects.Keys
    && (forall a :: Excess(t.ledger, t.pledges, a) == Excess(s.ledger, s.pledges, a))
    && forall id :: id in s.projects ==>
         var token := s.projects[id].token;
         && t.projects[id].token == token
         && Committed(t.ledger, t.pledges, token) - t.projects[id].sold
            == Committed(s.ledger, s.pledges, token) - s.projects[id].sold - RejectedInRun(s, ops, web, round, token)
  }

  /** Over every run no asset is made or lost, no project sells more than its supply, and
      for every project tokens issued, promised and rejected add up to the tokens sold. */
  lemma {:induction false} RunKeeps(s: State, ops: seq<Operation>, web: AssetId, round: Rounding)
    requires Valid(s, web) && forall op :: op in ops ==> ValidReading(op, web)
    ensures Valid(Run(s, ops, web, round), web)
    ensures RunBalances(s, Run(s, ops, web, round), ops, web, round)
    decreases |ops|
  {
    hide Step, Valid, Excess, Committed, Rejected, ValidReading;
    if ops != [] {
      var r := Step(s, ops[0], web, round);
      if r.Some? {
        StepKeeps(s, ops[0], web, round);
        RunKeeps(r.value, ops[1..], web, round);
      } else {
        RunKeeps(s, ops[1..], web, round);
      }
    }
  }

  lemma RejectedIsPositive(s: State, op: Operation, web: AssetId, a: AssetId)
    requires Valid(s, web)
    ensures Rejected(s, op, a) >= 0
  {
    hide Solvent, ValidProjects;
    if op.RejectProject? {
      var f := PromisedBy(op.project, a);
      forall p | p in s.pledges ensures f(p) >= 0 {
        assert ValidPledge(p);
      }
      SumNonNegative(f, s.pledges);
    } else if op.RejectPledge? && op.index < |s.pledges| {
      assert ValidPledge(s.pledges[op.index]);
    }
  }

  lemma {:induction false} RejectedIsNatural(s: State, ops: seq<Operation>, web: AssetId, round: Rounding, a: AssetId)
    requires Valid(s, web) && forall op :: op in ops ==> ValidReading(op, web)
    ensures RejectedInRun(s, ops, web, round, a) >= 0
    decreases |ops|
  {
    hide Step, ValidReading, Valid, Rejected;
    if ops != [] {
      var r := Step(s, ops[0], web, round);
      if r.Some? {
        StepKeeps(s, ops[0], web, round);
        RejectedIsPositive(s, ops[0], web, a);
        RejectedIsNatural(r.value, ops[1..], web, round, a);
      } else {
        RejectedIsNatural(s, ops[1..], web, round, a);
      }
    }
  }

  /** A sale that starts with nothing sold never issues and promises more than the maximum
      supply of its token, however pledges are distributed and rejected. */
  lemma NeverOversold(s: State, ops: seq<Operation>, web: AssetId, round: Rounding, id: ProjectId)
    requires Valid(s, web) && forall op :: op in ops ==> ValidReading(op, web)
    requires id in s.projects && s.projects[id].sold == 0 && s.pledges == []
    ensures var t := Run(s, ops, web, round);
            var token := s.projects[id].token;
            && id in t.projects && 0 <= t.projects[id].sold <= t.projects[id].maxSupply
            && 0 <= Supply(t.ledger, token) - Supply(s.ledger, token) + Sum(PromisedOf(token), t.pledges)
               + RejectedInRun(s, ops, web, round, token) == t.projects[id].sold
            && Supply(t.ledger, token) + Sum(PromisedOf(token), t.pledges)
               <= Supply(s.ledger, token) + t.projects[id].maxSupply
            && Sum(PromisedOf(token), t.pledges) >= 0
  {
    hide Run, RejectedInRun, ValidReading;
    var token := s.projects[id].token;
    RunKeeps(s, ops, web, round);
    RejectedIsNatural(s, ops, web, round, token);
    var t := Run(s, ops, web, round);
    SumNonNegative(PromisedOf(token), t.pledges);
    assert Sum(PromisedOf(token), s.pledges) == 0;
  }

  /** The tokens a pledge asks for: its value at the token price, before the discount. */
  function Asked(p: Project, pledged: Asset, reading: Reading): int {
    if pledged.id !in p.discounts || p.discounts[pledged.id] <= 0 || reading.price.None? then 0
    else match Convert(pledged, PrecisionModifier(reading.decimals, reading.webDecimals), reading.price.value,
                       p.tokenPrice)
      case None => 0
      case Some(base) => base.amount * BONUS_PRECISION / p.discounts[pledged.id]
  }

  lemma TermsSell(p: Project, pledged: Asset, reading: Reading, previous: int, web: AssetId)
    requires ValidProject(p, web) && reading.price.Some? && IsWebPrice(reading.price.value, pledged.id, web)
    requires Evaluate(p, pledged, reading.price.value, previous,
                      PrecisionModifier(reading.decimals, reading.webDecimals),
                      PrecisionModifier(reading.tokenDecimals, reading.webDecimals)).Some?
    ensures var t := Evaluate(p, pledged, reading.price.value, previous,
                              PrecisionModifier(reading.decimals, reading.webDecimals),
                              PrecisionModifier(reading.tokenDecimals, reading.webDecimals)).value;
            t.base + t.bonus == Min(Asked(p, pledged, reading), Available(p))
  {
    hide Rounded, Between, PrecisionModifier;
    CutIsMin(Asked(p, pledged, reading), p);
  }

  /** An accepted pledge commits what it asks for, or what is left to sell if that is less. */
  lemma PledgeCommits(s: State, op: Operation, web: AssetId)
    requires op.MakePledge? && Valid(s, web) && ValidReading(op, web) && MakePledgeStep(s, op).Some?
    ensures op.project in s.projects
    ensures var t, p := MakePledgeStep(s, op).value, s.projects[op.project];
            && op.project in t.projects && t.projects[op.project].maxSupply == p.maxSupply
            && Committed(t.ledger, t.pledges, p.token)
               == Committed(s.ledger, s.pledges, p.token) + Min(Asked(p, op.pledged, op.reading), Available(p))
  {
    hide Evaluate, Times, Touch, Held, PrecisionModifier, ValidPledges, Between, IsWebPrice, Sum, Asked;
    var p := s.projects[op.project];
    TermsSell(p, op.pledged, op.reading, Sum(PreviousOf(op.account, op.project, p.phase), s.pledges), web);
    PledgeBalances(s, op, web);
  }

  /** Which operation takes a token past its maximum: exactly an accepted pledge for it that
      commits more than the issued and promised units leave room for, whoever issued those.
      If it sells all there is to sell, it does exactly if more was committed than sold. */
  lemma PassesMaximumExactly(s: State, op: Operation, web: AssetId, round: Rounding, id: ProjectId)
    requires Valid(s, web) && ValidReading(op, web) && id in s.projects && Step(s, op, web, round).Some?
    ensures var t, p := Step(s, op, web, round).value, s.projects[id];
            var before, after := Committed(s.ledger, s.pledges, p.token), Committed(t.ledger, t.pledges, p.token);
            && id in t.projects && t.projects[id].maxSupply == p.maxSupply
            && (op.MakePledge? && op.project == id ==>
                  after == before + Min(Asked(p, op.pledged, op.reading), Available(p)))
            && (!(op.MakePledge? && op.project == id) ==> after <= before)
            && (before <= p.maxSupply < after <==>
                && before <= p.maxSupply && op.MakePledge? && op.project == id
                && p.maxSupply < before + Min(Asked(p, op.pledged, op.reading), Available(p)))
            && (p.sold < t.projects[id].sold == p.maxSupply ==> (p.maxSupply < after <==> p.sold < before))
  {
    hide MakePledgeStep, UpdateStep, DistributeOne, DistributeAll, RejectOne, RejectAll, Valid, ValidReading,
      Committed, Rejected, Asked, Excess;
    var t, p := Step(s, op, web, round).value, s.projects[id];
    StepKeeps(s, op, web, round);
    SoldOnlyByPledge(s, op, web, round, id);
    RejectedIsPositive(s, op, web, p.token);
    if op.MakePledge? && op.project == id {
      PledgeCommits(s, op, web);
      assert Rejected(s, op, p.token) == 0 by { PledgesRejectNothing(s, op, p.token); }
    }
  }

  lemma PledgesRejectNothing(s: State, op: Operation, a: AssetId)
    requires op.MakePledge?
    ensures Rejected(s, op, a) == 0
  {
  }

  /** Only an accepted pledge for a project adds to what it has sold. */
  lemma SoldOnlyByPledge(s: State, op: Operation, web: AssetId, round: Rounding, id: ProjectId)
    requires Valid(s, web) && ValidReading(op, web) && id in s.projects && Step(s, op, web, round).Some?
    ensures var t := Step(s, op, web, round).value;
            && id in t.projects && t.projects[id].maxSupply == s.projects[id].maxSupply
            && (!(op.MakePledge? && op.project == id) ==> t.projects[id].sold == s.projects[id].sold)
  {
    hide MakePledgeStep, DistributeOne, DistributeAll, RejectOne, RejectAll, ValidPledges, ValidReading, Solvent;
    if op.MakePledge? {
      PledgeEffect(s, op, web);
    } else if op.DistributePledge? {
      DistributeOneBalanced(s, op.index, op.rates, round, web);
    } else if op.RejectPledge? {
      RejectOneBalanced(s, op.index, web);
    }
  }

  /** If at the start no more is issued and promised than was sold, no run passes the maximum. */
  lemma StaysWithinMaximum(s: State, ops: seq<Operation>, web: AssetId, round: Rounding, id: ProjectId)
    requires Valid(s, web) && (forall op :: op in ops ==> ValidReading(op, web)) && id in s.projects
    requires Committed(s.ledger, s.pledges, s.projects[id].token) <= s.projects[id].sold
    ensures var t := Run(s, ops, web, round);
            id in t.projects && Committed(t.ledger, t.pledges, s.projects[id].token) <= t.projects[id].maxSupply
  {
    hide Run, RejectedInRun, ValidReading, Committed, Solvent, ValidPledges;
    RunKeeps(s, ops, web, round);
    RejectedIsNatural(s, ops, web, round, s.projects[id].token);
  }

  const SALE := Project(1, 9, 1, map[2 := 100], 0, 10, Price(1, 3, 1, 9), 0, 0, true, 0, 1, None)

  const HOLDINGS := Ledger([Balance(5, 2, 1, 0), Balance(6, 9, 1, 0)],
                           map[9 := AssetData(1, 0, false, 0, 0), 2 := AssetData(1, 0, false, 0, 0)])

  const BUY := MakePledge(5, 0, Asset(1, 2), Reading(Some(Price(1, 2, 1, 3)), 0, 0, 0, 0))

  lemma SaleTerms()
    ensures Evaluate(SALE, Asset(1, 2), Price(1, 2, 1, 3), 0, 1, 1) == Some(Terms(1, 0, Asset(1, 2)))
    ensures Times(Asset(1, 2), Price(1, 2, 1, 3)) == Some(Asset(1, 3))
  {
    assert Rounded(1, 1, 1, 1, 1, 1) == 1;
  }

  lemma HoldingsFound()
    ensures Find(HOLDINGS.balances, 5, 2) == Some(0)
  {
  }

  lemma SaleIsValid()
    ensures Valid(State(HOLDINGS, map[0 := SALE], []), 3) && ValidReading(BUY, 3)
  {
  }

  /** One unit of a token with a maximum of one exists, and the sale sells another. */
  lemma MayPassMaximum(round: Rounding)
    ensures var s := State(HOLDINGS, map[0 := SALE], []);
            && Valid(s, 3) && ValidReading(BUY, 3)
            && Step(s, BUY, 3, round).Some?
            && var t := Step(s, BUY, 3, round).value;
               0 in t.projects && Committed(t.ledger, t.pledges, 9) == 2 > t.projects[0].maxSupply
  {
    hide Evaluate, Times, Find, Valid, ValidReading;
    var s := State(HOLDINGS, map[0 := SALE], []);
    SaleIsValid();
    SaleTerms();
    HoldingsFound();
    var t := Step(s, BUY, 3, round).value;
    var pledge := Pledge(5, 0, 2, 9, 1, 1, 1, 1, 0, 0, 0);
    assert t.pledges == [pledge];
    SumOne(PromisedOf(9), pledge);
  }

  const BIG_SALE := SALE.(maxSupply := 2, phaseLimit := 2)

  const LOWER := UpdateProject(0, Update(None, None, None, None, None, None, None, Some(0), None))

  lemma BigSaleTerms()
    ensures Evaluate(BIG_SALE, Asset(1, 2), Price(1, 2, 1, 3), 0, 1, 1) == Some(Terms(1, 0, Asset(1, 2)))
  {
    assert Rounded(1, 1, 1, 1, 1, 1) == 1;
  }

  lemma BigSaleSells()
    ensures var s := State(HOLDINGS, map[0 := BIG_SALE], []);
            && MakePledgeStep(s, BUY).Some?
            && MakePledgeStep(s, BUY).value.projects == map[0 := BIG_SALE.(sold := 1, collected := 1)]
  {
    hide Evaluate, Times, Find;
    SaleTerms();
    BigSaleTerms();
    HoldingsFound();
    assert map[0 := BIG_SALE][0 := BIG_SALE.(sold := 1, collected := 1)]
      == map[0 := BIG_SALE.(sold := 1, collected := 1)];
  }

  lemma BigSaleIsValid()
    ensures Valid(State(HOLDINGS, map[0 := BIG_SALE], []), 3) && ValidReading(BUY, 3)
  {
  }

  /** After a pledge for one of two tokens the limit of the phase is lowered to none. */
  lemma MayUndercut(round: Rounding)
    ensures var s := State(HOLDINGS, map[0 := BIG_SALE], []);
            && Valid(s, 3) && ValidReading(BUY, 3)
            && var t := Run(s, [BUY, LOWER], 3, round);
               0 in t.projects && t.projects[0].phaseLimit == 0 < 1 == t.projects[0].sold
  {
    hide MakePledgeStep, Valid, ValidReading;
    BigSaleIsValid();
    BigSaleSells();
    var s := State(HOLDINGS, map[0 := BIG_SALE], []);
    var t := Step(s, BUY, 3, round).value;
    assert [BUY, LOWER][1..] == [LOWER] && [LOWER][1..] == [];
    assert Run(t, [LOWER], 3, round) == Step(t, LOWER, 3, round).value;
  }

  /** If rounding at the full rate does not lose anything, a distribution at the full rates
      pays out all that remains and removes the pledge. */
  lemma FullDistribution(s: State, i: nat, round: Rounding, web: AssetId)
    requires Valid(s, web) && i < |s.pledges|
    requires forall x :: 0 <= x ==> round(x, 10_000) >= x
    requires DistributeOne(s, i, Rates(10_000, 10_000, 10_000), round).Some?
    ensures DistributeOne(s, i, Rates(10_000, 10_000, 10_000), round).value.pledges
            == s.pledges[..i] + s.pledges[i + 1..]
  {
    hide PaidOut;
    var q := Distributed(s.pledges[i], Rates(10_000, 10_000, 10_000), round);
    assert q.pledgeRemaining == 0 && q.baseRemaining == 0 && q.bonusRemaining == 0;
    assert s.pledges[..i] + [] + s.pledges[i + 1..] == s.pledges[..i] + s.pledges[i + 1..];
  }

  /** Lowering the limit of a phase below what is sold is refused exactly if the limit is
      not at the maximum supply; so the number sold can come to exceed the limit. */
  lemma UpdateUndercutsExactly(s: State, id: ProjectId, limit: int, web: AssetId)
    requires Valid(s, web) && id in s.projects && s.projects[id].sold <= s.projects[id].phaseLimit
    ensures var u := Update(None, None, None, None, None, None, None, Some(limit), None);
            var p := s.projects[id];
            var r := UpdateStep(s, id, u, web);
            && (r.Some? && r.value.projects[id].sold > r.value.projects[id].phaseLimit
                <==> limit < p.sold && p.phaseLimit == p.maxSupply)
            && (r.None? <==> limit > p.maxSupply || (limit < p.sold && p.phaseLimit != p.maxSupply))
  {
  }
}
