/** Who is paid what by the distributions and rejections of a crowd sale, and which operations
    are refused. */
module Das33Payments {
  import opened Wrappers
  import opened Sums
  import opened Ledger
  import opened Prices
  import opened PledgeTerms
  import opened Das33
  import opened Das33Accounting

  /** `paid` is the rounded share, or all that remains if that is less. */
  predicate IsShare(paid: int, share: int, remaining: int) {
    (paid == share && share <= remaining) || (paid == remaining && remaining < share)
  }

  /** The escrow rate moves the pledged asset, the base rate the base tokens and the bonus rate
      the bonus tokens; nothing else of a pledge changes. */
  lemma RatesMoveTheirParts(p: Pledge, r: Rates, round: Rounding)
    ensures var q := Distributed(p, r, round);
            && q == p.(pledgeRemaining := q.pledgeRemaining, baseRemaining := q.baseRemaining,
                       bonusRemaining := q.bonusRemaining)
            && IsShare(p.pledgeRemaining - q.pledgeRemaining, round(p.pledged, r.toEscrow), p.pledgeRemaining)
            && IsShare(p.baseRemaining - q.baseRemaining, round(p.baseExpected, r.baseToPledger), p.baseRemaining)
            && IsShare(p.bonusRemaining - q.bonusRemaining, round(p.bonusExpected, r.bonusToPledger), p.bonusRemaining)
  {
  }

  /** What account `o` gets of asset `a` when `p` goes to `q`. */
  function Gets(o: Account, a: AssetId, p: Pledge, q: Pledge, owner: Account): int {
    (if o == owner && a == p.asset then p.pledgeRemaining - q.pledgeRemaining else 0)
    + (if o == p.account && a == p.token
       then p.baseRemaining - q.baseRemaining + p.bonusRemaining - q.bonusRemaining else 0)
  }

  /** Distributing one pledge pays the owner of its project and the pledger, and keeps the
      pledge in its place as long as something remains of it. */
  lemma DistributeOnePays(s: State, i: nat, r: Rates, round: Rounding)
    requires DistributeOne(s, i, r, round).Some?
    ensures i < |s.pledges| && s.pledges[i].project in s.projects
    ensures var t, p := DistributeOne(s, i, r, round).value, s.pledges[i];
            var q := Distributed(p, r, round);
            && t.projects == s.projects
            && (forall o, a :: Owned(t.ledger, o, a)
                               == Owned(s.ledger, o, a) + Gets(o, a, p, q, s.projects[p.project].owner))
            && (q.pledgeRemaining + q.baseRemaining + q.bonusRemaining > 0 ==> t.pledges == s.pledges[i := q])
            && (q.pledgeRemaining + q.baseRemaining + q.bonusRemaining <= 0 ==>
                  t.pledges == s.pledges[..i] + s.pledges[i + 1..])
  {
    hide PaidOut, Distributed, Owned;
    var p := s.pledges[i];
    var q := Distributed(p, r, round);
    PaidOutPays(s.ledger, p, q, s.projects[p.project].owner);
    assert s.pledges[..i] + [q] + s.pledges[i + 1..] == s.pledges[i := q];
    assert s.pledges[..i] + [] + s.pledges[i + 1..] == s.pledges[..i] + s.pledges[i + 1..];
  }

  /** A distribution of one pledge is refused exactly if there is no such pledge or project, or
      tokens would have to be issued that do not exist as an asset. */
  lemma DistributeOneAcceptedExactly(s: State, i: nat, r: Rates, round: Rounding, web: AssetId)
    requires Valid(s, web)
    ensures DistributeOne(s, i, r, round).Some? <==>
            && i < |s.pledges| && s.pledges[i].project in s.projects
            && var p := s.pledges[i];
               var q := Distributed(p, r, round);
               p.baseRemaining + p.bonusRemaining == q.baseRemaining + q.bonusRemaining || p.token in s.ledger.assets
  {
    hide Distributed;
    if i < |s.pledges| && s.pledges[i].project in s.projects {
      var p := s.pledges[i];
      var q := Distributed(p, r, round);
      DistributedIsValid(p, r, round);
      var owner := s.projects[p.project].owner;
      assert Adjust(s.ledger, owner, p.asset, p.pledgeRemaining - q.pledgeRemaining, 0).Some?;
      var m := Adjust(s.ledger, owner, p.asset, p.pledgeRemaining - q.pledgeRemaining, 0).value;
      AdjustMoves(s.ledger, owner, p.asset, p.pledgeRemaining - q.pledgeRemaining, 0);
      OpenedHas(m, p.account, p.token);
    }
  }

  lemma OpenedHas(l: Ledger, owner: Account, asset: AssetId)
    ensures Find(Opened(l, owner, asset).balances, owner, asset).Some? && Opened(l, owner, asset).assets == l.assets
  {
    var m := Opened(l, owner, asset);
    assert Find(l.balances, owner, asset).None? ==> m.balances[|l.balances|] in m.balances;
  }

  /** What account `o` gets of asset `a` for a pledge, if it is one of the project, and of the
      phase if one is named. */
  function GetsFor(o: Account, a: AssetId, project: ProjectId, phase: Option<int>, owner: Account,
                   r: Rates, round: Rounding): Pledge -> int
  {
    (p: Pledge) =>
      if p.project == project && (phase == None || phase == Some(p.phase))
      then Gets(o, a, p, Distributed(p, r, round), owner) else 0
  }

  /** The pledges after a distribution: the selected ones reduced, and gone if nothing remains. */
  function Left(ps: seq<Pledge>, project: ProjectId, phase: Option<int>, r: Rates, round: Rounding): seq<Pledge> {
    if ps == [] then []
    else
      var p, q, rest := ps[0], Distributed(ps[0], r, round), Left(ps[1..], project, phase, r, round);
      if p.project != project || (phase != None && phase != Some(p.phase)) then [p] + rest
      else if q.pledgeRemaining + q.baseRemaining + q.bonusRemaining <= 0 then rest
      else [q] + rest
  }

  /** A distribution over a project pays its owner and the pledgers of the selected pledges. */
  lemma {:induction false} DistributeAllPays(l: Ledger, ps: seq<Pledge>, project: ProjectId, phase: Option<int>,
                                             owner: Account, r: Rates, round: Rounding)
    requires DistributeAll(l, ps, project, phase, owner, r, round).Some?
    ensures var (m, qs) := DistributeAll(l, ps, project, phase, owner, r, round).value;
            && qs == Left(ps, project, phase, r, round)
            && forall o, a :: Owned(m, o, a)
                              == Owned(l, o, a) + Sum(GetsFor(o, a, project, phase, owner, r, round), ps)
    decreases |ps|
  {
    hide PaidOut, Distributed, Owned, Gets;
    if ps != [] {
      var p := ps[0];
      if !Selected(p, project, phase) {
        DistributeAllPays(l, ps[1..], project, phase, owner, r, round);
      } else {
        var q := Distributed(p, r, round);
        var m := PaidOut(l, p, q, owner).value;
        assert forall o, a :: Owned(m, o, a) == Owned(l, o, a) + Gets(o, a, p, q, owner) by {
          PaidOutGets(l, p, q, owner);
        }
        DistributeAllPays(m, ps[1..], project, phase, owner, r, round);
      }
    }
  }

  lemma PaidOutGets(l: Ledger, p: Pledge, q: Pledge, owner: Account)
    requires PaidOut(l, p, q, owner).Some?
    ensures forall o, a :: Owned(PaidOut(l, p, q, owner).value, o, a) == Owned(l, o, a) + Gets(o, a, p, q, owner)
  {
    hide PaidOut, Owned;
    PaidOutPays(l, p, q, owner);
  }

  /** A pledge is untouched exactly if all it holds and expects remains. */
  lemma UntouchedMeans(p: Pledge)
    requires ValidPledge(p)
    ensures Untouched(p) <==>
            p.pledgeRemaining + p.baseRemaining + p.bonusRemaining == p.pledged + p.baseExpected + p.bonusExpected
  {
  }

  /** Rejecting a pledge that nothing was distributed of gives the pledger back what it pledged. */
  lemma RejectOnePays(s: State, i: nat)
    ensures RejectOne(s, i).Some? <==>
            && i < |s.pledges| && s.pledges[i].project in s.projects && Untouched(s.pledges[i])
            && Find(s.ledger.balances, s.pledges[i].account, s.pledges[i].asset).Some?
    ensures RejectOne(s, i).Some? ==>
            var t, p := RejectOne(s, i).value, s.pledges[i];
            && t.projects == s.projects && t.pledges == s.pledges[..i] + s.pledges[i + 1..]
            && Pays(s.ledger, t.ledger, p.account, p.asset, p.pledged, 0)
  {
    hide Pays, Find;
    if RejectOne(s, i).Some? {
      TouchPays(s.ledger, s.pledges[i].account, s.pledges[i].asset, s.pledges[i].pledged, 0);
    }
  }

  /** What a rejection of a project gives back. */
  function Refund(o: Account, a: AssetId, project: ProjectId): Pledge -> int {
    (p: Pledge) => if p.project == project && o == p.account && a == p.asset then p.pledged else 0
  }

  function Others(ps: seq<Pledge>, project: ProjectId): seq<Pledge> {
    if ps == [] then []
    else (if ps[0].project == project then [] else [ps[0]]) + Others(ps[1..], project)
  }

  lemma {:induction false} RejectAllPays(l: Ledger, ps: seq<Pledge>, project: ProjectId)
    requires RejectAll(l, ps, project).Some?
    ensures var (m, qs) := RejectAll(l, ps, project).value;
            && qs == Others(ps, project)
            && forall o, a :: Owned(m, o, a) == Owned(l, o, a) + Sum(Refund(o, a, project), ps)
    decreases |ps|
  {
    hide Owned, Touch;
    if ps != [] {
      var p := ps[0];
      if p.project != project {
        RejectAllPays(l, ps[1..], project);
      } else {
        TouchPays(l, p.account, p.asset, p.pledged, 0);
        var m := Touch(l, p.account, p.asset, p.pledged, 0).value;
        RejectAllPays(m, ps[1..], project);
      }
    }
  }

  /** A project is rejected as a whole only if nothing of it was distributed. */
  lemma RejectProjectPays(s: State, id: ProjectId, web: AssetId, round: Rounding)
    requires Step(s, RejectProject(id), web, round).Some?
    ensures id in s.projects && forall p :: p in s.pledges && p.project == id ==> Untouched(p)
    ensures var t := Step(s, RejectProject(id), web, round).value;
            && t.projects == s.projects && t.pledges == Others(s.pledges, id)
            && forall o, a :: Owned(t.ledger, o, a) == Owned(s.ledger, o, a) + Sum(Refund(o, a, id), s.pledges)
  {
    hide RejectAll, Owned, Sum;
    RejectAllPays(s.ledger, s.pledges, id);
  }

  /** A project can be rejected exactly if nothing of it was distributed, and every pledger still
      has a balance of what it pledged. */
  lemma RejectProjectAcceptedExactly(s: State, id: ProjectId, web: AssetId, round: Rounding)
    ensures Step(s, RejectProject(id), web, round).Some? <==>
            && id in s.projects
            && forall p :: p in s.pledges && p.project == id ==> Untouched(p) && Has(s.ledger, p.account, p.asset)
  {
    hide RejectAll, Has, Untouched;
    RejectAllAcceptedExactly(s.ledger, s.pledges, id);
  }

  lemma {:induction false} RejectAllAcceptedExactly(l: Ledger, ps: seq<Pledge>, project: ProjectId)
    ensures RejectAll(l, ps, project).Some? <==>
            forall p :: p in ps && p.project == project ==> Has(l, p.account, p.asset)
    decreases |ps|
  {
    hide Touch, Has;
    if ps != [] {
      var p := ps[0];
      assert forall x :: x in ps <==> x == p || x in ps[1..];
      RejectAllAcceptedExactly(l, ps[1..], project);
      RawAcceptedExactly(l, p.account, p.asset, p.pledged, 0);
      if p.project == project && Touch(l, p.account, p.asset, p.pledged, 0).Some? {
        TouchKeepsObjects(l, p.account, p.asset, p.pledged);
        RejectAllAcceptedExactly(Touch(l, p.account, p.asset, p.pledged, 0).value, ps[1..], project);
      }
    }
  }

  lemma TouchKeepsObjects(l: Ledger, owner: Account, asset: AssetId, amount: int)
    requires Touch(l, owner, asset, amount, 0).Some?
    ensures var m := Touch(l, owner, asset, amount, 0).value;
            m.assets == l.assets && forall o, a :: Has(m, o, a) == Has(l, o, a)
  {
    hide Find;
    var m := Touch(l, owner, asset, amount, 0).value;
    forall o, a ensures Has(m, o, a) == Has(l, o, a) {
      if b :| b in l.balances && b.owner == o && b.asset == a {
        var i :| 0 <= i < |l.balances| && l.balances[i] == b;
        assert m.balances[i] in m.balances;
      }
      if b :| b in m.balances && b.owner == o && b.asset == a {
        var i :| 0 <= i < |m.balances| && m.balances[i] == b;
        assert l.balances[i] in l.balances;
      }
    }
  }

  /** Tokens come out of a pledge. */
  predicate Releases(p: Pledge, r: Rates, round: Rounding) {
    var q := Distributed(p, r, round);
    p.baseRemaining + p.bonusRemaining != q.baseRemaining + q.bonusRemaining
  }

  /** A project can be distributed exactly if the tokens that come out exist as an asset. */
  lemma {:induction false} DistributeAllAcceptedExactly(l: Ledger, ps: seq<Pledge>, project: ProjectId,
                                                        phase: Option<int>, owner: Account, r: Rates, round: Rounding)
    requires Solvent(l) && forall p :: p in ps ==> ValidPledge(p)
    ensures DistributeAll(l, ps, project, phase, owner, r, round).Some? <==>
            forall p :: p in ps && p.project == project && (phase == None || phase == Some(p.phase)) ==>
              !Releases(p, r, round) || p.token in l.assets
    decreases |ps|
  {
    hide PaidOut, Distributed, Solvent, ValidPledge, Releases;
    if ps != [] {
      var p := ps[0];
      assert forall x :: x in ps <==> x == p || x in ps[1..];
      if !Selected(p, project, phase) {
        DistributeAllAcceptedExactly(l, ps[1..], project, phase, owner, r, round);
      } else {
        var q := Distributed(p, r, round);
        PaidOutAccepted(l, p, r, round, owner);
        if PaidOut(l, p, q, owner).Some? {
          var m := PaidOut(l, p, q, owner).value;
          DistributedIsValid(p, r, round);
          PaidOutEffect(l, p, q, owner);
          DistributeAllAcceptedExactly(m, ps[1..], project, phase, owner, r, round);
        }
      }
    }
  }

  lemma PaidOutAccepted(l: Ledger, p: Pledge, r: Rates, round: Rounding, owner: Account)
    requires Solvent(l) && ValidPledge(p)
    ensures var q := Distributed(p, r, round);
            && (PaidOut(l, p, q, owner).Some? <==> !Releases(p, r, round) || p.token in l.assets)
            && (PaidOut(l, p, q, owner).Some? ==> PaidOut(l, p, q, owner).value.assets.Keys == l.assets.Keys)
  {
    hide Distributed, Find;
    var q := Distributed(p, r, round);
    DistributedIsValid(p, r, round);
    AdjustAcceptedExactly(l, owner, p.asset, p.pledgeRemaining - q.pledgeRemaining, 0);
    NaturalBalance(l, owner, p.asset);
    var m := Adjust(l, owner, p.asset, p.pledgeRemaining - q.pledgeRemaining, 0).value;
    OpenedHas(m, p.account, p.token);
  }

  lemma NaturalBalance(l: Ledger, owner: Account, asset: AssetId)
    requires Solvent(l)
    ensures GetBalance(l, owner, asset) >= 0
  {
  }

  /** What an account already pledged for counts per account, project and phase, at the full
      amount it expects. */
  lemma PreviousCounts(ps: seq<Pledge>, p: Pledge, account: Account, project: ProjectId, phase: int)
    ensures Sum(PreviousOf(account, project, phase), ps + [p])
            == Sum(PreviousOf(account, project, phase), ps)
               + if p.account == account && p.project == project && p.phase == phase then p.baseExpected else 0
  {
    SumAppend(PreviousOf(account, project, phase), ps, p);
  }

  /** A distribution over a project, or over one phase of it. */
  lemma DistributeProjectPays(s: State, id: ProjectId, phase: Option<int>, r: Rates, web: AssetId, round: Rounding)
    requires Step(s, DistributeProject(id, phase, r), web, round).Some?
    ensures id in s.projects
    ensures var t := Step(s, DistributeProject(id, phase, r), web, round).value;
            && t.projects == s.projects && t.pledges == Left(s.pledges, id, phase, r, round)
            && forall o, a :: Owned(t.ledger, o, a) == Owned(s.ledger, o, a)
                 + Sum(GetsFor(o, a, id, phase, s.projects[id].owner, r, round), s.pledges)
  {
    hide DistributeAll, Owned, Sum, Left, GetsFor;
    DistributeAllPays(s.ledger, s.pledges, id, phase, s.projects[id].owner, r, round);
  }

  /** `after` is the new value if one is given, and the old one otherwise. */
  predicate Takes<T(==)>(given: Option<T>, before: T, after: T) {
    if given.Some? then after == given.value else after == before
  }

  predicate GoodUpdate(u: Update, p: Project, web: AssetId) {
    && (u.tokenPrice.Some? ==> Between(u.tokenPrice.value, web, p.token))
    && (u.discounts.Some? ==> forall a :: a in u.discounts.value ==> 0 < u.discounts.value[a] <= 100)
    && (u.minPledge.Some? ==> u.minPledge.value >= 0)
    && (u.maxPledge.Some? ==> u.maxPledge.value >= 0)
    && (u.phase.Some? ==> u.phase.value > p.phase)
    && (u.phaseLimit.Some? ==>
          u.phaseLimit.value <= p.maxSupply && (u.phaseLimit.value >= p.sold || p.phaseLimit == p.maxSupply))
  }

  /** When an update is accepted, and which fields it sets. */
  lemma UpdateAppliesExactly(s: State, id: ProjectId, u: Update, web: AssetId)
    ensures UpdateStep(s, id, u, web).Some? <==> id in s.projects && GoodUpdate(u, s.projects[id], web)
    ensures UpdateStep(s, id, u, web).Some? ==>
            var t, p := UpdateStep(s, id, u, web).value, s.projects[id];
            && t.ledger == s.ledger && t.pledges == s.pledges && t.projects.Keys == s.projects.Keys
            && (forall i :: i in s.projects && i != id ==> t.projects[i] == s.projects[i])
            && var q := t.projects[id];
               && Takes(u.owner, p.owner, q.owner) && Takes(u.discounts, p.discounts, q.discounts)
               && Takes(u.minPledge, p.minPledge, q.minPledge) && Takes(u.maxPledge, p.maxPledge, q.maxPledge)
               && Takes(u.tokenPrice, p.tokenPrice, q.tokenPrice) && Takes(u.active, p.active, q.active)
               && Takes(u.phase, p.phase, q.phase) && Takes(u.phaseLimit, p.phaseLimit, q.phaseLimit)
               && Takes(u.phaseEnd, p.phaseEnd, q.phaseEnd)
               && q.token == p.token && q.maxSupply == p.maxSupply && q.sold == p.sold && q.collected == p.collected
  {
    hide Between;
  }
}
