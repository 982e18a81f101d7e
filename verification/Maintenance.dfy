/** The maintenance clock, and the budget that pays witnesses and workers in core units. */
module Maintenance {
  import opened Arithmetic
  import opened Permutations
  import opened Sums

  const CYCLE_RATE := 17
  const CYCLE_RATE_UNIT := 0x1_0000_0000
  const SECONDS_PER_DAY := 86_400

  // The clock

  /** The maintenance time that follows `next` once a block at `now` has passed it; the
      first block puts the clock on a multiple of the interval. */
  function NextTime(next: int, now: int, interval: int, firstBlock: bool): int
    requires interval > 0
  {
    if next > now then next
    else if firstBlock then (now / interval + 1) * interval
    else next + ((now - next) / interval + 1) * interval
  }

  /** The next time is the least time after `now` that is whole intervals away from the
      previous one, or from the epoch at the first block. */
  lemma NextTimeIsLeast(next: int, now: int, interval: int, firstBlock: bool, k: int)
    requires interval > 0 && next <= now
    ensures var t := NextTime(next, now, interval, firstBlock);
            var origin := if firstBlock then 0 else next;
            && now < t && (t - origin) % interval == 0
            && (origin + k * interval > now <==> origin + k * interval >= t)
  {
    var origin := if firstBlock then 0 else next;
    var y := (now - origin) / interval;
    Floor(now - origin, interval);
    assert (y + 1) * interval == y * interval + interval;
    AtMostFloor(k, now - origin, interval);
    if k >= y + 1 {
      MulMono(y + 1, k, interval);
    } else {
      MulMono(k, y, interval);
    }
    WholeMultiple(y + 1, interval);
  }

  /** The time stays as it is until a block has passed it. */
  lemma NextTimeStays(next: int, now: int, interval: int, firstBlock: bool)
    requires interval > 0 && now < next
    ensures NextTime(next, now, interval, firstBlock) == next
  {
  }

  /** Blocks until maintenance, rounded up. */
  function BlocksUntil(time: int, blockInterval: int): int
    requires blockInterval > 0
  {
    (time + blockInterval - 1) / blockInterval
  }

  /** The least number of blocks that reaches the maintenance time. */
  lemma BlocksAreLeast(time: int, blockInterval: int)
    requires blockInterval > 0
    ensures var n := BlocksUntil(time, blockInterval);
            (n - 1) * blockInterval < time <= n * blockInterval
  {
    Floor(time + blockInterval - 1, blockInterval);
    MulMinus(BlocksUntil(time, blockInterval), 1, blockInterval);
  }

  /** Block times that follow `now` at least one block interval apart. */
  predicate Spaced(now: int, blockInterval: int, times: seq<int>) {
    && (times != [] ==> times[0] >= now + blockInterval)
    && forall i :: 0 < i < |times| ==> times[i] >= times[i - 1] + blockInterval
  }

  /** However many blocks come until one reaches the maintenance time, that block included,
      they are at most as many as the budget was computed for. */
  lemma {:induction false} BlocksAreCovered(now: int, next: int, blockInterval: int, times: seq<int>)
    requires blockInterval > 0 && next > now && Spaced(now, blockInterval, times)
    requires forall i :: 0 <= i < |times| - 1 ==> times[i] < next
    ensures |times| <= BlocksUntil(next - now, blockInterval)
  {
    AtMostFloor(1, next - now + blockInterval - 1, blockInterval);
    var n := |times|;
    if n >= 2 {
      SpacedOut(now, blockInterval, times, n - 2);
      assert (n - 1) * blockInterval + blockInterval == n * blockInterval;
      AtMostFloor(n, next - now + blockInterval - 1, blockInterval);
    }
  }

  lemma {:induction false} SpacedOut(now: int, blockInterval: int, times: seq<int>, i: nat)
    requires i < |times| && Spaced(now, blockInterval, times)
    ensures times[i] >= now + (i + 1) * blockInterval
    decreases i
  {
    if i > 0 {
      SpacedOut(now, blockInterval, times, i - 1);
      assert (i + 1) * blockInterval == i * blockInterval + blockInterval;
    } else {
      assert (i + 1) * blockInterval == blockInterval;
    }
  }

  // Workers

  datatype Worker = Worker(id: nat, stake: int, dailyPay: int, begin: int, end: int, refunds: bool)

  predicate Eligible(w: Worker, now: int) {
    w.begin <= now <= w.end && w.stake > 0
  }

  /** More votes first, then the lower id. */
  predicate Before(v: Worker, w: Worker) {
    if v.stake != w.stake then v.stake > w.stake else v.id <= w.id
  }

  predicate Ranked(s: seq<Worker>) {
    forall i, j :: 0 <= i < j < |s| ==> Before(s[i], s[j])
  }

  function Insert(s: seq<Worker>, w: Worker): seq<Worker> {
    if s == [] || Before(w, s[0]) then [w] + s else [s[0]] + Insert(s[1..], w)
  }

  /** The eligible workers, best first. */
  function Ranking(s: seq<Worker>, now: int): seq<Worker> {
    if s == [] then []
    else
      var rest := Ranking(s[1..], now);
      if Eligible(s[0], now) then Insert(rest, s[0]) else rest
  }

  function Candidates(s: seq<Worker>, now: int): multiset<Worker> {
    if s == [] then multiset{}
    else Candidates(s[1..], now) + if Eligible(s[0], now) then multiset{s[0]} else multiset{}
  }

  /** Where an inserted worker can be found. */
  lemma {:induction false} InsertHolds(s: seq<Worker>, w: Worker)
    ensures multiset(Insert(s, w)) == multiset(s) + multiset{w}
    ensures forall v :: v in Insert(s, w) ==> v == w || v in s
    decreases |s|
  {
    hide Before;
    if s != [] && !Before(w, s[0]) {
      InsertHolds(s[1..], w);
      assert s == [s[0]] + s[1..];
    }
  }

  lemma {:induction false} InsertRanks(s: seq<Worker>, w: Worker)
    requires Ranked(s)
    ensures Ranked(Insert(s, w))
    decreases |s|
  {
    if s != [] && !Before(w, s[0]) {
      InsertRanks(s[1..], w);
      InsertHolds(s[1..], w);
      var rest := Insert(s[1..], w);
      assert forall i :: 0 <= i < |rest| ==> rest[i] in rest;
    } else {
      assert forall i :: 0 <= i < |s| ==> Before(w, s[i]);
    }
  }

  /** The ranking holds exactly the eligible workers, in order of votes and id. */
  lemma {:induction false} RankingIsRanked(s: seq<Worker>, now: int)
    ensures Ranked(Ranking(s, now)) && multiset(Ranking(s, now)) == Candidates(s, now)
    decreases |s|
  {
    hide Before, Eligible, Ranked;
    if s != [] {
      RankingIsRanked(s[1..], now);
      if Eligible(s[0], now) {
        InsertRanks(Ranking(s[1..], now), s[0]);
        InsertHolds(Ranking(s[1..], now), s[0]);
      }
    } else {
      NothingRanked();
    }
  }

  lemma NothingRanked()
    ensures Ranked([])
  {
  }

  /** Who is ranked, and in which order: workers within their term that have votes, most votes
      first and the lower id first among equals. */
  lemma RankingMeans(s: seq<Worker>, now: int, w: Worker, i: nat, j: nat)
    ensures w in Ranking(s, now) <==> w in s && w.begin <= now <= w.end && w.stake > 0
    ensures i < j < |Ranking(s, now)| ==>
            var v, u := Ranking(s, now)[i], Ranking(s, now)[j];
            v.stake > u.stake || (v.stake == u.stake && v.id <= u.id)
  {
    hide Ranking;
    RankingIsRanked(s, now);
    CandidatesAre(s, now, w);
    assert w in Ranking(s, now) <==> w in multiset(Ranking(s, now));
    if i < j < |Ranking(s, now)| {
      assert Before(Ranking(s, now)[i], Ranking(s, now)[j]);
    }
  }

  lemma {:induction false} CandidatesAre(s: seq<Worker>, now: int, w: Worker)
    ensures w in Candidates(s, now) <==> w in s && Eligible(w, now)
    decreases |s|
  {
    if s != [] {
      CandidatesAre(s[1..], now, w);
      assert w in s <==> w == s[0] || w in s[1..];
    }
  }

  /** What a worker asks for `elapsed` seconds. */
  function Requested(w: Worker, elapsed: int): int {
    w.dailyPay * elapsed / SECONDS_PER_DAY
  }

  /** The payments, in order, until the budget is used up. */
  function Payments(s: seq<Worker>, elapsed: int, budget: int): seq<int> {
    if s == [] || budget <= 0 then []
    else
      var pay := Min(budget, Requested(s[0], elapsed));
      [pay] + Payments(s[1..], elapsed, budget - pay)
  }

  function Identity(): int -> int {
    (x: int) => x
  }

  predicate ValidWorkers(s: seq<Worker>) {
    forall i :: 0 <= i < |s| ==> s[i].dailyPay >= 0
  }

  /** A worker asks for its daily pay in proportion to the time, rounded down. */
  lemma RequestIs(w: Worker, elapsed: int, x: int)
    ensures x <= Requested(w, elapsed) <==> x * 86_400 <= w.dailyPay * elapsed
  {
    AtMostFloor(x, w.dailyPay * elapsed, SECONDS_PER_DAY);
  }

  lemma RequestIsNatural(w: Worker, elapsed: int)
    requires w.dailyPay >= 0 && elapsed >= 0
    ensures Requested(w, elapsed) >= 0
  {
    MulMono(0, w.dailyPay, elapsed);
  }

  /** Payments never exceed the budget, and are not negative.  All but the last are what the
      worker asked for; a worker is paid less, or not at all, only if the budget ran out. */
  lemma {:induction false} PaymentsFit(s: seq<Worker>, elapsed: int, budget: int)
    requires ValidWorkers(s) && elapsed >= 0 && budget >= 0
    ensures var ps := Payments(s, elapsed, budget);
            && |ps| <= |s| && 0 <= Sum(Identity(), ps) <= budget
            && (forall i :: 0 <= i < |ps| ==> 0 <= ps[i] <= Requested(s[i], elapsed))
            && (forall i :: 0 <= i < |ps| && ps[i] != Requested(s[i], elapsed) ==>
                i == |ps| - 1 && Sum(Identity(), ps) == budget)
            && (|ps| < |s| ==> Sum(Identity(), ps) == budget)
    decreases |s|
  {
    hide Requested;
    if s != [] && budget > 0 {
      RequestIsNatural(s[0], elapsed);
      var pay := Min(budget, Requested(s[0], elapsed));
      PaymentsFit(s[1..], elapsed, budget - pay);
      var ps, rest := Payments(s, elapsed, budget), Payments(s[1..], elapsed, budget - pay);
      assert ps[1..] == rest;
      assert forall i :: 1 <= i < |ps| ==> ps[i] == rest[i - 1] && s[i] == s[1..][i - 1];
      assert pay < Requested(s[0], elapsed) ==> rest == [];
    }
  }

  lemma PaymentsStep(s: seq<Worker>, i: nat, elapsed: int, left: int)
    requires i < |s| && left > 0
    ensures var pay := Min(left, Requested(s[i], elapsed));
            Payments(s[i..], elapsed, left) == [pay] + Payments(s[i + 1..], elapsed, left - pay)
  {
    assert s[i..][1..] == s[i + 1..];
  }

  lemma PaymentsEnd(s: seq<Worker>, elapsed: int, left: int)
    ensures s == [] || left <= 0 ==> Payments(s, elapsed, left) == []
  {
  }

  lemma Regroup(ps: seq<int>, pay: int, rest: seq<int>)
    ensures ps + ([pay] + rest) == (ps + [pay]) + rest
  {
  }

  /** The loop of `pay_workers`. */
  method PayWorkers(s: seq<Worker>, elapsed: int, budget: int) returns (ps: seq<int>, left: int)
    ensures ps == Payments(s, elapsed, budget)
    ensures left == budget - Sum(Identity(), ps)
  {
    hide Requested, Payments, Min;
    ps, left := [], budget;
    var i := 0;
    assert s[0..] == s;
    while i < |s| && left > 0
      invariant 0 <= i <= |s|
      invariant Payments(s, elapsed, budget) == ps + Payments(s[i..], elapsed, left)
      invariant left == budget - Sum(Identity(), ps)
    {
      var pay := Min(left, Requested(s[i], elapsed));
      SumAppend(Identity(), ps, pay);
      PaymentsStep(s, i, elapsed, left);
      Regroup(ps, pay, Payments(s[i + 1..], elapsed, left - pay));
      ps, left, i := ps + [pay], left - pay, i + 1;
    }
    PaymentsEnd(s[i..], elapsed, left);
    assert ps + [] == ps;
  }

  // The budget

  /** The core asset: what accounts and vesting balances hold, the supply, the fees waiting
      to be burned and the budget waiting for witnesses; and the clock. */
  datatype Core = Core(held: int, supply: int, maxSupply: int, fees: int, witnessBudget: int,
                       lastBudget: int, next: int, now: int)

  datatype Parameters = Parameters(interval: int, blockInterval: int, payPerBlock: int, workerBudgetPerDay: int)

  predicate ValidParameters(p: Parameters) {
    p.interval > 0 && p.blockInterval > 0 && p.payPerBlock >= 0 && p.workerBudgetPerDay >= 0
  }

  /** Nothing is negative, every unit of the supply is somewhere, and the supply fits. */
  predicate Valid(c: Core) {
    && c.held >= 0 && c.fees >= 0 && c.witnessBudget >= 0
    && c.held + c.fees + c.witnessBudget == c.supply <= c.maxSupply
    && 0 <= c.lastBudget <= c.now
  }

  /** What could be spent: what is not issued, with fees and unused witness pay put back. */
  function Reserve(c: Core): int {
    c.maxSupply - c.supply + c.fees + c.witnessBudget
  }

  /** The time since the last budget, zero before the first. */
  function Elapsed(c: Core): int {
    if c.lastBudget == 0 || c.now <= c.lastBudget then 0 else c.now - c.lastBudget
  }

  /** A fixed part of the reserve for each second, rounded up, at most the reserve. */
  function TotalBudget(c: Core): int {
    var budget := (Reserve(c) * Elapsed(c) * CYCLE_RATE + CYCLE_RATE_UNIT - 1) / CYCLE_RATE_UNIT;
    if Elapsed(c) == 0 then 0 else Min(budget, Reserve(c))
  }

  datatype Record = Record(total: int, witnesses: int, workers: int)

  /** How the budget is divided until the next maintenance. */
  function Divide(c: Core, p: Parameters): Record
    requires ValidParameters(p)
  {
    var total := TotalBudget(c);
    var witnesses := Min(p.payPerBlock * BlocksUntil(c.next - c.now, p.blockInterval), total);
    var workers := Min(p.workerBudgetPerDay * (c.next - c.now) / SECONDS_PER_DAY, total - witnesses);
    Record(total, witnesses, workers)
  }

  /** The part of the payments that goes to workers who give it back to the reserve. */
  function Refunded(s: seq<Worker>, ps: seq<int>): int
    requires |ps| <= |s|
  {
    if ps == [] then 0 else (if s[0].refunds then ps[0] else 0) + Refunded(s[1..], ps[1..])
  }

  /** `process_budget` for the ranked workers and their payments. */
  function Spend(c: Core, r: Record, ranked: seq<Worker>, ps: seq<int>): Core
    requires |ps| <= |ranked|
  {
    var paid := Sum(Identity(), ps);
    var refunded := Refunded(ranked, ps);
    c.(held := c.held + paid - refunded,
       supply := c.supply - refunded + (r.witnesses + paid - c.fees - c.witnessBudget),
       fees := 0, witnessBudget := r.witnesses, lastBudget := c.now)
  }

  /** A positive reserve and a positive time give a budget between one unit and the reserve. */
  lemma BudgetFits(c: Core)
    requires Valid(c)
    ensures 0 <= TotalBudget(c) <= Reserve(c)
    ensures Reserve(c) > 0 && Elapsed(c) > 0 ==> TotalBudget(c) >= 1
  {
    var x := Reserve(c) * Elapsed(c) * CYCLE_RATE;
    MulMono(0, Reserve(c), Elapsed(c));
    if Reserve(c) > 0 && Elapsed(c) > 0 {
      MulMono(1, Reserve(c), Elapsed(c));
    }
    AtMostFloor(0, x + CYCLE_RATE_UNIT - 1, CYCLE_RATE_UNIT);
    AtMostFloor(1, x + CYCLE_RATE_UNIT - 1, CYCLE_RATE_UNIT);
  }

  /** All of the reserve is what accounts do not hold. */
  lemma ReserveIs(c: Core)
    requires Valid(c)
    ensures Reserve(c) == c.maxSupply - c.held
    ensures Elapsed(c) == if c.lastBudget == 0 then 0 else c.now - c.lastBudget
  {
  }

  /** The budget is 17 of 2^32 parts of the reserve for every second, rounded up: the least
      amount that covers them, unless that is more than the reserve. */
  lemma BudgetIs(c: Core, x: int)
    requires Valid(c) && Elapsed(c) > 0
    ensures TotalBudget(c) <= x <==>
            (c.maxSupply - c.held) * Elapsed(c) * 17 <= x * 4_294_967_296 || c.maxSupply - c.held <= x
  {
    var y := Reserve(c) * Elapsed(c) * CYCLE_RATE;
    AtMostFloor(x + 1, y + CYCLE_RATE_UNIT - 1, CYCLE_RATE_UNIT);
  }

  /** `part` is the amount wanted, or all there is if that is less. */
  predicate IsPart(part: int, wanted: int, available: int) {
    part == if wanted <= available then wanted else available
  }

  /** The witnesses get the pay for all blocks until maintenance, if the budget allows it; the
      workers then get their daily budget in proportion to that time, if the rest allows it. */
  lemma DivisionIs(c: Core, p: Parameters)
    requires ValidParameters(p)
    ensures var r, time := Divide(c, p), c.next - c.now;
            && r.total == TotalBudget(c)
            && IsPart(r.witnesses, p.payPerBlock * BlocksUntil(time, p.blockInterval), r.total)
            && IsPart(r.workers, p.workerBudgetPerDay * time / 86_400, r.total - r.witnesses)
  {
  }

  /** Witnesses and workers together never get more than the budget. */
  lemma DivisionFits(c: Core, p: Parameters)
    requires Valid(c) && ValidParameters(p) && c.next > c.now
    ensures var r := Divide(c, p);
            0 <= r.witnesses && 0 <= r.workers && r.witnesses + r.workers <= r.total <= Reserve(c)
  {
    BudgetFits(c);
    hide TotalBudget, Reserve;
    AtMostFloor(0, c.next - c.now + p.blockInterval - 1, p.blockInterval);
    MulMono(0, BlocksUntil(c.next - c.now, p.blockInterval), p.payPerBlock);
    MulMono(0, c.next - c.now, p.workerBudgetPerDay);
    AtMostFloor(0, p.workerBudgetPerDay * (c.next - c.now), SECONDS_PER_DAY);
    assert 0 * p.payPerBlock == 0 && 0 * p.workerBudgetPerDay == 0;
  }

  lemma {:induction false} RefundFits(s: seq<Worker>, ps: seq<int>)
    requires |ps| <= |s| && forall i :: 0 <= i < |ps| ==> ps[i] >= 0
    ensures 0 <= Refunded(s, ps) <= Sum(Identity(), ps)
    decreases |ps|
  {
    if ps != [] {
      RefundFits(s[1..], ps[1..]);
    }
  }

  /** One maintenance: advance the clock, divide the budget, pay the workers. */
  function Maintain(c: Core, p: Parameters, workers: seq<Worker>, firstBlock: bool): Core
    requires ValidParameters(p) && ValidWorkers(workers) && Valid(c)
  {
    var d := c.(next := NextTime(c.next, c.now, p.interval, firstBlock));
    var r := Divide(d, p);
    var ranked := Ranking(workers, c.now);
    ElapsedIsNatural(d);
    assert ValidWorkers(ranked) by { RankingIsValid(workers, c.now); }
    assert r.workers >= 0 by { NextIsLater(c, p, firstBlock); DivisionFits(d, p); }
    PaymentsFit(ranked, Elapsed(d), r.workers);
    Spend(d, r, ranked, Payments(ranked, Elapsed(d), r.workers))
  }

  lemma ElapsedIsNatural(c: Core)
    ensures Elapsed(c) >= 0
  {
  }

  lemma NextIsLater(c: Core, p: Parameters, firstBlock: bool)
    requires ValidParameters(p)
    ensures NextTime(c.next, c.now, p.interval, firstBlock) > c.now
  {
    if c.next <= c.now {
      NextTimeIsLeast(c.next, c.now, p.interval, firstBlock, 0);
    }
  }

  lemma {:induction false} RankingIsValid(s: seq<Worker>, now: int)
    requires ValidWorkers(s)
    ensures ValidWorkers(Ranking(s, now))
    decreases |s|
  {
    if s != [] {
      RankingIsValid(s[1..], now);
      InsertIsValid(Ranking(s[1..], now), s[0]);
    }
  }

  lemma {:induction false} InsertIsValid(s: seq<Worker>, w: Worker)
    requires ValidWorkers(s) && w.dailyPay >= 0
    ensures ValidWorkers(Insert(s, w))
    decreases |s|
  {
    hide Before;
    if s != [] && !Before(w, s[0]) {
      InsertIsValid(s[1..], w);
    }
  }

  /** A maintenance step keeps every unit accounted for and the supply within its maximum,
      and what it newly spends is at most the budget. */
  lemma MaintainKeeps(c: Core, p: Parameters, workers: seq<Worker>, firstBlock: bool)
    requires ValidParameters(p) && ValidWorkers(workers) && Valid(c)
    ensures var d := Maintain(c, p, workers, firstBlock);
            && Valid(d) && d.maxSupply == c.maxSupply && d.next > d.now
            && (d.held - c.held) + d.witnessBudget <= TotalBudget(c)
            && c.held <= d.held
  {
    hide NextTime, TotalBudget, Payments, Ranking, Requested, BlocksUntil;
    var d := c.(next := NextTime(c.next, c.now, p.interval, firstBlock));
    NextIsLater(c, p, firstBlock);
    DivisionFits(d, p);
    RankingIsValid(workers, c.now);
    SameBudget(c, d);
    var r, ranked := Divide(d, p), Ranking(workers, c.now);
    PaymentsFit(ranked, Elapsed(d), r.workers);
    RefundFits(ranked, Payments(ranked, Elapsed(d), r.workers));
  }

  /** What a worker keeps of its payment. */
  lemma {:induction false} RefundedAppends(s: seq<Worker>, ps: seq<int>, w: Worker, x: int)
    requires |ps| == |s|
    ensures Refunded(s + [w], ps + [x]) == Refunded(s, ps) + if w.refunds then x else 0
    decreases |ps|
  {
    if ps == [] {
      assert (s + [w])[1..] == [] && (ps + [x])[1..] == [];
    } else {
      assert (s + [w])[1..] == s[1..] + [w] && (ps + [x])[1..] == ps[1..] + [x];
      RefundedAppends(s[1..], ps[1..], w, x);
    }
  }

  /** What a maintenance does: accounts get the payments that are not given back, the new
      witness budget replaces the old one, fees are burned, and the clocks go on. */
  lemma MaintainIs(c: Core, p: Parameters, workers: seq<Worker>, firstBlock: bool)
    requires ValidParameters(p) && ValidWorkers(workers) && Valid(c)
    ensures var d := Maintain(c, p, workers, firstBlock);
            var next := NextTime(c.next, c.now, p.interval, firstBlock);
            var r, ranked := Divide(c.(next := next), p), Ranking(workers, c.now);
            var ps := Payments(ranked, Elapsed(c), r.workers);
            && d.next == next && d.now == c.now && d.lastBudget == c.now && d.fees == 0
            && d.witnessBudget == r.witnesses && d.maxSupply == c.maxSupply
            && |ps| <= |ranked| && d.held == c.held + Sum(Identity(), ps) - Refunded(ranked, ps)
  {
    hide NextTime, TotalBudget, Payments, Ranking, Requested, BlocksUntil, Refunded, Sum;
    var d := c.(next := NextTime(c.next, c.now, p.interval, firstBlock));
    NextIsLater(c, p, firstBlock);
    DivisionFits(d, p);
    RankingIsValid(workers, c.now);
    SameBudget(c, d);
    PaymentsFit(Ranking(workers, c.now), Elapsed(d), Divide(d, p).workers);
  }

  lemma SameBudget(c: Core, d: Core)
    requires d == c.(next := d.next)
    ensures TotalBudget(d) == TotalBudget(c) && Reserve(d) == Reserve(c) && Elapsed(d) == Elapsed(c)
  {
  }

  datatype Operation =
    | Block(time: int)
    | Fee(amount: int)
    | Burn(amount: int)
    | Maintenance(workers: seq<Worker>, firstBlock: bool)

  /** What happens to the core asset between and at maintenance: a block pays its witness,
      a fee waits to be burned, an amount is burned.  Refused steps change nothing. */
  function Step(c: Core, p: Parameters, op: Operation): Core
    requires ValidParameters(p) && Valid(c)
  {
    match op
    case Block(time) =>
      var pay := Min(p.payPerBlock, c.witnessBudget);
      if time <= c.now then c
      else c.(held := c.held + pay, witnessBudget := c.witnessBudget - pay, now := time)
    case Fee(amount) =>
      if !(0 <= amount <= c.held) then c else c.(held := c.held - amount, fees := c.fees + amount)
    case Burn(amount) =>
      if !(0 <= amount <= c.held) then c else c.(held := c.held - amount, supply := c.supply - amount)
    case Maintenance(workers, firstBlock) =>
      if !ValidWorkers(workers) then c else Maintain(c, p, workers, firstBlock)
  }

  lemma StepKeeps(c: Core, p: Parameters, op: Operation)
    requires ValidParameters(p) && Valid(c)
    ensures Valid(Step(c, p, op)) && Step(c, p, op).maxSupply == c.maxSupply
  {
    hide Maintain;
    if op.Maintenance? && ValidWorkers(op.workers) {
      MaintainKeeps(c, p, op.workers, op.firstBlock);
    }
  }

  /** What the steps between two maintenances do, and when they are refused. */
  lemma StepIs(c: Core, p: Parameters, op: Operation)
    requires ValidParameters(p) && Valid(c)
    ensures var d := Step(c, p, op);
            match op
            case Maintenance(workers, firstBlock) =>
              d == if ValidWorkers(workers) then Maintain(c, p, workers, firstBlock) else c
            case Block(time) =>
              if time > c.now then
                && d == c.(held := d.held, witnessBudget := d.witnessBudget, now := time)
                && IsPart(d.held - c.held, p.payPerBlock, c.witnessBudget)
                && d.held + d.witnessBudget == c.held + c.witnessBudget
              else d == c
            case Fee(amount) =>
              if 0 <= amount <= c.held then
                d == c.(held := d.held, fees := d.fees) && d.fees == c.fees + amount
                  && d.held + d.fees == c.held + c.fees
              else d == c
            case Burn(amount) =>
              if 0 <= amount <= c.held then
                && d == c.(held := d.held, supply := d.supply)
                && d.held == c.held - amount && d.supply == c.supply - amount
              else d == c
  {
  }

  function Run(c: Core, p: Parameters, ops: seq<Operation>): Core
    requires ValidParameters(p) && Valid(c)
    decreases |ops|
  {
    if ops == [] then c
    else
      StepKeeps(c, p, ops[0]);
      Run(Step(c, p, ops[0]), p, ops[1..])
  }

  lemma {:induction false} RunAppends(c: Core, p: Parameters, ops: seq<Operation>, op: Operation)
    requires ValidParameters(p) && Valid(c)
    ensures Valid(Run(c, p, ops)) && Run(c, p, ops + [op]) == Step(Run(c, p, ops), p, op)
    decreases |ops|
  {
    hide Valid, Step;
    if ops == [] {
      assert ops + [op] == [op] && [op][1..] == [];
      StepKeeps(c, p, op);
    } else {
      assert (ops + [op])[1..] == ops[1..] + [op];
      StepKeeps(c, p, ops[0]);
      RunAppends(Step(c, p, ops[0]), p, ops[1..], op);
    }
  }

  /** Over every run the supply never passes its maximum and every unit of it is held, waits
      as a fee, or waits for a witness. */
  lemma {:induction false} RunKeeps(c: Core, p: Parameters, ops: seq<Operation>)
    requires ValidParameters(p) && Valid(c)
    ensures Valid(Run(c, p, ops)) && Run(c, p, ops).maxSupply == c.maxSupply
    decreases |ops|
  {
    hide Valid, Step;
    if ops != [] {
      StepKeeps(c, p, ops[0]);
      RunKeeps(Step(c, p, ops[0]), p, ops[1..]);
    }
  }

  class MaintenanceDatabase {
    var core: Core

    constructor (c: Core)
      ensures core == c
    {
      core := c;
    }

    /** `update_signing_witness`: pay the witness of a new block from the budget. */
    method ProduceBlock(p: Parameters, time: int)
      requires ValidParameters(p) && Valid(core)
      modifies this
      ensures core == Step(old(core), p, Block(time))
      ensures Valid(core) && core.supply == old(core).supply && core.fees == old(core).fees
      ensures core.held + core.witnessBudget == old(core).held + old(core).witnessBudget
      ensures 0 <= core.held - old(core).held <= p.payPerBlock
      ensures core.held - old(core).held < p.payPerBlock ==> time <= old(core).now || core.witnessBudget == 0
    {
      if time > core.now {
        var pay := if p.payPerBlock < core.witnessBudget then p.payPerBlock else core.witnessBudget;
        core := core.(held := core.held + pay, witnessBudget := core.witnessBudget - pay, now := time);
      }
    }

    /** The clock and `process_budget`. */
    method PerformMaintenance(p: Parameters, workers: seq<Worker>, firstBlock: bool)
      requires ValidParameters(p) && Valid(core) && ValidWorkers(workers)
      modifies this
      ensures core == Maintain(old(core), p, workers, firstBlock)
    {
      hide Ranking, Payments, TotalBudget, BlocksUntil, Requested, NextTime;
      core := core.(next := NextTime(core.next, core.now, p.interval, firstBlock));
      var total := TotalBudget(core);
      var witnesses := Min(p.payPerBlock * BlocksUntil(core.next - core.now, p.blockInterval), total);
      var budget := Min(p.workerBudgetPerDay * (core.next - core.now) / SECONDS_PER_DAY, total - witnesses);
      var ranked := Ranking(workers, core.now);
      NextIsLater(old(core), p, firstBlock);
      DivisionFits(core, p);
      RankingIsValid(workers, core.now);
      PaymentsFit(ranked, Elapsed(core), budget);
      var ps, left := PayWorkers(ranked, Elapsed(core), budget);
      var refunded := Refunded(ranked, ps);
      core := core.(held := core.held + (budget - left) - refunded,
                    supply := core.supply - refunded + (witnesses + budget - left - core.fees - core.witnessBudget),
                    fees := 0, witnessBudget := witnesses, lastBudget := core.now);
    }
  }
}
