/** The DasCoin reward queue: submissions of cycles wait in line, and each reward round
    pays the queue a fixed amount of DasCoin from the front. */
module RewardQueue {
  import opened Wrappers
  import opened Sums
  import opened Arithmetic
  import opened Ledger

  /** Asset precision times frequency precision. */
  const K := 100_000 * 100

  /** The most DasCoin there may ever be, in smallest units. */
  const CAP := 3_294_166_500 * 100_000

  datatype Entry = Entry(number: nat, account: Account, amount: int, frequency: int, historicSum: int)

  datatype Queue = Queue(entries: seq<Entry>, minted: int, lastMinted: nat, maxNumber: nat)

  function ToDascoin(cycles: int, frequency: int): int
    requires frequency > 0
  {
    cycles * K / frequency
  }

  function ToCycles(dascoin: int, frequency: int): int {
    dascoin * frequency / K
  }

  predicate ValidEntry(e: Entry) {
    e.amount > 0 && e.frequency > 0
  }

  predicate ValidEntries(s: seq<Entry>) {
    forall i :: 0 <= i < |s| ==> ValidEntry(s[i])
  }

  /** What the queue owes for an entry. */
  function Owed(): Entry -> int {
    (e: Entry) => if e.frequency > 0 then ToDascoin(e.amount, e.frequency) else 0
  }

  function TotalOwed(s: seq<Entry>): int {
    Sum(Owed(), s)
  }

  /** `get_total_dascoin_amount_in_system`: read off the last entry. */
  function FastTotal(q: Queue): int {
    if q.entries == [] then q.minted else q.entries[|q.entries| - 1].historicSum
  }

  /** What has been minted, and what is still owed. */
  function TrueTotal(q: Queue): int {
    q.minted + TotalOwed(q.entries)
  }

  /** `push_queue_submission`. */
  function Push(q: Queue, account: Account, amount: int, frequency: int): Queue
    requires frequency > 0
  {
    var sum := FastTotal(q) + ToDascoin(amount, frequency);
    q.(entries := q.entries + [Entry(q.maxNumber + 1, account, amount, frequency, sum)], maxNumber := q.maxNumber + 1)
  }

  /** A submission is refused if it would take the fast total over the cap. */
  function GuardedPush(q: Queue, account: Account, amount: int, frequency: int): Option<Queue> {
    if amount <= 0 || frequency <= 0 then None
    else if ToDascoin(amount, frequency) + FastTotal(q) > CAP then None
    else Some(Push(q, account, amount, frequency))
  }

  datatype Payment = Payment(account: Account, amount: int)

  datatype Round = Round(entries: seq<Entry>, payments: seq<Payment>, finished: nat)

  /** One reward round over the queue, `left` to distribute. */
  function PayRound(s: seq<Entry>, left: int): Round
    requires ValidEntries(s)
    decreases |s|
  {
    if left <= 0 || s == [] then Round(s, [], 0)
    else
      var e := s[0];
      var owed := ToDascoin(e.amount, e.frequency);
      if left >= owed then
        var r := PayRound(s[1..], left - owed);
        Round(r.entries, [Payment(e.account, owed)] + r.payments, r.finished + 1)
      else
        Round([e.(amount := e.amount - ToCycles(left, e.frequency))] + s[1..], [Payment(e.account, left)], 0)
  }

  function Paid(): Payment -> int {
    (p: Payment) => p.amount
  }

  function Mint(q: Queue, reward: int): Queue
    requires ValidEntries(q.entries)
  {
    var r := PayRound(q.entries, reward);
    Queue(r.entries, q.minted + Sum(Paid(), r.payments), q.lastMinted + r.finished, q.maxNumber)
  }

  lemma OwedNonNegative(e: Entry)
    requires ValidEntry(e)
    ensures ToDascoin(e.amount, e.frequency) >= 0
  {
    AtMostFloor(0, e.amount * K, e.frequency);
  }

  lemma TotalOwedNonNegative(s: seq<Entry>)
    requires ValidEntries(s)
    ensures TotalOwed(s) >= 0
  {
    forall e | e in s ensures Owed()(e) >= 0 {
      OwedNonNegative(e);
    }
    SumNonNegative(Owed(), s);
  }

  /** What rounding adds to minted plus owed when `left` units of `e` are paid. */
  function PartialDrift(e: Entry, left: int): int
    requires e.frequency > 0
  {
    ((e.amount * K) % e.frequency + (left * e.frequency) % K) / e.frequency
  }

  /** A partial payout leaves the entry with cycles, and with `PartialDrift` units more owed
      than were left to pay: never negative, and less than `K / frequency + 1`.  The payout
      is exact if and only if the two remainders add up to less than the frequency. */
  lemma PartialPayout(e: Entry, left: int)
    requires ValidEntry(e) && 0 < left < ToDascoin(e.amount, e.frequency)
    ensures var rest := e.(amount := e.amount - ToCycles(left, e.frequency));
            && ValidEntry(rest)
            && ToDascoin(rest.amount, rest.frequency) == ToDascoin(e.amount, e.frequency) - left + PartialDrift(e, left)
    ensures 0 <= PartialDrift(e, left) <= K
    ensures PartialDrift(e, left) * e.frequency < K + e.frequency
    ensures PartialDrift(e, left) == 0 <==>
            (e.amount * K) % e.frequency + (left * e.frequency) % K < e.frequency
  {
    var f := e.frequency;
    PaysLess(e.amount, f, left);
    RemainderIs(e.amount, f, left);
    DriftBounds((e.amount * K) % f, (left * f) % K, f);
  }

  /** Paying less than is owed takes less than all cycles. */
  lemma PaysLess(amount: int, f: int, left: int)
    requires f > 0 && left < amount * K / f
    ensures left * f / K < amount
  {
    Floor(amount * K, f);
    Floor(left * f, K);
    MulMono(left + 1, amount * K / f, f);
    assert (left + 1) * f == left * f + f;
  }

  lemma SplitProduct(x: int, d: int)
    requires d > 0
    ensures (x / d) * d == x - x % d
  {
  }

  lemma RemainderSplits(p: int, q: int, amount: int, left: int, f: int, k: int)
    requires f > 0 && k > 0 && p == amount * k && q == left * f
    ensures (amount - q / k) * k == (p / f - left) * f + (p % f + q % k)
  {
    SplitProduct(p, f);
    SplitProduct(q, k);
    MulMinus(p / f, left, f);
    MulMinus(amount, q / k, k);
  }

  lemma RemainderOf(p: int, q: int, amount: int, left: int, f: int, k: int)
    requires f > 0 && k > 0 && p == amount * k && q == left * f
    ensures (amount - q / k) * k / f == p / f - left + (p % f + q % k) / f
  {
    RemainderSplits(p, q, amount, left, f, k);
    DivideSum(p / f - left, p % f + q % k, f);
  }

  lemma RemainderIs(amount: int, f: int, left: int)
    requires f > 0
    ensures (amount - left * f / K) * K / f == amount * K / f - left + ((amount * K) % f + (left * f) % K) / f
  {
    RemainderOf(amount * K, left * f, amount, left, f, K);
  }

  lemma DivideSum(x: int, y: int, f: int)
    requires f > 0
    ensures (x * f + y) / f == x + y / f
  {
    Floor(y, f);
    assert (x + y / f) * f == x * f + (y / f) * f;
    assert (x + y / f + 1) * f == x * f + (y / f) * f + f;
    AtMostFloor(x + y / f, x * f + y, f);
    AtMostFloor(x + y / f + 1, x * f + y, f);
  }

  lemma DriftBounds(m: int, r: int, f: int)
    requires 0 <= m < f && 0 <= r < K
    ensures 0 <= (m + r) / f <= K && (m + r) / f * f < K + f
    ensures (m + r) / f == 0 <==> m + r < f
  {
    var d := (m + r) / f;
    Floor(m + r, f);
    AtMostFloor(0, m + r, f);
    AtMostFloor(1, m + r, f);
    assert (K + 1) * f == K * f + f;
    MulMono(1, f, K);
    AtMostFloor(K + 1, m + r, f);
  }

  /** What a round leaves: a suffix of the queue, its first entry possibly reduced. */
  predicate IsSuffix(after: seq<Entry>, before: seq<Entry>) {
    && |after| <= |before|
    && var k := |before| - |after|;
       after != [] ==> after[0] == before[k].(amount := after[0].amount) && after[1..] == before[k + 1..]
  }

  /** A round removes the entries it pays in full from the front and keeps the rest in
      order.  Every entry left has cycles left. */
  lemma {:induction false} RoundKeepsOrder(s: seq<Entry>, left: int)
    requires ValidEntries(s)
    ensures var r := PayRound(s, left);
            && ValidEntries(r.entries) && IsSuffix(r.entries, s)
            && r.finished == |s| - |r.entries|
    decreases |s|
  {
    hide ToDascoin, ToCycles, PartialDrift;
    if left > 0 && s != [] {
      var e, r := s[0], PayRound(s, left);
      var owed := ToDascoin(e.amount, e.frequency);
      if left >= owed {
        RoundKeepsOrder(s[1..], left - owed);
        if r.entries != [] {
          var k := |s| - |r.entries|;
          assert s[1..][k - 1] == s[k] && s[1..][k..] == s[k + 1..];
        }
      } else {
        PartialPayout(e, left);
        assert r.entries[1..] == s[1..];
      }
    }
  }

  /** The payments of a round that finishes `finished` entries of `s`. */
  predicate InOrder(payments: seq<Payment>, finished: nat, s: seq<Entry>) {
    && finished <= |s| && finished <= |payments| <= finished + 1
    && (forall i :: 0 <= i < finished ==> payments[i] == Payment(s[i].account, Owed()(s[i])))
    && (|payments| > finished ==>
          && finished < |s| && payments[finished].account == s[finished].account
          && 0 < payments[finished].amount < Owed()(s[finished]))
  }

  /** First come first served: a round pays a prefix of the queue in full and at most one
      more entry in part. */
  lemma {:induction false} RoundPaysInOrder(s: seq<Entry>, left: int)
    requires ValidEntries(s)
    ensures InOrder(PayRound(s, left).payments, PayRound(s, left).finished, s)
    decreases |s|
  {
    hide ToDascoin, ToCycles, PartialDrift;
    if left > 0 && s != [] {
      var owed := ToDascoin(s[0].amount, s[0].frequency);
      if left >= owed {
        RoundPaysInOrder(s[1..], left - owed);
        var r, t := PayRound(s, left), PayRound(s[1..], left - owed);
        assert forall i :: 1 <= i < |r.payments| ==> r.payments[i] == t.payments[i - 1];
        assert forall i :: 1 <= i < |s| ==> s[i] == s[1..][i - 1];
      }
    }
  }

  /** How much a round adds to minted plus owed by rounding: nothing for full payouts, and
      `PartialDrift` for the one partial payout, if there is one. */
  function Drift(s: seq<Entry>, left: int): int
    requires ValidEntries(s)
    decreases |s|
  {
    if left <= 0 || s == [] then 0
    else
      var owed := ToDascoin(s[0].amount, s[0].frequency);
      if left >= owed then Drift(s[1..], left - owed) else PartialDrift(s[0], left)
  }

  /** A round pays exactly the smaller of the reward and what the queue owes; paid and
      still owed exceed what was owed by the drift, which is between zero and `K`. */
  lemma {:induction false} RoundPays(s: seq<Entry>, left: int)
    requires ValidEntries(s)
    ensures var r := PayRound(s, left);
            && Sum(Paid(), r.payments) == (if left <= 0 then 0 else if left < TotalOwed(s) then left else TotalOwed(s))
            && Sum(Paid(), r.payments) + TotalOwed(r.entries) == TotalOwed(s) + Drift(s, left)
    ensures 0 <= Drift(s, left) <= K
    decreases |s|
  {
    hide ToDascoin, ToCycles, PartialDrift;
    TotalOwedNonNegative(s);
    if left > 0 && s != [] {
      var e, r := s[0], PayRound(s, left);
      var owed := ToDascoin(e.amount, e.frequency);
      TotalOwedNonNegative(s[1..]);
      if left >= owed {
        RoundPays(s[1..], left - owed);
        assert r.payments[1..] == PayRound(s[1..], left - owed).payments;
      } else {
        PartialPayout(e, left);
        assert r.entries[1..] == s[1..];
        SumOne(Paid(), r.payments[0]);
      }
    }
  }

  datatype Operation =
    | Submit(account: Account, amount: int, frequency: int)
    | Reward(reward: int)

  function Step(q: Queue, op: Operation): Queue
    requires ValidEntries(q.entries)
  {
    match op
    case Submit(account, amount, frequency) =>
      var r := GuardedPush(q, account, amount, frequency);
      if r.Some? then r.value else q
    case Reward(reward) => Mint(q, reward)
  }

  /** The rounding one operation adds. */
  function StepDrift(q: Queue, op: Operation): int
    requires ValidEntries(q.entries)
  {
    if op.Reward? then Drift(q.entries, op.reward) else 0
  }

  /** Entries are numbered in a row after the last one that was minted in full. */
  predicate Numbered(q: Queue) {
    && q.maxNumber == q.lastMinted + |q.entries|
    && forall i :: 0 <= i < |q.entries| ==> q.entries[i].number == q.lastMinted + 1 + i
  }

  /** The fast total is at most the true total, and behind it by at most `drift`; the true
      total exceeds the cap by at most `drift`. */
  ghost predicate Tracked(q: Queue, drift: int) {
    && ValidEntries(q.entries) && Numbered(q)
    && 0 <= TrueTotal(q) - FastTotal(q) <= drift
    && TrueTotal(q) <= CAP + drift
  }

  /** A submission goes to the end of the queue, under the next number, for the submitting
      account; the sum at its end grows by its worth, and nothing else changes. */
  lemma PushAppends(q: Queue, account: Account, amount: int, frequency: int)
    requires frequency > 0
    ensures var t := Push(q, account, amount, frequency);
            && |t.entries| == |q.entries| + 1 && t.entries[..|q.entries|] == q.entries
            && t.minted == q.minted && t.lastMinted == q.lastMinted && t.maxNumber == q.maxNumber + 1
            && var e := t.entries[|q.entries|];
               && e.number == t.maxNumber && e.account == account && e.amount == amount && e.frequency == frequency
               && e.historicSum == FastTotal(q) + amount * 10_000_000 / frequency
               && FastTotal(t) == e.historicSum
  {
  }

  lemma PushTracked(q: Queue, account: Account, amount: int, frequency: int, drift: int)
    requires Tracked(q, drift) && GuardedPush(q, account, amount, frequency).Some?
    ensures var t := GuardedPush(q, account, amount, frequency).value;
            && Tracked(t, drift)
            && TrueTotal(t) - FastTotal(t) == TrueTotal(q) - FastTotal(q)
            && FastTotal(t) <= CAP
  {
    hide ToDascoin;
    var t := Push(q, account, amount, frequency);
    SumAppend(Owed(), q.entries, t.entries[|q.entries|]);
  }

  lemma MintTracked(q: Queue, reward: int, drift: int)
    requires Tracked(q, drift)
    ensures Tracked(Mint(q, reward), drift + Drift(q.entries, reward))
    ensures TrueTotal(Mint(q, reward)) == TrueTotal(q) + Drift(q.entries, reward)
    ensures FastTotal(q) <= FastTotal(Mint(q, reward))
  {
    hide PayRound, ToDascoin, TotalOwed, Drift;
    RoundPays(q.entries, reward);
    RoundKeepsOrder(q.entries, reward);
    var r, t := PayRound(q.entries, reward), Mint(q, reward);
    var k := |q.entries| - |r.entries|;
    if r.entries == [] {
      assert TotalOwed([]) == 0 by { NothingOwed(); }
    } else {
      assert r.entries[|r.entries| - 1].historicSum == q.entries[|q.entries| - 1].historicSum by {
        if |r.entries| > 1 { assert r.entries[1..][|r.entries| - 2] == q.entries[k + 1..][|r.entries| - 2]; }
      }
      forall i | 0 <= i < |r.entries| ensures r.entries[i].number == t.lastMinted + 1 + i {
        if i > 0 { assert r.entries[1..][i - 1] == q.entries[k + 1..][i - 1]; }
      }
    }
  }

  lemma NothingOwed()
    ensures TotalOwed([]) == 0
  {
  }

  function Run(q: Queue, ops: seq<Operation>): (r: Queue)
    requires ValidEntries(q.entries)
    decreases |ops|
  {
    if ops == [] then q
    else
      StepKeepsEntries(q, ops[0]);
      Run(Step(q, ops[0]), ops[1..])
  }

  function RunDrift(q: Queue, ops: seq<Operation>): int
    requires ValidEntries(q.entries)
    decreases |ops|
  {
    if ops == [] then 0
    else
      StepKeepsEntries(q, ops[0]);
      StepDrift(q, ops[0]) + RunDrift(Step(q, ops[0]), ops[1..])
  }

  lemma StepKeepsEntries(q: Queue, op: Operation)
    requires ValidEntries(q.entries)
    ensures ValidEntries(Step(q, op).entries)
  {
    if op.Reward? {
      RoundKeepsOrder(q.entries, op.reward);
    }
  }

  /** Over every run of guarded submissions and reward rounds: the fast total never exceeds
      the true total, lags behind it by at most the accumulated rounding, and minted plus
      owed never exceeds the cap by more than that rounding, which is at most `K` a round. */
  lemma {:induction false} RunTracked(q: Queue, ops: seq<Operation>, drift: int)
    requires Tracked(q, drift) && drift >= 0
    ensures Tracked(Run(q, ops), drift + RunDrift(q, ops))
    ensures 0 <= RunDrift(q, ops) <= K * |ops|
    decreases |ops|
  {
    hide Tracked, Drift, Mint, GuardedPush;
    if ops != [] {
      TrackedEntries(q, drift);
      StepKeepsEntries(q, ops[0]);
      match ops[0] {
        case Submit(account, amount, frequency) =>
          if GuardedPush(q, account, amount, frequency).Some? {
            PushTracked(q, account, amount, frequency, drift);
          }
        case Reward(reward) =>
          MintTracked(q, reward, drift);
          RoundPays(q.entries, reward);
      }
      RunTracked(Step(q, ops[0]), ops[1..], drift + StepDrift(q, ops[0]));
    }
  }

  /** What one operation adds to minted plus owed by an accepted submission. */
  function StepAccepted(q: Queue, op: Operation): int
    requires ValidEntries(q.entries)
  {
    if op.Submit? && GuardedPush(q, op.account, op.amount, op.frequency).Some? then ToDascoin(op.amount, op.frequency)
    else 0
  }

  lemma StepTotal(q: Queue, op: Operation)
    requires ValidEntries(q.entries)
    ensures TrueTotal(Step(q, op)) == TrueTotal(q) + StepAccepted(q, op) + StepDrift(q, op)
  {
    hide ToDascoin, PayRound, Drift;
    match op
    case Submit(account, amount, frequency) =>
      if GuardedPush(q, account, amount, frequency).Some? {
        var t := Push(q, account, amount, frequency);
        SumAppend(Owed(), q.entries, t.entries[|q.entries|]);
      }
    case Reward(reward) => RoundPays(q.entries, reward);
  }

  /** Which operation takes minted plus owed past the cap: a submission that the fast total
      lets through, or a round whose partial payout rounds up by more than there is room. */
  lemma PassesCapExactly(q: Queue, op: Operation)
    requires ValidEntries(q.entries)
    ensures TrueTotal(q) <= CAP < TrueTotal(Step(q, op)) <==>
            && TrueTotal(q) <= CAP
            && match op {
                 case Submit(_, amount, frequency) =>
                   && amount > 0 && frequency > 0
                   && CAP - TrueTotal(q) < ToDascoin(amount, frequency) <= CAP - FastTotal(q)
                 case Reward(reward) => CAP - TrueTotal(q) < Drift(q.entries, reward)
               }
  {
    hide ToDascoin, Drift, PayRound, TrueTotal, Step;
    StepTotal(q, op);
    if op.Submit? {
      PushGuard(q, op.account, op.amount, op.frequency);
    }
  }

  lemma PushGuard(q: Queue, account: Account, amount: int, frequency: int)
    ensures GuardedPush(q, account, amount, frequency).Some? <==>
            amount > 0 && frequency > 0 && ToDascoin(amount, frequency) <= CAP - FastTotal(q)
  {
  }

  function Accepted(q: Queue, ops: seq<Operation>): int
    requires ValidEntries(q.entries)
    decreases |ops|
  {
    if ops == [] then 0
    else
      StepKeepsEntries(q, ops[0]);
      StepAccepted(q, ops[0]) + Accepted(Step(q, ops[0]), ops[1..])
  }

  /** Over every run minted plus owed grows by what was accepted and by the rounding, so it
      passes the cap exactly if the two together are more than there was room. */
  lemma {:induction false} RunTotal(q: Queue, ops: seq<Operation>)
    requires ValidEntries(q.entries)
    ensures TrueTotal(Run(q, ops)) == TrueTotal(q) + Accepted(q, ops) + RunDrift(q, ops)
    ensures TrueTotal(Run(q, ops)) > CAP <==> Accepted(q, ops) + RunDrift(q, ops) > CAP - TrueTotal(q)
    decreases |ops|
  {
    hide Step, StepAccepted, StepDrift, TrueTotal, ValidEntries;
    if ops != [] {
      StepKeepsEntries(q, ops[0]);
      StepTotal(q, ops[0]);
      RunTotal(Step(q, ops[0]), ops[1..]);
    }
  }

  lemma TrackedEntries(q: Queue, drift: int)
    requires Tracked(q, drift)
    ensures ValidEntries(q.entries)
  {
  }

  /** The fast total can lag behind, and the cap can be exceeded: from an empty queue, one
      submission up to the cap, a round that leaves a single cycle, and a round that pays a
      single unit. */
  lemma CapMayBeExceeded()
    ensures var ops := [Submit(0, 6_588_333_000, 200), Reward(CAP - 50_000), Reward(1)];
            var q := Run(Queue([], 0, 0, 0), ops);
            && Tracked(Queue([], 0, 0, 0), 0)
            && FastTotal(q) == CAP && TrueTotal(q) == CAP + 1
  {
    hide Run, Step, Mint, ToDascoin, ToCycles, Tracked, FastTotal, TrueTotal, ValidEntries, ValidEntry;
    var empty, ops := Queue([], 0, 0, 0), [Submit(0, 6_588_333_000, 200), Reward(CAP - 50_000), Reward(1)];
    var full := Queue([Entry(1, 0, 6_588_333_000, 200, CAP)], 0, 0, 1);
    var rest := Queue([Entry(1, 0, 1, 200, CAP)], CAP - 50_000, 0, 1);
    EmptyIsTracked();
    Conversions();
    FillUp();
    OneIsValid(full);
    OneIsValid(rest);
    MintPartly(full, CAP - 50_000);
    MintPartly(rest, 1);
    RewardStep(full, CAP - 50_000);
    RewardStep(rest, 1);
    RunThree(empty, ops);
    OneCycleLeft();
  }

  lemma EmptyIsTracked()
    ensures Tracked(Queue([], 0, 0, 0), 0) && ValidEntries([])
  {
    NothingOwed();
  }

  lemma FillUp()
    ensures Step(Queue([], 0, 0, 0), Submit(0, 6_588_333_000, 200))
            == Queue([Entry(1, 0, 6_588_333_000, 200, CAP)], 0, 0, 1)
  {
    hide ToDascoin;
    Conversions();
  }

  lemma OneIsValid(q: Queue)
    requires |q.entries| == 1 && q.entries[0].amount > 0 && q.entries[0].frequency > 0
    ensures ValidEntries(q.entries) && ValidEntry(q.entries[0])
  {
  }

  lemma RewardStep(q: Queue, reward: int)
    requires ValidEntries(q.entries)
    ensures Step(q, Reward(reward)) == Mint(q, reward)
  {
  }

  lemma OneCycleLeft()
    ensures var q := Queue([Entry(1, 0, 1, 200, CAP)], CAP - 49_999, 0, 1);
            FastTotal(q) == CAP && TrueTotal(q) == CAP + 1
  {
    hide ToDascoin;
    Conversions();
    SumOne(Owed(), Entry(1, 0, 1, 200, CAP));
  }

  lemma Conversions()
    ensures ToDascoin(6_588_333_000, 200) == CAP && ToCycles(CAP - 50_000, 200) == 6_588_332_999
    ensures ToDascoin(1, 200) == 50_000 && ToCycles(1, 200) == 0
  {
  }

  /** A round over a single entry that it cannot pay in full. */
  lemma MintPartly(q: Queue, reward: int)
    requires |q.entries| == 1 && ValidEntry(q.entries[0])
    requires 0 < reward < ToDascoin(q.entries[0].amount, q.entries[0].frequency)
    ensures var e := q.entries[0];
            Mint(q, reward) == Queue([e.(amount := e.amount - ToCycles(reward, e.frequency))],
                                     q.minted + reward, q.lastMinted, q.maxNumber)
  {
    hide ToDascoin, ToCycles;
    SumOne(Paid(), Payment(q.entries[0].account, reward));
  }

  lemma RunThree(q: Queue, ops: seq<Operation>)
    requires ValidEntries(q.entries) && |ops| == 3
    ensures ValidEntries(Step(q, ops[0]).entries)
    ensures ValidEntries(Step(Step(q, ops[0]), ops[1]).entries)
    ensures Run(q, ops) == Step(Step(Step(q, ops[0]), ops[1]), ops[2])
  {
    hide Step, ValidEntries, Run;
    RunStep(q, ops);
    RunStep(Step(q, ops[0]), ops[1..]);
    assert ops[1..][1..] == ops[2..];
    RunStep(Step(Step(q, ops[0]), ops[1]), ops[2..]);
    assert ops[2..][1..] == [];
    RunNothing(Step(Step(Step(q, ops[0]), ops[1]), ops[2]));
  }

  lemma RunStep(q: Queue, ops: seq<Operation>)
    requires ValidEntries(q.entries) && ops != []
    ensures ValidEntries(Step(q, ops[0]).entries) && Run(q, ops) == Run(Step(q, ops[0]), ops[1..])
  {
    hide Step;
    StepKeepsEntries(q, ops[0]);
  }

  lemma RunNothing(q: Queue)
    requires ValidEntries(q.entries)
    ensures Run(q, []) == q
  {
  }

  /** Issue all payments of a round, in order. */
  function IssueAll(l: Ledger, asset: AssetId, payments: seq<Payment>): Option<Ledger>
    decreases |payments|
  {
    if payments == [] then Some(l)
    else match Issue(l, payments[0].account, asset, payments[0].amount, 0)
      case None => None
      case Some(m) => IssueAll(m, asset, payments[1..])
  }

  /** A round can be paid exactly if every account that gets something has a balance of the
      asset, and the asset is listed. */
  lemma {:induction false} IssueAllAcceptedExactly(l: Ledger, asset: AssetId, payments: seq<Payment>)
    ensures IssueAll(l, asset, payments).Some? <==>
            forall p :: p in payments ==> Has(l, p.account, asset) && (p.amount == 0 || asset in l.assets)
    decreases |payments|
  {
    hide Issue, Has;
    if payments != [] {
      var p := payments[0];
      RawAcceptedExactly(l, p.account, asset, p.amount, 0);
      assert forall x :: x in payments <==> x == p || x in payments[1..];
      if Issue(l, p.account, asset, p.amount, 0).Some? {
        var m := Issue(l, p.account, asset, p.amount, 0).value;
        IssueKeepsObjects(l, p.account, asset, p.amount);
        IssueAllAcceptedExactly(m, asset, payments[1..]);
      }
    }
  }

  lemma IssueKeepsObjects(l: Ledger, owner: Account, asset: AssetId, amount: int)
    requires Issue(l, owner, asset, amount, 0).Some?
    ensures var m := Issue(l, owner, asset, amount, 0).value;
            m.assets.Keys == l.assets.Keys && forall o, a :: Has(m, o, a) == Has(l, o, a)
  {
    var m := Issue(l, owner, asset, amount, 0).value;
    forall o, a ensures Has(m, o, a) == Has(l, o, a) {
      if b :| b in l.balances && b.owner == o && b.asset == a {
        var i :| 0 <= i < |l.balances| && l.balances[i] == b;
        assert m.balances[i] in m.balances;
      }
      if b :| b in m.balances && b.owner == o && b.asset == a {
        var i :| 0 <= i < |m.balances| && m.balances[i] == b;
        assert l.balances[i] in l.balances;
      }
    }
  }

  /** The supply grows by exactly what a round pays, and balances with it. */
  lemma {:induction false} IssueAllMoves(l: Ledger, asset: AssetId, payments: seq<Payment>)
    requires IssueAll(l, asset, payments).Some?
    ensures var m := IssueAll(l, asset, payments).value;
            forall a :: && Held(m, a) - Supply(m, a) == Held(l, a) - Supply(l, a)
                        && Supply(m, a) == Supply(l, a) + (if a == asset then Sum(Paid(), payments) else 0)
                        && Fees(m, a) == Fees(l, a)
    decreases |payments|
  {
    hide Issue, Held, Supply, Fees;
    if payments != [] {
      IssueMoves(l, payments[0].account, asset, payments[0].amount, 0);
      IssueAllMoves(Issue(l, payments[0].account, asset, payments[0].amount, 0).value, asset, payments[1..]);
    }
  }

  function PaidTo(o: Account): Payment -> int {
    (p: Payment) => if p.account == o then p.amount else 0
  }

  /** Every account receives the sum of its payments. */
  lemma {:induction false} IssueAllPays(l: Ledger, asset: AssetId, payments: seq<Payment>)
    requires IssueAll(l, asset, payments).Some?
    ensures var m := IssueAll(l, asset, payments).value;
            forall o, a :: Owned(m, o, a) == Owned(l, o, a) + (if a == asset then Sum(PaidTo(o), payments) else 0)
    decreases |payments|
  {
    hide Issue, Owned, GetBalance;
    if payments != [] {
      IssuePays(l, payments[0].account, asset, payments[0].amount, 0);
      IssueAllPays(Issue(l, payments[0].account, asset, payments[0].amount, 0).value, asset, payments[1..]);
    }
  }

  lemma {:induction false} IssueAllAppend(l: Ledger, asset: AssetId, payments: seq<Payment>, p: Payment)
    ensures IssueAll(l, asset, payments + [p]) ==
            match IssueAll(l, asset, payments)
            case None => None
            case Some(m) => Issue(m, p.account, asset, p.amount, 0)
    decreases |payments|
  {
    hide Issue;
    var all := payments + [p];
    if payments == [] {
      assert all[1..] == [];
    } else {
      assert all[1..] == payments[1..] + [p];
      match Issue(l, payments[0].account, asset, payments[0].amount, 0)
      case None =>
      case Some(m) => IssueAllAppend(m, asset, payments[1..], p);
    }
  }

  lemma {:induction false} IssueAllFails(l: Ledger, asset: AssetId, first: seq<Payment>, more: seq<Payment>)
    requires IssueAll(l, asset, first).None?
    ensures IssueAll(l, asset, first + more).None?
    decreases |first|
  {
    hide Issue;
    assert (first + more)[1..] == first[1..] + more;
    match Issue(l, first[0].account, asset, first[0].amount, 0)
    case None =>
    case Some(m) => IssueAllFails(m, asset, first[1..], more);
  }

  /** The payment and the queue after one turn of the loop. */
  function Turn(s: seq<Entry>, left: int): (Payment, seq<Entry>)
    requires ValidEntries(s) && s != []
  {
    var e := s[0];
    var owed := ToDascoin(e.amount, e.frequency);
    if left >= owed then (Payment(e.account, owed), s[1..])
    else (Payment(e.account, left), [e.(amount := e.amount - ToCycles(left, e.frequency))] + s[1..])
  }

  lemma RoundTurns(s: seq<Entry>, left: int)
    requires ValidEntries(s) && s != [] && left > 0
    ensures var (p, rest) := Turn(s, left);
            && ValidEntries(rest)
            && |s| - 1 <= |rest| <= |s| && (|rest| == |s| ==> p.amount == left)
            && PayRound(s, left) == var r := PayRound(rest, left - p.amount);
                                    Round(r.entries, [p] + r.payments, |s| - |rest| + r.finished)
  {
    hide ToDascoin, ToCycles;
    if left < ToDascoin(s[0].amount, s[0].frequency) {
      PartialPayout(s[0], left);
    }
  }

  /** The loop of `mint_dascoin_rewards`: the queue after the round, the ledger with all
      payments issued, their total, and the number of entries paid in full. */
  method PayQueue(s: seq<Entry>, reward: int, l: Ledger, asset: AssetId)
      returns (entries: seq<Entry>, r: Option<Ledger>, total: int, finished: nat)
    requires ValidEntries(s)
    ensures var round := PayRound(s, reward);
            && r == IssueAll(l, asset, round.payments)
            && (r.Some? ==>
                  && entries == round.entries && finished == round.finished
                  && total == Sum(Paid(), round.payments))
  {
    hide ToDascoin, ToCycles, Issue, PayRound, IssueAll, ValidEntries, Turn, Sum;
    var left := reward;
    entries, r, total, finished := s, Some(l), 0, 0;
    ghost var all, done := PayRound(s, reward), [];
    assert all.payments == done + all.payments;
    NothingIssued(l, asset);
    while left > 0 && entries != []
      invariant ValidEntries(entries) && r.Some?
      invariant var rest := PayRound(entries, left);
                all == Round(rest.entries, done + rest.payments, finished + rest.finished)
      invariant total == Sum(Paid(), done)
      invariant IssueAll(l, asset, done) == r
      decreases |entries|, left
    {
      RoundTurns(entries, left);
      var (p, next) := Turn(entries, left);
      IssueAllAppend(l, asset, done, p);
      SumAppend(Paid(), done, p);
      ghost var more := PayRound(next, left - p.amount).payments;
      assert all.payments == (done + [p]) + more;
      r := Issue(r.value, p.account, asset, p.amount, 0);
      if r.None? {
        IssueAllFails(l, asset, done + [p], more);
        return;
      }
      if |next| < |entries| {
        finished := finished + 1;
      }
      entries, total, left := next, total + p.amount, left - p.amount;
      done := done + [p];
    }
    RoundEnds(entries, left);
    assert done + [] == done;
  }

  lemma NothingIssued(l: Ledger, asset: AssetId)
    ensures IssueAll(l, asset, []) == Some(l) && Sum(Paid(), []) == 0
  {
  }

  lemma RoundEnds(s: seq<Entry>, left: int)
    requires ValidEntries(s) && (left <= 0 || s == [])
    ensures PayRound(s, left) == Round(s, [], 0)
  {
  }

  class RewardDatabase {
    var queue: Queue
    var ledger: Ledger
    const dascoin: AssetId

    constructor (q: Queue, l: Ledger, asset: AssetId)
      ensures queue == q && ledger == l && dascoin == asset
    {
      queue, ledger, dascoin := q, l, asset;
    }

    /** A guarded submission. */
    method Submit(account: Account, amount: int, frequency: int) returns (ok: bool)
      modifies this
      ensures ledger == old(ledger)
      ensures ok <==> amount > 0 && frequency > 0 && FastTotal(old(queue)) + ToDascoin(amount, frequency) <= CAP
      ensures ok ==> FastTotal(queue) == FastTotal(old(queue)) + ToDascoin(amount, frequency) <= CAP
      ensures ok ==>
              && |queue.entries| == |old(queue.entries)| + 1
                   && queue.entries[..|old(queue.entries)|] == old(queue.entries)
              && var e := queue.entries[|old(queue.entries)|];
                 e.account == account && e.amount == amount && e.frequency == frequency && e.number == queue.maxNumber
      ensures forall drift :: Tracked(old(queue), drift) ==> Tracked(queue, drift)
      ensures ok == GuardedPush(old(queue), account, amount, frequency).Some?
      ensures queue == if ok then GuardedPush(old(queue), account, amount, frequency).value else old(queue)
    {
      if amount <= 0 || frequency <= 0 {
        return false;
      }
      var dascoinAmount := amount * K / frequency;
      var total := if queue.entries == [] then queue.minted else queue.entries[|queue.entries| - 1].historicSum;
      if dascoinAmount + total > CAP {
        return false;
      }
      var number := queue.maxNumber + 1;
      var e := Entry(number, account, amount, frequency, total + dascoinAmount);
      forall drift | Tracked(queue, drift)
        ensures Tracked(GuardedPush(queue, account, amount, frequency).value, drift)
      {
        PushTracked(queue, account, amount, frequency, drift);
      }
      queue := queue.(entries := queue.entries + [e], maxNumber := number);
      ok := true;
    }

    /** `mint_dascoin_rewards`: pay from the front until the reward or the queue is used
        up.  If an account cannot be paid the round fails as a whole. */
    method MintRewards(reward: int) returns (ok: bool)
      requires ValidEntries(queue.entries)
      modifies this
      ensures ok == IssueAll(old(ledger), dascoin, PayRound(old(queue).entries, reward).payments).Some?
      ensures ok ==> queue == Mint(old(queue), reward)
      ensures ok ==> ledger == IssueAll(old(ledger), dascoin, PayRound(old(queue).entries, reward).payments).value
      ensures !ok ==> queue == old(queue) && ledger == old(ledger)
    {
      var entries, r, total, finished := PayQueue(queue.entries, reward, ledger, dascoin);
      ok := r.Some?;
      if ok {
        queue := Queue(entries, queue.minted + total, queue.lastMinted + finished, queue.maxNumber);
        ledger := r.value;
      }
    }
  }
}
