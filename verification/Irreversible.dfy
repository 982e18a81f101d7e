/** The last irreversible block: the highest block that enough witnesses have confirmed. */
module Irreversible {
  import opened Permutations

  type Witness = nat

  const HUNDRED_PERCENT := 10_000
  const THRESHOLD := 7_000
  const MAX_UNDO_HISTORY := 10_000

  /** Whole witnesses needed to reach the threshold, rounded up. */
  function Quorum(n: nat): int {
    (THRESHOLD * n + HUNDRED_PERCENT - 1) / HUNDRED_PERCENT
  }

  /** The position in ascending order that decides. */
  function Offset(n: nat): int {
    (HUNDRED_PERCENT - THRESHOLD) * n / HUNDRED_PERCENT
  }

  function CountAtLeast(s: seq<int>, x: int): nat {
    if s == [] then 0 else (if s[0] >= x then 1 else 0) + CountAtLeast(s[1..], x)
  }

  /** A quorum is the least number of witnesses that is at least seventy percent of them. */
  lemma QuorumIs(n: nat)
    ensures 10 * (Quorum(n) - 1) < 7 * n <= 10 * Quorum(n)
  {
  }

  /** What `nth_element` promises: some permutation with the `k`-th smallest in position `k`. */
  ghost predicate IsNth(s: seq<int>, k: nat, t: seq<int>) {
    && multiset(t) == multiset(s) && |t| == |s| && k < |t|
    && (forall i :: 0 <= i < k ==> t[i] <= t[k])
    && (forall i :: k < i < |t| ==> t[k] <= t[i])
  }

  /** Everything before position `i` is at most everything after it. */
  ghost predicate Selected(t: seq<int>, i: nat) {
    forall p, q :: 0 <= p < i && p < q < |t| ==> t[p] <= t[q]
  }

  /** Bring the `k + 1` smallest to the front, in order. */
  method NthElement(s: seq<int>, k: nat) returns (t: seq<int>)
    requires k < |s|
    ensures IsNth(s, k, t)
  {
    t := s;
    var i := 0;
    while i <= k
      invariant 0 <= i <= k + 1 && |t| == |s| && multiset(t) == multiset(s)
      invariant Selected(t, i)
    {
      var least := Least(t, i);
      SwapPermutes(t, i, least);
      SwapSelects(t, i, least);
      t := Swapped(t, i, least);
      i := i + 1;
    }
  }

  method Least(t: seq<int>, i: nat) returns (m: nat)
    requires i < |t|
    ensures i <= m < |t| && forall q :: i <= q < |t| ==> t[m] <= t[q]
  {
    m := i;
    var q := i;
    while q < |t|
      invariant i <= q <= |t| && i <= m < |t|
      invariant forall p :: i <= p < q ==> t[m] <= t[p]
    {
      if t[q] < t[m] {
        m := q;
      }
      q := q + 1;
    }
  }

  lemma SwapSelects(t: seq<int>, i: nat, m: nat)
    requires i <= m < |t| && Selected(t, i) && forall q :: i <= q < |t| ==> t[m] <= t[q]
    ensures Selected(Swapped(t, i, m), i + 1)
  {
  }

  lemma {:induction false} CountSplit(s: seq<int>, t: seq<int>, x: int)
    ensures CountAtLeast(s + t, x) == CountAtLeast(s, x) + CountAtLeast(t, x)
    decreases |s|
  {
    if s == [] {
      assert s + t == t;
    } else {
      assert (s + t)[1..] == s[1..] + t;
      CountSplit(s[1..], t, x);
    }
  }

  lemma {:induction false} CountBounds(s: seq<int>, x: int)
    ensures CountAtLeast(s, x) <= |s|
    ensures (forall i :: 0 <= i < |s| ==> s[i] >= x) ==> CountAtLeast(s, x) == |s|
    ensures (forall i :: 0 <= i < |s| ==> s[i] < x) ==> CountAtLeast(s, x) == 0
    decreases |s|
  {
    if s != [] {
      CountBounds(s[1..], x);
    }
  }

  lemma CountWithout(t: seq<int>, k: nat, x: int)
    requires k < |t|
    ensures CountAtLeast(t, x) == CountAtLeast(t[..k] + t[k + 1..], x) + if t[k] >= x then 1 else 0
  {
    assert t == t[..k] + ([t[k]] + t[k + 1..]);
    CountSplit(t[..k], [t[k]] + t[k + 1..], x);
    CountSplit([t[k]], t[k + 1..], x);
    CountSplit(t[..k], t[k + 1..], x);
    assert CountAtLeast([t[k]], x) == if t[k] >= x then 1 else 0;
  }

  /** Counting does not depend on the order. */
  lemma {:induction false} CountPermuted(s: seq<int>, t: seq<int>, x: int)
    requires multiset(s) == multiset(t)
    ensures CountAtLeast(s, x) == CountAtLeast(t, x)
    decreases |s|
  {
    hide CountAtLeast;
    if s == [] {
      NoneLeft(t);
    } else {
      var k := FindIn(s, 0, t);
      CountWithout(t, k, x);
      CountWithout(s, 0, x);
      Without(t, k);
      Without(s, 0);
      CountPermuted(s[..0] + s[1..], t[..k] + t[k + 1..], x);
    }
  }

  /** The `k`-th smallest is at least `x` exactly if all but `k` numbers are at least `x`. */
  lemma NthCounts(s: seq<int>, k: nat, t: seq<int>, x: int)
    requires IsNth(s, k, t)
    ensures t[k] >= x <==> CountAtLeast(s, x) >= |s| - k
  {
    hide CountAtLeast;
    CountPermuted(s, t, x);
    CountParts(t, k, x);
    CountBounds(t[..k], x);
    CountBounds(t[k + 1..], x);
  }

  lemma CountParts(t: seq<int>, k: nat, x: int)
    requires k < |t|
    ensures CountAtLeast(t, x) == CountAtLeast(t[..k], x) + (if t[k] >= x then 1 else 0) + CountAtLeast(t[k + 1..], x)
  {
    CountWithout(t, k, x);
    CountSplit(t[..k], t[k + 1..], x);
  }

  /** The number `update_last_irreversible_block` computes is the largest block number that
      at least the quorum of the active witnesses has confirmed. */
  lemma CandidateIsLargest(confirmed: seq<int>, t: seq<int>, x: int)
    requires confirmed != [] && 0 <= Offset(|confirmed|) && IsNth(confirmed, Offset(|confirmed|), t)
    ensures x <= t[Offset(|confirmed|)] <==> CountAtLeast(confirmed, x) >= Quorum(|confirmed|)
  {
    NthCounts(confirmed, Offset(|confirmed|), t, x);
    OffsetIsQuorum(|confirmed|);
  }

  lemma OffsetIsQuorum(n: nat)
    ensures n - Offset(n) == Quorum(n)
    ensures n > 0 ==> 0 <= Offset(n) < n
  {
  }

  /** How many witnesses confirmed `x` in one view and `y` in another. */
  function CountBoth(s: seq<int>, x: int, t: seq<int>, y: int): nat
    requires |s| == |t|
  {
    if s == [] then 0 else (if s[0] >= x && t[0] >= y then 1 else 0) + CountBoth(s[1..], x, t[1..], y)
  }

  lemma {:induction false} CountOverlap(s: seq<int>, x: int, t: seq<int>, y: int)
    requires |s| == |t|
    ensures CountAtLeast(s, x) + CountAtLeast(t, y) <= |s| + CountBoth(s, x, t, y)
    decreases |s|
  {
    if s != [] {
      CountOverlap(s[1..], x, t[1..], y);
    }
  }

  /** Two views of the same witnesses: whatever blocks the two hold irreversible, at least
      two quorums less all witnesses, two fifths of them, confirmed both. */
  lemma QuorumsOverlap(s: seq<int>, x: int, t: seq<int>, y: int)
    requires |s| == |t| && CountAtLeast(s, x) >= Quorum(|s|) && CountAtLeast(t, y) >= Quorum(|t|)
    ensures CountBoth(s, x, t, y) >= 2 * Quorum(|s|) - |s|
    ensures 10 * CountBoth(s, x, t, y) >= 4 * |s|
  {
    CountOverlap(s, x, t, y);
  }

  /** Every witness's last confirmed block, the active witnesses, head and irreversible block. */
  datatype Chain = Chain(head: nat, lib: nat, active: seq<Witness>, confirmed: map<Witness, nat>)

  predicate Valid(c: Chain) {
    && c.active != [] && (forall w :: w in c.active ==> w in c.confirmed)
    && (forall w :: w in c.confirmed ==> c.confirmed[w] <= c.head)
    && c.lib <= c.head < c.lib + MAX_UNDO_HISTORY
  }

  function Confirmations(active: seq<Witness>, confirmed: map<Witness, nat>): (r: seq<int>)
    requires forall w :: w in active ==> w in confirmed
    ensures |r| == |active| && forall i :: 0 <= i < |r| ==> r[i] == confirmed[active[i]]
  {
    if active == [] then [] else [confirmed[active[0]]] + Confirmations(active[1..], confirmed)
  }

  /** `t` is what applying a block signed by `w` may make of `c`: the witness confirms the
      new block, the irreversible block moves up to the candidate. */
  ghost predicate Applies(c: Chain, w: Witness, t: Chain)
    requires Valid(c)
  {
    && w in c.active && c.head + 1 - c.lib < MAX_UNDO_HISTORY
    && t.head == c.head + 1 && t.active == c.active && t.confirmed == c.confirmed[w := c.head + 1]
    && exists u :: && IsNth(Confirmations(t.active, t.confirmed), Offset(|t.active|), u)
                   && t.lib == if u[Offset(|t.active|)] > c.lib then u[Offset(|t.active|)] else c.lib
  }

  /** Applying a block keeps the irreversible block at or below the head and never lowers
      it; it rises only to a block that a quorum confirmed, and to no less than any. */
  lemma ApplyKeeps(c: Chain, w: Witness, t: Chain)
    requires Valid(c) && Applies(c, w, t)
    ensures Valid(t) && c.lib <= t.lib <= t.head
    ensures t.lib > c.lib ==> CountAtLeast(Confirmations(t.active, t.confirmed), t.lib) >= Quorum(|t.active|)
    ensures forall x: int :: CountAtLeast(Confirmations(t.active, t.confirmed), x) >= Quorum(|t.active|) ==> x <= t.lib
  {
    hide CountAtLeast, Quorum;
    OffsetIsQuorum(|t.active|);
    hide Offset;
    var s, k := Confirmations(t.active, t.confirmed), Offset(|t.active|);
    var u :| IsNth(s, k, u) && t.lib == if u[k] > c.lib then u[k] else c.lib;
    forall x: int ensures x <= u[k] <==> CountAtLeast(s, x) >= Quorum(|s|) {
      CandidateIsLargest(s, u, x);
    }
    var i := FindIn(u, k, s);
  }

  /** The maintenance step may change the active witnesses; new ones confirmed nothing yet. */
  ghost predicate Elects(c: Chain, t: Chain) {
    && t.head == c.head && t.lib == c.lib && t.active != []
    && (forall w :: w in c.confirmed ==> w in t.confirmed && t.confirmed[w] == c.confirmed[w])
    && (forall w :: w in t.confirmed && w !in c.confirmed ==> t.confirmed[w] == 0)
    && (forall w :: w in t.active ==> w in t.confirmed)
  }

  ghost predicate Steps(c: Chain, t: Chain)
    requires Valid(c)
  {
    (exists w :: Applies(c, w, t)) || Elects(c, t)
  }

  /** A run of the chain from a valid state: every state follows from the one before. */
  ghost predicate IsRun(run: seq<Chain>) {
    && run != [] && Valid(run[0])
    && forall i {:trigger run[i]} :: 0 <= i < |run| - 1 && Valid(run[i]) ==> Steps(run[i], run[i + 1])
  }

  lemma StepKeeps(c: Chain, t: Chain)
    requires Valid(c) && Steps(c, t)
    ensures Valid(t) && c.lib <= t.lib
  {
    hide Applies;
    if !Elects(c, t) {
      var w :| Applies(c, w, t);
      ApplyKeeps(c, w, t);
    }
  }

  /** Along every run the irreversible block never goes down and never passes the head, and
      the undo history always reaches back to it. */
  lemma {:induction false} NeverReverted(run: seq<Chain>, i: nat, j: nat)
    requires IsRun(run) && i <= j < |run|
    ensures Valid(run[j]) && run[i].lib <= run[j].lib <= run[j].head < run[j].lib + MAX_UNDO_HISTORY
    decreases j
  {
    hide Steps;
    if i < j {
      NeverReverted(run, i, j - 1);
      StepKeeps(run[j - 1], run[j]);
    } else if j > 0 {
      NeverReverted(run, j - 1, j - 1);
      StepKeeps(run[j - 1], run[j]);
    }
  }

  class WitnessDatabase {
    var chain: Chain

    constructor (c: Chain)
      ensures chain == c
    {
      chain := c;
    }

    /** The bookkeeping of one block: head number, the signer's confirmation, and the last
        irreversible block.  Refused if the undo history would become too long. */
    method ApplyBlock(w: Witness) returns (ok: bool)
      requires Valid(chain) && w in chain.active
      modifies this
      ensures ok == (old(chain).head + 1 - old(chain).lib < 10_000)
      ensures ok ==> Applies(old(chain), w, chain)
      ensures ok ==>
              && chain.head == old(chain).head + 1 && chain.active == old(chain).active
              && w in chain.confirmed && chain.confirmed[w] == chain.head
              && chain.confirmed.Keys == old(chain).confirmed.Keys
              && (forall v :: v in old(chain).confirmed && v != w ==> chain.confirmed[v] == old(chain).confirmed[v])
      ensures !ok ==> chain == old(chain)
    {
      hide Offset;
      if chain.head + 1 - chain.lib >= MAX_UNDO_HISTORY {
        return false;
      }
      var head := chain.head + 1;
      var confirmed := chain.confirmed[w := head];
      var offset := Offset(|chain.active|);
      OffsetIsQuorum(|chain.active|);
      var s := Confirmations(chain.active, confirmed);
      var t := NthElement(s, offset);
      var lib := chain.lib;
      ghost var i := FindIn(t, offset, s);
      if t[offset] > lib {
        lib := t[offset];
      }
      chain := Chain(head, lib, chain.active, confirmed);
      ok := true;
    }
  }
}
