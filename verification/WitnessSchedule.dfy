/** The 64-bit generator that drives the shuffle. */
module XorShift {
  const TWO_32 := 0x1_0000_0000
  const TWO_64 := 0x1_0000_0000_0000_0000
  const MULTIPLIER: bv64 := 2685821657736338717

  /** The number for position `i` at a time in seconds. */
  function Mix(seconds: nat, i: nat): nat {
    var nowHi := ((seconds % TWO_32) as bv64) << 32;
    var k0 := nowHi + ((i % TWO_64) as bv64) * MULTIPLIER;
    var k1 := k0 ^ (k0 >> 12);
    var k2 := k1 ^ (k1 << 25);
    var k3 := k2 ^ (k2 >> 27);
    (k3 * MULTIPLIER) as nat
  }

  /** Two of the numbers. */
  lemma Samples()
    ensures Mix(1, 0) == 4396774442519208864
    ensures Mix(1, 1) == 16292610654323759860
  {
    assert Mix(1, 0) == 4396774442519208864;
    assert Mix(1, 1) == 16292610654323759860;
  }
}

/** Block slots and the shuffled order of the witnesses who produce in them. */
module WitnessSchedule {
  import opened Arithmetic
  import opened Permutations
  import XorShift

  type Witness = int

  /** The position that is swapped with position `i` of `n`. */
  function Partner(random: nat -> nat, i: nat, n: nat): (j: nat)
    requires i < n
    ensures i <= j < n
  {
    i + random(i) % (n - i)
  }

  /** Swap every position from `i` on with its partner, in order. */
  function ShuffledFrom(s: seq<Witness>, i: nat, random: nat -> nat): (r: seq<Witness>)
    requires i <= |s|
    ensures |r| == |s|
    decreases |s| - i
  {
    if i == |s| then s else ShuffledFrom(Swapped(s, i, Partner(random, i, |s|)), i + 1, random)
  }

  function Generator(seconds: nat): nat -> nat {
    (i: nat) => XorShift.Mix(seconds, i)
  }

  function Shuffled(active: seq<Witness>, seconds: nat): seq<Witness> {
    ShuffledFrom(active, 0, Generator(seconds))
  }

  /** Whatever the numbers, swapping leaves the positions already done alone and permutes. */
  lemma {:induction false} ShuffleFromPermutes(s: seq<Witness>, i: nat, random: nat -> nat)
    requires i <= |s|
    ensures multiset(ShuffledFrom(s, i, random)) == multiset(s)
    ensures ShuffledFrom(s, i, random)[..i] == s[..i]
    decreases |s| - i
  {
    hide Partner;
    if i < |s| {
      var t := Swapped(s, i, Partner(random, i, |s|));
      SwapPermutes(s, i, Partner(random, i, |s|));
      ShuffleFromPermutes(t, i + 1, random);
      assert ShuffledFrom(t, i + 1, random)[..i] == ShuffledFrom(t, i + 1, random)[..i + 1][..i] == t[..i];
    }
  }

  /** One step of the shuffle: the witness at position `i` changes places with one that is
      chosen among those from `i` on. */
  lemma ShuffleStep(s: seq<Witness>, i: nat, random: nat -> nat, t: seq<Witness>)
    requires i < |s| == |t|
    requires var j := i + random(i) % (|s| - i);
             && i <= j < |s| && t[i] == s[j] && t[j] == s[i]
             && forall k :: 0 <= k < |s| && k != i && k != j ==> t[k] == s[k]
    ensures ShuffledFrom(s, i, random) == ShuffledFrom(t, i + 1, random)
    ensures ShuffledFrom(s, i, random)[i] == s[i + random(i) % (|s| - i)]
  {
    var j := i + random(i) % (|s| - i);
    assert Swapped(s, i, Partner(random, i, |s|)) == t;
    ShuffleFromPermutes(t, i + 1, random);
    assert ShuffledFrom(t, i + 1, random)[..i + 1][i] == t[..i + 1][i];
  }

  /** Every witness is chosen by the number for its position, at the time of the schedule. */
  lemma {:induction false} ShuffleChooses(s: seq<Witness>, i: nat, seconds: nat)
    requires i < |s|
    ensures ShuffledFrom(s, i, Generator(seconds))[i] == s[i + XorShift.Mix(seconds, i) % (|s| - i)]
    ensures i == 0 ==> Shuffled(s, seconds)[0] == s[XorShift.Mix(seconds, 0) % |s|]
  {
    hide XorShift.Mix;
    var random := Generator(seconds);
    ShuffleStep(s, i, random, Swapped(s, i, Partner(random, i, |s|)));
  }

  /** At every time the schedule is a permutation of the active witnesses. */
  lemma ShuffleIsPermutation(active: seq<Witness>, seconds: nat)
    ensures multiset(Shuffled(active, seconds)) == multiset(active)
  {
    hide Generator;
    ShuffleFromPermutes(active, 0, Generator(seconds));
  }

  /** The loop of `update_witness_schedule_impl`, in place. */
  method Shuffle(a: array<Witness>, seconds: nat)
    modifies a
    ensures a[..] == Shuffled(old(a[..]), seconds)
  {
    hide Generator, Partner;
    var random := Generator(seconds);
    var i := 0;
    while i < a.Length
      invariant 0 <= i <= a.Length
      invariant ShuffledFrom(a[..], i, random) == Shuffled(old(a[..]), seconds)
    {
      var j := Partner(random, i, a.Length);
      ghost var s := a[..];
      a[i], a[j] := a[j], a[i];
      assert a[..] == Swapped(s, i, j);
      i := i + 1;
    }
  }

  predicate Distinct(s: seq<Witness>) {
    forall i, j :: 0 <= i < j < |s| ==> s[i] != s[j]
  }

  /** Who is scheduled `slot` slots after the absolute slot `aslot`. */
  function Scheduled(schedule: seq<Witness>, aslot: nat, slot: nat): Witness
    requires schedule != []
  {
    schedule[(aslot + slot) % |schedule|]
  }

  function Window(schedule: seq<Witness>, aslot: nat, slot: nat): seq<Witness>
    requires schedule != []
  {
    seq(|schedule|, (k: nat) => Scheduled(schedule, aslot, slot + k))
  }

  /** The schedule is followed from the absolute slot on, one witness for each slot, and again
      from its start after its end. */
  lemma ScheduledIs(schedule: seq<Witness>, aslot: nat, slot: nat, k: nat, i: nat)
    requires i < |schedule| && aslot + slot == k * |schedule| + i
    ensures Scheduled(schedule, aslot, slot) == schedule[i]
  {
    Remainder(k, |schedule|, i);
  }

  lemma Quotient(q: int, n: int, r: int)
    requires 0 <= r < n
    ensures (q * n + r) / n == q
  {
    AtMostFloor(q, q * n + r, n);
    assert (q + 1) * n == q * n + n;
    AtMostFloor(q + 1, q * n + r, n);
  }

  lemma Remainder(q: int, n: int, r: int)
    requires 0 <= r < n
    ensures (q * n + r) % n == r
  {
    var x := q * n + r;
    Quotient(q, n, r);
    assert x == (x / n) * n + x % n;
  }

  lemma Wraps(x: nat, k: nat, n: nat)
    requires k < n
    ensures (x + k) % n == if x % n + k < n then x % n + k else x % n + k - n
  {
    var r, q := x % n, x / n;
    assert x == q * n + r;
    if r + k < n {
      Remainder(q, n, r + k);
    } else {
      assert (q + 1) * n == q * n + n;
      Remainder(q + 1, n, r + k - n);
    }
  }

  /** A window of as many slots as there are witnesses is a rotation of the schedule. */
  lemma WindowRotates(schedule: seq<Witness>, aslot: nat, slot: nat)
    requires schedule != []
    ensures var r := (aslot + slot) % |schedule|;
            Window(schedule, aslot, slot) == schedule[r..] + schedule[..r]
  {
    var n, r := |schedule|, (aslot + slot) % |schedule|;
    forall k | 0 <= k < n ensures Window(schedule, aslot, slot)[k] == (schedule[r..] + schedule[..r])[k] {
      Wraps(aslot + slot, k, n);
      assert Window(schedule, aslot, slot)[k] == Scheduled(schedule, aslot, slot + k);
      assert aslot + (slot + k) == (aslot + slot) + k;
      if r + k < n {
        assert (schedule[r..] + schedule[..r])[k] == schedule[r + k];
      } else {
        assert (schedule[r..] + schedule[..r])[k] == schedule[r + k - n];
      }
    }
  }

  /** In every window of as many slots as there are active witnesses each of them is
      scheduled exactly once. */
  lemma WindowIsPermutation(active: seq<Witness>, seconds: nat, aslot: nat, slot: nat)
    requires active != []
    ensures Shuffled(active, seconds) != []
    ensures multiset(Window(Shuffled(active, seconds), aslot, slot)) == multiset(active)
  {
    hide ShuffledFrom, Generator;
    var t := Shuffled(active, seconds);
    ShuffleIsPermutation(active, seconds);
    WindowRotates(t, aslot, slot);
    var r := (aslot + slot) % |t|;
    assert t == t[..r] + t[r..];
  }

  lemma TwiceCounts(s: seq<Witness>, i: nat, j: nat)
    requires i < j < |s| && s[i] == s[j]
    ensures multiset(s)[s[i]] >= 2
  {
    assert s == s[..i] + [s[i]] + s[i + 1..j] + [s[j]] + s[j + 1..];
  }

  lemma {:induction false} DistinctCounts(s: seq<Witness>, w: Witness)
    requires Distinct(s)
    ensures multiset(s)[w] <= 1
    decreases |s|
  {
    if s != [] {
      assert s == [s[0]] + s[1..];
      DistinctCounts(s[1..], w);
      if s[0] == w {
        assert w !in s[1..];
        assert w !in multiset(s[1..]);
      }
    }
  }

  lemma ShuffleIsDistinct(active: seq<Witness>, seconds: nat)
    requires Distinct(active)
    ensures Distinct(Shuffled(active, seconds))
  {
    hide ShuffledFrom, Generator;
    ShuffleIsPermutation(active, seconds);
    var t := Shuffled(active, seconds);
    forall i, j | 0 <= i < j < |t| ensures t[i] != t[j] {
      if t[i] == t[j] {
        TwiceCounts(t, i, j);
        DistinctCounts(active, t[i]);
      }
    }
  }

  /** Under one schedule the same witness produces at two absolute slots if and only if they
      are whole rounds apart. */
  lemma SameWitnessIsRoundsApart(active: seq<Witness>, seconds: nat, x: nat, y: nat)
    requires active != [] && Distinct(active)
    ensures Shuffled(active, seconds) != []
    ensures Scheduled(Shuffled(active, seconds), x, 0) == Scheduled(Shuffled(active, seconds), y, 0)
            <==> x % |active| == y % |active|
  {
    ShuffleIsDistinct(active, seconds);
  }

  /** What the slot functions read: the head block's number and time, the block interval,
      and the slots skipped after a maintenance block. */
  datatype Clock = Clock(headNum: nat, headTime: nat, interval: nat, maintenance: bool, skipSlots: nat)

  /** `get_slot_time`; slot 0 is the epoch. */
  function SlotTime(c: Clock, slot: nat): int
    requires c.interval > 0
  {
    if slot == 0 then 0
    else if c.headNum == 0 then c.headTime + slot * c.interval
    else
      var headSlotTime := c.headTime / c.interval * c.interval;
      headSlotTime + (if c.maintenance then slot + c.skipSlots else slot) * c.interval
  }

  /** `get_slot_at_time`. */
  function SlotAtTime(c: Clock, when: int): int
    requires c.interval > 0
  {
    var first := SlotTime(c, 1);
    if when < first then 0 else (when - first) / c.interval + 1
  }

  /** Slots are one interval apart. */
  lemma SlotsAreSpaced(c: Clock, slot: nat)
    requires c.interval > 0 && slot > 0
    ensures SlotTime(c, slot) == SlotTime(c, 1) + (slot - 1) * c.interval
  {
    var k := if c.maintenance then c.skipSlots else 0;
    assert (slot + k) * c.interval == (1 + k) * c.interval + (slot - 1) * c.interval;
    assert slot * c.interval == 1 * c.interval + (slot - 1) * c.interval;
  }

  /** When the first slot for a next block is: an interval after genesis; after any other block
      at the next whole interval, later by the skipped slots if it was a maintenance block. */
  lemma FirstSlotIs(c: Clock)
    requires c.interval > 0
    ensures SlotTime(c, 0) == 0
    ensures c.headNum == 0 ==> SlotTime(c, 1) == c.headTime + c.interval
    ensures c.headNum > 0 && !c.maintenance ==>
            c.headTime < SlotTime(c, 1) <= c.headTime + c.interval && SlotTime(c, 1) % c.interval == 0
    ensures c.headNum > 0 && c.maintenance ==>
            SlotTime(c, 1) == SlotTime(c.(maintenance := false), 1) + c.skipSlots * c.interval
  {
    var k := c.headTime / c.interval;
    Floor(c.headTime, c.interval);
    assert (k + 1) * c.interval == k * c.interval + 1 * c.interval;
    WholeMultiple(k + 1, c.interval);
    assert (1 + c.skipSlots) * c.interval == 1 * c.interval + c.skipSlots * c.interval;
  }

  /** `get_slot_at_time` is the largest slot that has begun, and 0 if none has. */
  lemma SlotAtTimeIsLargest(c: Clock, when: int, slot: nat)
    requires c.interval > 0 && slot > 0
    ensures SlotTime(c, slot) <= when <==> slot <= SlotAtTime(c, when)
  {
    SlotsAreSpaced(c, slot);
    hide SlotTime;
    var first := SlotTime(c, 1);
    if when >= first {
      AtMostFloor(slot - 1, when - first, c.interval);
    } else {
      MulMono(0, slot - 1, c.interval);
    }
  }

  /** `get_slot_at_time` inverts `get_slot_time`, at genesis, normally and after maintenance. */
  lemma SlotRoundTrip(c: Clock, slot: nat)
    requires c.interval > 0 && slot > 0
    ensures SlotAtTime(c, SlotTime(c, slot)) == slot
  {
    hide SlotTime, SlotAtTime;
    SlotAtTimeIsLargest(c, SlotTime(c, slot), slot);
    SlotAtTimeIsLargest(c, SlotTime(c, slot), slot + 1);
    SlotsAreSpaced(c, slot);
    SlotsAreSpaced(c, slot + 1);
    assert slot * c.interval == (slot - 1) * c.interval + c.interval;
  }

  /** Every slot for a next block lies after the head block. */
  lemma SlotsAreLater(c: Clock, slot: nat)
    requires c.interval > 0 && slot > 0
    ensures SlotTime(c, slot) > c.headTime
  {
    SlotsAreSpaced(c, slot);
    Floor(c.headTime, c.interval);
    MulMono(0, slot - 1, c.interval);
    MulMono(1, 1 + c.skipSlots, c.interval);
  }
}
