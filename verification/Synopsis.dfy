/** The summary of a chain that a node sends to a peer, and the peer's answer. */
module Synopsis {
  import opened Wrappers
  import opened Arithmetic
  import opened Blocks

  /** What the node layer reads of the chain: its head, the id stored under each block number,
      and how many blocks can be undone.  Numbers above the head may hold ids of blocks that
      were popped. */
  datatype View = View(head: BlockId, ids: map<nat, BlockId>, undoable: nat)

  datatype Error = UnknownNumber | Unlinked | TooOld | UnreachableFork

  /** The ancestor of `id` with number `n`. */
  function At(id: BlockId, n: nat): BlockId
    requires n <= NumFromId(id)
  {
    Back(id, NumFromId(id) - n)
  }

  function HeadNum(v: View): nat {
    NumFromId(v.head)
  }

  /** Ids are on file for the first so many numbers, and up to the head they are the chain's. */
  predicate Valid(v: View) {
    && v.undoable <= HeadNum(v)
    && (forall n :: n in v.ids ==> n > 0 && NumFromId(v.ids[n]) == n)
    && (forall n, m :: n in v.ids && 0 < m < n ==> m in v.ids)
    && (forall n :: 0 < n <= HeadNum(v) ==> n in v.ids && v.ids[n] == At(v.head, n))
  }

  /** Blocks `nonFork + 1` and on come from `fork`, the others from the chain. */
  datatype Range = Range(low: nat, nonFork: nat, high: nat, fork: seq<BlockId>)

  /** The line of `ref` above its fork point with the chain, lowest first. */
  function ForkIds(ref: BlockId, head: BlockId): (r: seq<BlockId>)
    requires ref.HashOf? && head.HashOf?
    ensures |r| == NumFromId(ref) - NumFromId(ForkPoint(head, ref))
    ensures forall i :: 0 <= i < |r| ==> r[i] == At(ref, NumFromId(ForkPoint(head, ref)) + 1 + i)
  {
    ForkPointIsCommon(head, ref);
    var f := NumFromId(ForkPoint(head, ref));
    seq(NumFromId(ref) - f, i requires 0 <= i < NumFromId(ref) - f => At(ref, f + 1 + i))
  }

  function AtLeastOne(n: nat): nat {
    if n == 0 then 1 else n
  }

  /** The range to summarize, up to `ref` or to the head if there is no `ref`.  `linked` says
      whether the fork database can walk from `ref` to the chain. */
  function FindRange(v: View, ref: BlockId, linked: bool): Result<Range, Error>
    requires Valid(v)
  {
    var low, num := HeadNum(v) - v.undoable, NumFromId(ref);
    if ref.NoBlock? then Success(Range(AtLeastOne(low), HeadNum(v), HeadNum(v), []))
    else if num !in v.ids then Failure(UnknownNumber)
    else if v.ids[num] == ref then Success(Range(AtLeastOne(if num < low then num else low), num, num, []))
    else if !linked || v.head.NoBlock? then Failure(Unlinked)
    else
      var nonFork := NumFromId(ForkPoint(v.head, ref));
      if nonFork < low then Failure(TooOld) else Success(Range(AtLeastOne(low), nonFork, num, ForkIds(ref, v.head)))
  }

  /** Every number of the range can be looked up. */
  predicate Readable(v: View, r: Range) {
    && 0 < r.low <= r.high
    && (forall n :: 0 < n <= r.high && n <= r.nonFork ==> n in v.ids)
    && (r.nonFork < r.high ==> |r.fork| == r.high - r.nonFork)
  }

  function Pick(v: View, r: Range, n: nat): BlockId
    requires Readable(v, r) && 0 < n <= r.high
  {
    if n <= r.nonFork then v.ids[n] else r.fork[n - r.nonFork - 1]
  }

  function Next(n: nat, trueHigh: nat): nat
    requires n <= trueHigh
  {
    n + (trueHigh - n + 2) / 2
  }

  lemma NextAdvances(n: nat, trueHigh: nat)
    requires n <= trueHigh
    ensures n < Next(n, trueHigh)
  {
  }

  /** Every other half of what is left, from `n` up. */
  function Entries(v: View, r: Range, n: nat, trueHigh: nat): seq<BlockId>
    requires Readable(v, r) && 0 < n <= r.high <= trueHigh
    decreases trueHigh - n
  {
    var next := Next(n, trueHigh);
    [Pick(v, r, n)] + if next <= r.high then Entries(v, r, next, trueHigh) else []
  }

  /** `get_blockchain_synopsis`. */
  function Summary(v: View, ref: BlockId, after: nat, linked: bool): Result<seq<BlockId>, Error>
    requires Valid(v)
  {
    if ref.NoBlock? && HeadNum(v) == 0 then Success([])
    else match FindRange(v, ref, linked)
      case Failure(e) => Failure(e)
      case Success(r) =>
        RangeIsReadable(v, ref, linked);
        Success(Entries(v, r, r.low, r.high + after))
  }

  /** `ref` is not one of the popped blocks that are still on file above the head. */
  predicate Current(v: View, ref: BlockId) {
    NumFromId(ref) <= HeadNum(v) || NumFromId(ref) !in v.ids || v.ids[NumFromId(ref)] != ref
  }

  /** All lookups are in range. */
  lemma RangeIsReadable(v: View, ref: BlockId, linked: bool)
    requires Valid(v) && FindRange(v, ref, linked).Success? && (ref.HashOf? || HeadNum(v) > 0)
    ensures Readable(v, FindRange(v, ref, linked).value)
  {
    hide At, ForkPoint, NumFromId;
    if ref.HashOf? && v.head.HashOf? {
      ForkPointIsCommon(v.head, ref);
    }
  }

  // Ancestors by number

  lemma AtIsAncestor(id: BlockId, n: nat)
    requires n <= NumFromId(id)
    ensures Reaches(id, At(id, n)) && NumFromId(At(id, n)) == n
  {
    BackIsAncestor(id, NumFromId(id) - n);
  }

  /** The ancestor with a number is unique. */
  lemma AtIsUnique(id: BlockId, a: BlockId)
    requires Reaches(id, a)
    ensures NumFromId(a) <= NumFromId(id) && At(id, NumFromId(a)) == a
  {
    ReachesNum(id, a);
    AtIsAncestor(id, NumFromId(a));
    AncestorsAreALine(id, At(id, NumFromId(a)), a);
    ReachesNum(At(id, NumFromId(a)), a);
  }

  lemma AtOfAncestor(id: BlockId, a: BlockId, n: nat)
    requires Reaches(id, a) && n <= NumFromId(a)
    ensures NumFromId(a) <= NumFromId(id) && At(id, n) == At(a, n)
  {
    ReachesNum(id, a);
    AtIsAncestor(a, n);
    ReachesTransitive(id, a, At(a, n));
    AtIsUnique(id, At(a, n));
  }

  /** The block a synopsis leads up to. */
  function Target(v: View, ref: BlockId): BlockId {
    if ref.NoBlock? then v.head else ref
  }

  /** Whatever the branch taken, block number `n` of the range is the ancestor of the target,
      unless the target was popped and the file says otherwise. */
  lemma PickIsAncestor(v: View, ref: BlockId, linked: bool, n: nat)
    requires Valid(v) && FindRange(v, ref, linked).Success? && (ref.HashOf? || HeadNum(v) > 0)
    requires 0 < n <= FindRange(v, ref, linked).value.high
    ensures Readable(v, FindRange(v, ref, linked).value)
    ensures FindRange(v, ref, linked).value.high == NumFromId(Target(v, ref))
    ensures Current(v, ref) ==> Pick(v, FindRange(v, ref, linked).value, n) == At(Target(v, ref), n)
    ensures !Current(v, ref) ==> n in v.ids && Pick(v, FindRange(v, ref, linked).value, n) == v.ids[n]
  {
    RangeIsReadable(v, ref, linked);
    var r := FindRange(v, ref, linked).value;
    if !Current(v, ref) {
    } else if ref.HashOf? && v.ids[NumFromId(ref)] == ref {
      AtIsAncestor(v.head, NumFromId(ref));
      AtOfAncestor(v.head, ref, n);
    } else if ref.HashOf? && n <= r.nonFork {
      var f := ForkPoint(v.head, ref);
      ForkPointIsCommon(v.head, ref);
      AtOfAncestor(v.head, f, n);
      AtOfAncestor(ref, f, n);
    }
  }

  // The shape of the synopsis

  function Log2(d: nat): nat {
    if d <= 1 then 0 else 1 + Log2(d / 2)
  }

  /** The block numbers a synopsis from `n` to `high` lists. */
  function Numbers(n: nat, high: nat, trueHigh: nat): seq<nat>
    requires n <= high <= trueHigh
    decreases trueHigh - n
  {
    var next := Next(n, trueHigh);
    [n] + if next <= high then Numbers(next, high, trueHigh) else []
  }

  predicate Increasing(s: seq<BlockId>) {
    forall i, j :: 0 <= i < j < |s| ==> NumFromId(s[i]) < NumFromId(s[j])
  }

  /** All entries are ancestors of `target`, or `target` itself. */
  predicate OnLineOf(s: seq<BlockId>, target: BlockId) {
    forall i :: 0 <= i < |s| ==> NumFromId(s[i]) <= NumFromId(target) && s[i] == At(target, NumFromId(s[i]))
  }

  /** The entries are ancestors of `target` with strictly increasing numbers. */
  predicate Ascends(s: seq<BlockId>, target: BlockId) {
    s != [] && Increasing(s) && OnLineOf(s, target)
  }

  /** The entries are the blocks with those numbers, in increasing order. */
  lemma {:induction false} EntriesAreNumbered(v: View, r: Range, n: nat, trueHigh: nat)
    requires Readable(v, r) && 0 < n <= r.high <= trueHigh
    requires forall k :: 0 < k <= r.high ==> NumFromId(Pick(v, r, k)) == k
    ensures var s, ns := Entries(v, r, n, trueHigh), Numbers(n, r.high, trueHigh);
            && |s| == |ns| > 0 && ns[0] == n && Increasing(s)
            && forall i :: 0 <= i < |s| ==> n <= ns[i] <= r.high && s[i] == Pick(v, r, ns[i])
    decreases trueHigh - n
  {
    hide Pick, Readable, Next, NumFromId;
    var next, s, ns := Next(n, trueHigh), Entries(v, r, n, trueHigh), Numbers(n, r.high, trueHigh);
    NextAdvances(n, trueHigh);
    if next <= r.high {
      EntriesAreNumbered(v, r, next, trueHigh);
      var t, ms := Entries(v, r, next, trueHigh), Numbers(next, r.high, trueHigh);
      assert forall i :: 1 <= i < |s| ==> s[i] == t[i - 1] && ns[i] == ms[i - 1];
    }
  }

  /** The step from one entry to the next is just over half of what is left. */
  predicate Spaced(s: seq<BlockId>, trueHigh: nat) {
    forall i :: 0 <= i < |s| - 1 ==>
      NumFromId(s[i]) <= trueHigh && NumFromId(s[i + 1]) == NumFromId(s[i]) + (trueHigh - NumFromId(s[i]) + 2) / 2
  }

  lemma {:induction false} NumbersAreSpaced(n: nat, high: nat, trueHigh: nat)
    requires n <= high <= trueHigh
    ensures var ns := Numbers(n, high, trueHigh);
            && ns != [] && ns[0] == n
            && forall i :: 0 <= i < |ns| - 1 ==> ns[i] <= trueHigh && ns[i + 1] == Next(ns[i], trueHigh)
    decreases trueHigh - n
  {
    var next, ns := Next(n, trueHigh), Numbers(n, high, trueHigh);
    if next <= high {
      NumbersAreSpaced(next, high, trueHigh);
      var ms := Numbers(next, high, trueHigh);
      assert forall i :: 1 <= i < |ns| ==> ns[i] == ms[i - 1];
    }
  }

  /** Each entry halves the distance to the end: at most the logarithm of it, and one more. */
  lemma {:induction false} EntriesAreFew(v: View, r: Range, n: nat, trueHigh: nat)
    requires Readable(v, r) && 0 < n <= r.high <= trueHigh
    ensures var s := Entries(v, r, n, trueHigh);
            && 1 <= |s| <= Log2(trueHigh - n + 1) + 1
            && (trueHigh == r.high ==> s[|s| - 1] == Pick(v, r, r.high) && |s| == Log2(trueHigh - n + 1) + 1)
    decreases trueHigh - n
  {
    hide Pick, Readable;
    var next := Next(n, trueHigh);
    var d := trueHigh - n + 1;
    assert trueHigh - next + 1 == d / 2;
    if next <= r.high {
      EntriesAreFew(v, r, next, trueHigh);
    }
  }

  /** At every number that is listed for a popped `ref`, the file holds its ancestor. */
  predicate FileFollows(v: View, ref: BlockId, after: nat)
    requires Valid(v)
  {
    var low, high := AtLeastOne(HeadNum(v) - v.undoable), NumFromId(ref);
    low <= high && forall n :: n in Numbers(low, high, high + after) ==>
      n <= high && n in v.ids && v.ids[n] == At(ref, n)
  }

  /** A synopsis is in strictly increasing order and no longer than the logarithm of the
      distance and one; if no blocks follow it ends at the reference block, or at the head.
      All its entries are ancestors of that block, if and only if the block was not popped, or
      the file still holds its ancestors at the numbers listed. */
  lemma SummaryIsGood(v: View, ref: BlockId, after: nat, linked: bool)
    requires Valid(v) && Summary(v, ref, after, linked).Success?
    ensures var s, target := Summary(v, ref, after, linked).value, Target(v, ref);
            && (s == [] <==> target.NoBlock?)
            && (s != [] ==>
                  && Increasing(s)
                  && NumFromId(s[0]) <= NumFromId(target)
                  && |s| <= Log2(NumFromId(target) + after - NumFromId(s[0]) + 1) + 1
                  && (after == 0 ==> s[|s| - 1] == target)
                  && (OnLineOf(s, target) <==> Current(v, ref) || FileFollows(v, ref, after)))
  {
    hide FindRange, Valid, Readable, Pick, Entries, Current, OnLineOf, Increasing, Log2, FileFollows;
    if ref.HashOf? || HeadNum(v) > 0 {
      var r, target := FindRange(v, ref, linked).value, Target(v, ref);
      RangeLeadsTo(v, ref, linked);
      ReadableBounds(v, r);
      EntriesAreNumbered(v, r, r.low, r.high + after);
      EntriesAreFew(v, r, r.low, r.high + after);
      LineIsExact(v, ref, after, linked);
      TargetIsPicked(v, ref, linked);
    }
  }

  /** The lowest block a synopsis can start from: the last one that cannot be undone, or block 1
      if all can. */
  function Lowest(v: View): nat
    requires Valid(v)
  {
    if v.undoable == HeadNum(v) then 1 else HeadNum(v) - v.undoable
  }

  /** A synopsis starts at the last block that cannot be undone, or at the reference block if
      that one is on file and lower. */
  lemma SummaryStarts(v: View, ref: BlockId, after: nat, linked: bool)
    requires Valid(v) && Summary(v, ref, after, linked).Success? && Summary(v, ref, after, linked).value != []
    ensures var num, first := NumFromId(ref), NumFromId(Summary(v, ref, after, linked).value[0]);
            if ref.HashOf? && num in v.ids && v.ids[num] == ref && num < Lowest(v) then first == num
            else first == Lowest(v)
  {
    hide Valid, Readable, Pick, Entries, Numbers, NumFromId, At;
    LowIs(v, ref, linked);
    var r := FindRange(v, ref, linked).value;
    hide FindRange;
    RangeLeadsTo(v, ref, linked);
    ReadableBounds(v, r);
    EntriesAreNumbered(v, r, r.low, r.high + after);
  }

  lemma LowIs(v: View, ref: BlockId, linked: bool)
    requires Valid(v) && FindRange(v, ref, linked).Success? && (ref.HashOf? || HeadNum(v) > 0)
    ensures var num, low := NumFromId(ref), FindRange(v, ref, linked).value.low;
            if ref.HashOf? && num in v.ids && v.ids[num] == ref && num < Lowest(v) then low == num else low == Lowest(v)
  {
    hide At, ForkPoint;
  }

  /** Which synopses cannot be made: the number is not on file, or the block is on a fork that
      is not cached back to the chain, or on one that left it before the last undoable block. */
  lemma SummaryFailsExactly(v: View, ref: BlockId, after: nat, linked: bool)
    requires Valid(v)
    ensures var r, num := Summary(v, ref, after, linked), NumFromId(ref);
            && (r == Failure(UnknownNumber) <==> ref.HashOf? && num !in v.ids)
            && (r == Failure(Unlinked) <==>
                  ref.HashOf? && num in v.ids && v.ids[num] != ref && (!linked || v.head.NoBlock?))
            && (r == Failure(TooOld) <==>
                  && ref.HashOf? && num in v.ids && v.ids[num] != ref && linked && v.head.HashOf?
                  && NumFromId(ForkPoint(v.head, ref)) + v.undoable < HeadNum(v))
            && r != Failure(UnreachableFork)
  {
    hide At, ForkPoint, NumFromId, Entries;
  }

  lemma SummaryIsSpaced(v: View, ref: BlockId, after: nat, linked: bool)
    requires Valid(v) && Summary(v, ref, after, linked).Success?
    ensures Spaced(Summary(v, ref, after, linked).value, NumFromId(Target(v, ref)) + after)
  {
    hide FindRange, Valid, Readable, Pick, Entries, Current, Numbers, NumFromId, At;
    if ref.HashOf? || HeadNum(v) > 0 {
      var r := FindRange(v, ref, linked).value;
      RangeLeadsTo(v, ref, linked);
      ReadableBounds(v, r);
      EntriesAreNumbered(v, r, r.low, r.high + after);
      NumbersAreSpaced(r.low, r.high, r.high + after);
      var s, ns := Entries(v, r, r.low, r.high + after), Numbers(r.low, r.high, r.high + after);
      assert forall i :: 0 <= i < |s| ==> NumFromId(s[i]) == ns[i];
    }
  }

  lemma TargetIsPicked(v: View, ref: BlockId, linked: bool)
    requires Valid(v) && FindRange(v, ref, linked).Success? && (ref.HashOf? || HeadNum(v) > 0)
    ensures Readable(v, FindRange(v, ref, linked).value)
    ensures var r := FindRange(v, ref, linked).value; 0 < r.high && Pick(v, r, r.high) == Target(v, ref)
  {
    hide FindRange, Valid, Readable, Pick;
    var r := FindRange(v, ref, linked).value;
    RangeIsReadable(v, ref, linked);
    ReadableBounds(v, r);
    PickIsAncestor(v, ref, linked, r.high);
  }

  lemma LineIsExact(v: View, ref: BlockId, after: nat, linked: bool)
    requires Valid(v) && FindRange(v, ref, linked).Success? && (ref.HashOf? || HeadNum(v) > 0)
    ensures var r, target := FindRange(v, ref, linked).value, Target(v, ref);
            && Readable(v, r)
            && (OnLineOf(Entries(v, r, r.low, r.high + after), target) <==>
                Current(v, ref) || FileFollows(v, ref, after))
  {
    hide FindRange, Valid, Readable, Pick, Entries, Current, Numbers, NumFromId, At, OnLineOf, Increasing;
    var r, target := FindRange(v, ref, linked).value, Target(v, ref);
    RangeLeadsTo(v, ref, linked);
    ReadableBounds(v, r);
    EntriesAreNumbered(v, r, r.low, r.high + after);
    var s, ns := Entries(v, r, r.low, r.high + after), Numbers(r.low, r.high, r.high + after);
    if Current(v, ref) {
      PickedLine(s, ns, target);
    } else {
      PoppedRange(v, ref, linked);
      forall i | 0 <= i < |ns| ensures ns[i] in v.ids && s[i] == v.ids[ns[i]] {
        PickIsAncestor(v, ref, linked, ns[i]);
      }
      FiledLine(s, ns, target, v.ids);
      forall n | n in ns ensures n <= r.high {
        var i :| 0 <= i < |ns| && ns[i] == n;
      }
    }
  }

  lemma PickedLine(s: seq<BlockId>, ns: seq<nat>, target: BlockId)
    requires |s| == |ns| && forall i :: 0 <= i < |s| ==> ns[i] <= NumFromId(target) && s[i] == At(target, ns[i])
    ensures OnLineOf(s, target)
  {
    forall i | 0 <= i < |s| ensures NumFromId(s[i]) == ns[i] {
      AtIsAncestor(target, ns[i]);
    }
  }

  lemma FiledLine(s: seq<BlockId>, ns: seq<nat>, target: BlockId, ids: map<nat, BlockId>)
    requires |s| == |ns|
    requires forall i :: 0 <= i < |s| ==>
             ns[i] <= NumFromId(target) && ns[i] in ids && s[i] == ids[ns[i]] && NumFromId(s[i]) == ns[i]
    ensures OnLineOf(s, target) <==> forall n :: n in ns ==>
            n <= NumFromId(target) && n in ids && ids[n] == At(target, n)
  {
    hide NumFromId, At;
    if OnLineOf(s, target) {
      forall n | n in ns ensures n <= NumFromId(target) && n in ids && ids[n] == At(target, n) {
        var i :| 0 <= i < |ns| && ns[i] == n;
        assert s[i] == At(target, NumFromId(s[i]));
      }
    } else {
      var i :| 0 <= i < |s| && !(NumFromId(s[i]) <= NumFromId(target) && s[i] == At(target, NumFromId(s[i])));
      assert ns[i] in ns;
    }
  }

  lemma PoppedRange(v: View, ref: BlockId, linked: bool)
    requires Valid(v) && !Current(v, ref) && FindRange(v, ref, linked).Success?
    ensures ref.HashOf?
    ensures FindRange(v, ref, linked).value
            == Range(AtLeastOne(HeadNum(v) - v.undoable), NumFromId(ref), NumFromId(ref), [])
  {
  }

  lemma RangeLeadsTo(v: View, ref: BlockId, linked: bool)
    requires Valid(v) && FindRange(v, ref, linked).Success? && (ref.HashOf? || HeadNum(v) > 0)
    ensures var r, target := FindRange(v, ref, linked).value, Target(v, ref);
            && Readable(v, r) && r.high == NumFromId(target)
            && (forall k :: 0 < k <= r.high ==> NumFromId(Pick(v, r, k)) == k)
            && (Current(v, ref) ==> forall k :: 0 < k <= r.high ==> Pick(v, r, k) == At(target, k))
  {
    hide FindRange, Readable, Pick, Current;
    var r, target := FindRange(v, ref, linked).value, Target(v, ref);
    RangeIsReadable(v, ref, linked);
    ReadableBounds(v, r);
    PickIsAncestor(v, ref, linked, r.high);
    forall k | 0 < k <= r.high
      ensures NumFromId(Pick(v, r, k)) == k
      ensures Current(v, ref) ==> Pick(v, r, k) == At(target, k)
    {
      PickIsAncestor(v, ref, linked, k);
      AtIsAncestor(target, k);
    }
  }

  /** The do-while loop of `get_blockchain_synopsis`. */
  method CollectEntries(v: View, r: Range, trueHigh: nat) returns (s: seq<BlockId>)
    requires Readable(v, r) && r.high <= trueHigh
    ensures s == Entries(v, r, r.low, trueHigh)
  {
    hide Readable, Pick, Next;
    assert 0 < r.low <= r.high by { ReadableBounds(v, r); }
    var n := r.low;
    s := [Pick(v, r, n)];
    NextAdvances(n, trueHigh);
    n := Next(n, trueHigh);
    while n <= r.high
      invariant 0 < n
      invariant Entries(v, r, r.low, trueHigh) == s + if n <= r.high then Entries(v, r, n, trueHigh) else []
      decreases r.high - n
    {
      s := s + [Pick(v, r, n)];
      NextAdvances(n, trueHigh);
      n := Next(n, trueHigh);
    }
  }

  lemma ReadableBounds(v: View, r: Range)
    requires Readable(v, r)
    ensures 0 < r.low <= r.high
  {
  }

  // The answer

  /** Whether a block is on the preferred chain, by its number; fails on an unknown number. */
  function IsIncluded(w: View, id: BlockId): Option<bool> {
    if NumFromId(id) in w.ids then Some(w.ids[NumFromId(id)] == id) else None
  }

  /** The last entry the node shares, searched from the end. */
  function LastKnown(w: View, known: BlockId -> bool, s: seq<BlockId>): Result<BlockId, Error>
    decreases |s|
  {
    if s == [] then Failure(UnreachableFork)
    else
      var id := s[|s| - 1];
      if id.NoBlock? then Success(id)
      else if !known(id) then LastKnown(w, known, s[..|s| - 1])
      else match IsIncluded(w, id)
        case None => Failure(UnknownNumber)
        case Some(true) => Success(id)
        case Some(false) => LastKnown(w, known, s[..|s| - 1])
  }

  datatype Reply = Reply(ids: seq<BlockId>, remaining: nat)

  /** Up to `limit` ids of the chain from number `n` on. */
  function IdsFrom(w: View, n: nat, limit: nat): seq<BlockId>
    requires Valid(w) && n > 0
    decreases limit
  {
    if n > HeadNum(w) || limit == 0 then [] else [w.ids[n]] + IdsFrom(w, n + 1, limit - 1)
  }

  /** How many blocks of the chain come after the last one listed. */
  function Remaining(w: View, ids: seq<BlockId>): nat {
    if ids != [] && NumFromId(ids[|ids| - 1]) < HeadNum(w) then HeadNum(w) - NumFromId(ids[|ids| - 1]) else 0
  }

  /** `get_block_ids`. */
  function Answer(w: View, known: BlockId -> bool, s: seq<BlockId>, limit: nat): Result<Reply, Error>
    requires Valid(w)
  {
    if HeadNum(w) == 0 then Success(Reply([], 0))
    else
      var last := if s == [] || s == [NoBlock] then Success(NoBlock) else LastKnown(w, known, s);
      match last
      case Failure(e) => Failure(e)
      case Success(id) =>
        var ids := IdsFrom(w, AtLeastOne(NumFromId(id)), limit);
        Success(Reply(ids, Remaining(w, ids)))
  }

  /** The ids are a gap-free run of the chain, as long as the limit and the head allow. */
  lemma {:induction false} IdsAreChain(w: View, n: nat, limit: nat)
    requires Valid(w) && 0 < n
    ensures var ids := IdsFrom(w, n, limit);
            && (n <= HeadNum(w) ==> |ids| == if limit < HeadNum(w) - n + 1 then limit else HeadNum(w) - n + 1)
            && (n > HeadNum(w) ==> ids == [])
            && forall i :: 0 <= i < |ids| ==>
                 n + i <= HeadNum(w) && ids[i] == At(w.head, n + i) && NumFromId(ids[i]) == n + i
    decreases limit
  {
    if n <= HeadNum(w) && limit > 0 {
      IdsAreChain(w, n + 1, limit - 1);
      AtIsAncestor(w.head, n);
    }
  }

  predicate OnChain(w: View, id: BlockId) {
    id.HashOf? && Reaches(w.head, id)
  }

  /** A block passes for included exactly if it is on the chain, or was popped and is still
      on file above the head. */
  lemma IncludedExactly(w: View, id: BlockId)
    requires Valid(w) && id.HashOf?
    ensures IsIncluded(w, id) == Some(true) <==> OnChain(w, id) || !Current(w, id)
  {
    var n: nat := NumFromId(id);
    if n in w.ids && w.ids[n] == id && n <= HeadNum(w) {
      AtIsAncestor(w.head, n);
    }
    if OnChain(w, id) {
      AtIsUnique(w.head, id);
    }
  }

  /** Entry `k` is the highest one on the chain of the answering node. */
  predicate HighestShared(w: View, s: seq<BlockId>, k: nat) {
    && k < |s| && OnChain(w, s[k])
    && forall i :: k < i < |s| ==> s[i].HashOf? && !OnChain(w, s[i])
  }

  /** An entry that is not on the chain ends the search: it is known, and its number is not on
      file, or the file holds it above the head. */
  predicate Obstructs(w: View, known: BlockId -> bool, id: BlockId) {
    known(id) && (NumFromId(id) !in w.ids || !Current(w, id))
  }

  predicate Clear(w: View, known: BlockId -> bool, s: seq<BlockId>, k: nat) {
    forall i :: k < i < |s| ==> !Obstructs(w, known, s[i])
  }

  /** The search finds the highest shared entry if and only if nothing above it obstructs.
      Otherwise it fails, or finds a popped block. */
  lemma {:induction false} SearchFinds(w: View, known: BlockId -> bool, s: seq<BlockId>, k: nat)
    requires Valid(w) && HighestShared(w, s, k) && known(s[k])
    ensures var r := LastKnown(w, known, s);
            && (Clear(w, known, s, k) ==> r == Success(s[k]))
            && (!Clear(w, known, s, k) ==>
                r == Failure(UnknownNumber) || (r.Success? && NumFromId(r.value) > HeadNum(w)))
    decreases |s|
  {
    hide OnChain, Valid, Current;
    var n := |s| - 1;
    OnChainIsBlock(w, s[k]);
    IncludedExactly(w, s[n]);
    if n > k {
      var t := s[..n];
      assert forall i :: 0 <= i < n ==> t[i] == s[i];
      SearchFinds(w, known, t, k);
      assert Clear(w, known, s, k) <==> Clear(w, known, t, k) && !Obstructs(w, known, s[n]);
      PoppedIsHigh(w, s[n]);
    }
  }

  lemma PoppedIsHigh(w: View, id: BlockId)
    ensures !Current(w, id) ==> NumFromId(id) > HeadNum(w) && NumFromId(id) in w.ids
  {
  }

  lemma OnChainIsBlock(w: View, id: BlockId)
    requires OnChain(w, id)
    ensures id.HashOf?
  {
  }

  /** Ancestors of shared blocks are shared: the shared entries of a synopsis come first. */
  lemma SharedComeFirst(w: View, s: seq<BlockId>, target: BlockId, i: nat, j: nat)
    requires Ascends(s, target) && s[0].HashOf? && i < j < |s| && OnChain(w, s[j])
    ensures OnChain(w, s[i])
  {
    AtIsAncestor(target, NumFromId(s[i]));
    AtIsAncestor(target, NumFromId(s[j]));
    AncestorsAreALine(target, s[j], s[i]);
    ReachesTransitive(w.head, s[j], s[i]);
    assert i > 0 ==> NumFromId(s[0]) < NumFromId(s[i]);
  }

  /** The highest shared entry lies at most half of the way to the end below the highest shared
      block. */
  lemma SharedGap(w: View, s: seq<BlockId>, target: BlockId, k: nat, c: BlockId)
    requires Ascends(s, target) && s[|s| - 1] == target && Spaced(s, NumFromId(target))
    requires HighestShared(w, s, k) && OnChain(w, c) && Reaches(target, c)
    ensures NumFromId(s[k]) <= NumFromId(target)
    ensures NumFromId(c) < NumFromId(s[k]) + (NumFromId(target) - NumFromId(s[k]) + 2) / 2
  {
    hide NumFromId, At;
    ReachesNum(target, c);
    if k < |s| - 1 {
      var next := s[k + 1];
      if NumFromId(next) <= NumFromId(c) {
        AtIsAncestor(target, NumFromId(next));
        AncestorsAreALine(target, c, next);
        ReachesTransitive(w.head, c, next);
        assert false;
      }
    }
  }

  /** Without a shared entry, and with nothing that obstructs the search, it fails. */
  lemma {:induction false} SearchFails(w: View, known: BlockId -> bool, s: seq<BlockId>)
    requires Valid(w)
    requires forall i :: 0 <= i < |s| ==> s[i].HashOf? && !OnChain(w, s[i]) && !Obstructs(w, known, s[i])
    ensures LastKnown(w, known, s) == Failure(UnreachableFork)
    decreases |s|
  {
    hide OnChain, Valid, Current;
    if s != [] {
      var n := |s| - 1;
      IncludedExactly(w, s[n]);
      SearchFails(w, known, s[..n]);
    }
  }

  /** An empty synopsis, or one that ends before block 1, is answered from block 1 on; a node
      without blocks has nothing to answer. */
  lemma AnswerFromStart(w: View, known: BlockId -> bool, s: seq<BlockId>, limit: nat)
    requires Valid(w) && (s == [] || s[|s| - 1] == NoBlock || HeadNum(w) == 0)
    ensures Answer(w, known, s, limit).Success?
    ensures var r := Answer(w, known, s, limit).value;
            && |r.ids| == Min(limit, HeadNum(w))
            && (forall i :: 0 <= i < |r.ids| ==> r.ids[i] == At(w.head, 1 + i))
            && r.remaining == if r.ids == [] then 0 else HeadNum(w) - |r.ids|
  {
    hide Valid;
    if HeadNum(w) > 0 {
      IdsAreChain(w, 1, limit);
    }
  }

  /** A node that shares the lowest entry of a synopsis shares some highest one. */
  lemma {:induction false} SharesSome(w: View, s: seq<BlockId>, n: nat) returns (k: nat)
    requires s != [] && n < |s| && OnChain(w, s[0]) && forall i :: 0 <= i < |s| ==> s[i].HashOf?
    requires forall i :: n < i < |s| ==> !OnChain(w, s[i])
    ensures HighestShared(w, s, k)
    decreases n
  {
    if OnChain(w, s[n]) {
      k := n;
    } else {
      k := SharesSome(w, s, n - 1);
    }
  }

  /** The two ends together: a node answers the synopsis of a peer that shares its lowest
      entry with a gap-free run of its own chain that starts at the highest entry the two
      share, and the last number and the remaining count add up to its head, if and only if no
      higher entry obstructs the search.  Otherwise the answer is an error or empty. */
  lemma AnswerContinues(w: View, known: BlockId -> bool, s: seq<BlockId>, limit: nat, target: BlockId)
    requires Valid(w) && (forall id :: OnChain(w, id) ==> known(id))
    requires limit > 0 && Ascends(s, target) && OnChain(w, s[0])
    ensures exists k :: HighestShared(w, s, k) && AnsweredFrom(w, known, s, limit, k)
  {
    hide Valid, OnChain, OnLineOf;
    forall i | 0 <= i < |s| ensures s[i].HashOf? {
      OnChainIsBlock(w, s[0]);
      if i > 0 {
        assert NumFromId(s[0]) < NumFromId(s[i]);
      }
    }
    var k := SharesSome(w, s, |s| - 1);
    SearchFinds(w, known, s, k);
    AnsweredIfFound(w, known, s, limit, k);
  }

  lemma AnsweredIfFound(w: View, known: BlockId -> bool, s: seq<BlockId>, limit: nat, k: nat)
    requires Valid(w) && limit > 0 && k < |s| && OnChain(w, s[k]) && s[0].HashOf?
    requires Clear(w, known, s, k) ==> LastKnown(w, known, s) == Success(s[k])
    requires var r := LastKnown(w, known, s);
             !Clear(w, known, s, k) ==> r == Failure(UnknownNumber) || (r.Success? && NumFromId(r.value) > HeadNum(w))
    ensures AnsweredFrom(w, known, s, limit, k)
  {
    hide LastKnown, IdsFrom, Valid, Clear;
    AtIsUnique(w.head, s[k]);
    if Clear(w, known, s, k) {
      IdsAreChain(w, NumFromId(s[k]), limit);
    } else if LastKnown(w, known, s).Success? {
      IdsAreChain(w, NumFromId(LastKnown(w, known, s).value), limit);
    }
  }

  ghost predicate AnsweredFrom(w: View, known: BlockId -> bool, s: seq<BlockId>, limit: nat, k: nat)
    requires Valid(w) && k < |s|
  {
    var r := Answer(w, known, s, limit);
    if Clear(w, known, s, k) then
      && r.Success?
      && var ids := r.value.ids;
         && ids != [] && ids[0] == s[k] && (|ids| == limit || NumFromId(s[k]) + |ids| == HeadNum(w) + 1)
              && |ids| <= limit
         && (forall i :: 0 <= i < |ids| ==>
             NumFromId(s[k]) + i <= HeadNum(w) && ids[i] == At(w.head, NumFromId(s[k]) + i))
         && NumFromId(ids[|ids| - 1]) + r.value.remaining == HeadNum(w)
    else
      r == Failure(UnknownNumber) || r == Success(Reply([], 0))
  }

  /** The loops of `get_block_ids`. */
  method GetBlockIds(w: View, known: BlockId -> bool, s: seq<BlockId>, limit: nat) returns (r: Result<Reply, Error>)
    requires Valid(w)
    ensures r == Answer(w, known, s, limit)
  {
    if HeadNum(w) == 0 {
      return Success(Reply([], 0));
    }
    var last := NoBlock;
    if s != [] && s != [NoBlock] {
      var found := FindLastKnown(w, known, s);
      if found.Failure? {
        return Failure(found.error);
      }
      last := found.value;
    }
    var ids := ListIds(w, AtLeastOne(NumFromId(last)), limit);
    r := Success(Reply(ids, Remaining(w, ids)));
  }

  method FindLastKnown(w: View, known: BlockId -> bool, s: seq<BlockId>) returns (r: Result<BlockId, Error>)
    ensures r == LastKnown(w, known, s)
  {
    var i := |s|;
    assert s[..i] == s;
    while i > 0
      invariant 0 <= i <= |s| && LastKnown(w, known, s) == LastKnown(w, known, s[..i])
    {
      var id := s[i - 1];
      assert s[..i][..i - 1] == s[..i - 1];
      if id.NoBlock? {
        return Success(id);
      }
      if known(id) {
        var included := IsIncluded(w, id);
        if included.None? {
          return Failure(UnknownNumber);
        }
        if included.value {
          return Success(id);
        }
      }
      i := i - 1;
    }
    r := Failure(UnreachableFork);
  }

  method ListIds(w: View, n: nat, limit: nat) returns (ids: seq<BlockId>)
    requires Valid(w) && n > 0
    ensures ids == IdsFrom(w, n, limit)
  {
    hide At, NumFromId;
    ids := [];
    var num := n;
    while num <= HeadNum(w) && |ids| < limit
      invariant n <= num && |ids| <= limit
      invariant IdsFrom(w, n, limit) == ids + IdsFrom(w, num, limit - |ids|)
      decreases HeadNum(w) - num
    {
      ids := ids + [w.ids[num]];
      num := num + 1;
    }
  }
}
