/** What pushing a block does to the chain: which of extending, switching, ignoring and
    unwinding it comes to, and when a switch gets stuck half way. */
module ForkSwitch {
  import opened Wrappers
  import opened Blocks
  import opened ForkDatabase

  /** Outcome of applying a block to an object state.  While a block is applied the
      window of the fork and undo databases is reset to `window`; a refused block may
      have `reached` that point or not. */
  datatype Applied<S> = Applied(state: S, window: nat) | Refused(reached: Option<nat>)

  /** Block application is a partial, deterministic function of the object state. */
  datatype Rules<!S> = Rules(genesis: S, apply: (S, Block) -> Applied<S>)

  datatype Snapshot<S> = Snapshot(head: BlockId, state: S)

  datatype Outcome =
    | Extended      // the block was applied on top of the head
    | Switched      // the database moved to the head of a longer fork
    | Ignored       // cached in the fork database only
    | Unlinked      // refused by the fork database
    | NoBranch      // no way back to a fork point in the cache
    | Refusal       // the block does not apply to the head
    | Unwound       // the fork holds an invalid block; the old branch was restored
    | Stuck         // an exception while popping left the switch half done

  /** The object state after replaying the whole line of `id` from genesis. */
  function Replay<S>(r: Rules<S>, id: BlockId): Option<S> {
    match id
    case NoBlock => Some(r.genesis)
    case HashOf(b) =>
      match Replay(r, b.previous)
      case None => None
      case Some(s) =>
        match r.apply(s, b)
        case Applied(t, _) => Some(t)
        case Refused(_) => None
  }

  /** The block store holds the line of `id`, each block under its number. */
  predicate Stores(stored: map<nat, Block>, id: BlockId) {
    match id
    case NoBlock => true
    case HashOf(b) => Num(b) in stored && stored[Num(b)] == b && Stores(stored, b.previous)
  }

  /** The undo stack holds the replayed states of the blocks before `head`, newest last. */
  ghost predicate UndoMatches<S>(r: Rules<S>, undo: seq<Snapshot<S>>, head: BlockId)
    decreases |undo|
  {
    |undo| == 0 ||
    var top := undo[|undo| - 1];
    && head.HashOf?
    && top.head == head.block.previous
    && Replay(r, top.head) == Some(top.state)
    && UndoMatches(r, undo[..|undo| - 1], top.head)
  }

  /** Starting an undo session first drops the oldest states beyond the maximum. */
  function Trimmed<S>(undo: seq<Snapshot<S>>, max: nat): seq<Snapshot<S>> {
    if |undo| <= max then undo else undo[|undo| - max..]
  }

  /** The newest states stay, as many as the maximum allows. */
  lemma TrimmedIs<S>(undo: seq<Snapshot<S>>, max: nat)
    ensures var t := Trimmed(undo, max);
            && |t| <= max && (|t| == max || t == undo) && |t| <= |undo| && t == undo[|undo| - |t|..]
  {
  }

  /** Transactions of the last `n` blocks of the line of `id`, in chain order. */
  function LineTransactions(id: BlockId, n: nat): seq<Transaction>
    requires n <= NumFromId(id)
    decreases n
  {
    if n == 0 then []
    else
      BackIsAncestor(id, n - 1);
      Back(id, n - 1).block.transactions + LineTransactions(id, n - 1)
  }

  /** How many of the last `n` blocks of `id`'s line apply, one after the other,
      before the first one that is refused. */
  function GoodBlocks<S>(r: Rules<S>, id: BlockId, n: nat): (k: nat)
    requires n <= NumFromId(id)
    ensures k <= n
    decreases n
  {
    if n == 0 then 0
    else
      var k := GoodBlocks(r, id.block.previous, n - 1);
      if k == n - 1 && Replay(r, id).Some? then n else k
  }

  /** Transactions of the blocks counted by `GoodBlocks`, in chain order. */
  function GoodTransactions<S>(r: Rules<S>, id: BlockId, n: nat): seq<Transaction>
    requires n <= NumFromId(id)
    decreases n
  {
    if n == 0 || Replay(r, id).Some? then LineTransactions(id, n)
    else GoodTransactions(r, id.block.previous, n - 1)
  }

  /** The window that applying a block reports, if it gets that far. */
  function Window<S>(r: Rules<S>, s: S, b: Block): Option<nat> {
    match r.apply(s, b)
    case Applied(_, v) => Some(v)
    case Refused(v) => v
  }

  /** The fork database after that window was set. */
  function AfterWindow(f: ForkState, window: Option<nat>): ForkState {
    match window
    case None => f
    case Some(v) => Resized(f, v)
  }

  /** What applying blocks does to the two sliding windows: the number of undo states and
      their maximum, and the size of the block cache and the lowest number kept in it. */
  datatype Gauge = Gauge(undo: nat, undoMax: nat, size: nat, low: int)

  /** One session, for a cache whose head has number `top`. */
  function Measured(g: Gauge, accepted: bool, window: Option<nat>, top: int): Gauge {
    var undo := (if g.undo <= g.undoMax then g.undo else g.undoMax) + if accepted then 1 else 0;
    match window
    case None => g.(undo := undo)
    case Some(v) => Gauge(undo, v, v, MaxNat(g.low, MaxNat(0, top - v)))
  }

  /** After applying the last `n` blocks of `id`'s line, oldest first, up to and including the
      first one that is refused. */
  function AfterBranch<S>(r: Rules<S>, id: BlockId, n: nat, top: int, g: Gauge): Gauge
    requires n <= NumFromId(id)
    decreases n
  {
    if n == 0 then g
    else
      var h := AfterBranch(r, id.block.previous, n - 1, top, g);
      match Replay(r, id.block.previous)
      case None => h
      case Some(s) => Measured(h, r.apply(s, id.block).Applied?, Window(r, s, id.block), top)
  }

  /** The cache `f`, cut down to what the gauge says. */
  function Remaining(f: ForkState, g: Gauge): ForkState {
    Pruned(f, g.low).(maxSize := g.size)
  }

  lemma RemainingAll(f: ForkState, undo: nat, undoMax: nat)
    ensures Remaining(f, Gauge(undo, undoMax, f.maxSize, 0)) == f
  {
    assert Pruned(f, 0).index == f.index;
  }

  /** Setting a window cuts the cache further down. */
  lemma WindowCuts(f: ForkState, g: Gauge, accepted: bool, window: Option<nat>)
    requires f.head.Some?
    ensures AfterWindow(Remaining(f, g), window) == Remaining(f, Measured(g, accepted, window, Num(f.head.value.block)))
  {
    if window.Some? {
      var low := MaxNat(0, Num(f.head.value.block) - window.value);
      assert Pruned(Pruned(f, g.low), low).index == Pruned(f, MaxNat(g.low, low)).index;
    }
  }

  lemma AfterBranchStep<S>(r: Rules<S>, id: BlockId, left: nat, n: nat, top: int, g: Gauge, s: S)
    requires 0 < left <= n <= NumFromId(id) && Replay(r, Back(id, left)) == Some(s)
    ensures NumFromId(Back(id, left)) == NumFromId(id) - left
            && NumFromId(Back(id, left - 1)) == NumFromId(id) - left + 1
    ensures var b := Back(id, left - 1).block;
            AfterBranch(r, Back(id, left - 1), n - left + 1, top, g)
            == Measured(AfterBranch(r, Back(id, left), n - left, top, g), r.apply(s, b).Applied?, Window(r, s, b), top)
  {
    BackStep(id, left - 1);
    BackIsAncestor(id, left);
  }

  /** Blocks after the first refused one are not applied. */
  lemma {:induction false} AfterBranchStops<S>(r: Rules<S>, id: BlockId, left: nat, n: nat, top: int, g: Gauge)
    requires left <= n <= NumFromId(id) && (left > 0 ==> Replay(r, Back(id, left)).None?)
    ensures NumFromId(Back(id, left)) == NumFromId(id) - left
    ensures AfterBranch(r, id, n, top, g) == AfterBranch(r, Back(id, left), n - left, top, g)
    decreases left
  {
    BackIsAncestor(id, left);
    if left > 0 {
      if Replay(r, id.block.previous).Some? {
        ReplayPrefix(r, id.block.previous, left - 1);
      }
      AfterBranchStops(r, id.block.previous, left - 1, n - 1, top, g);
    }
  }

  lemma {:induction false} StoresOther(stored: map<nat, Block>, id: BlockId, b: Block)
    requires Stores(stored, id) && NumFromId(id) < Num(b)
    ensures Stores(stored[Num(b) := b], id)
  {
    if id.HashOf? {
      StoresOther(stored, id.block.previous, b);
    }
  }

  lemma {:induction false} TrimmedMatches<S>(r: Rules<S>, undo: seq<Snapshot<S>>, head: BlockId, k: nat)
    requires UndoMatches(r, undo, head) && k <= |undo|
    ensures UndoMatches(r, undo[k..], head)
    decreases |undo|
  {
    if k < |undo| {
      TrimmedMatches(r, undo[..|undo| - 1], undo[|undo| - 1].head, k);
      assert undo[k..][..|undo| - k - 1] == undo[..|undo| - 1][k..];
    }
  }

  /** What a session leaves on the undo stack, for the old head and for a block on top of it. */
  lemma SessionMatches<S>(r: Rules<S>, undo: seq<Snapshot<S>>, max: nat, head: BlockId, state: S, b: Block)
    requires UndoMatches(r, undo, head) && Replay(r, head) == Some(state)
    ensures UndoMatches(r, Trimmed(undo, max), head)
    ensures b.previous == head ==> UndoMatches(r, Trimmed(undo, max) + [Snapshot(head, state)], Id(b))
  {
    var kept := Trimmed(undo, max);
    var drop := if |undo| <= max then 0 else |undo| - max;
    TrimmedMatches(r, undo, head, drop);
    assert kept == undo[drop..];
    var next := kept + [Snapshot(head, state)];
    assert next[..|next| - 1] == kept;
  }

  lemma {:induction false} UndoDepth<S>(r: Rules<S>, undo: seq<Snapshot<S>>, head: BlockId)
    requires UndoMatches(r, undo, head)
    ensures |undo| <= NumFromId(head)
    decreases |undo|
  {
    if |undo| > 0 {
      UndoDepth(r, undo[..|undo| - 1], undo[|undo| - 1].head);
    }
  }

  /** Two block stores that hold the same line agree on every number of it. */
  lemma {:induction false} SameLineSameStore(s: map<nat, Block>, t: map<nat, Block>, id: BlockId, n: nat)
    requires Stores(s, id) && Stores(t, id) && 1 <= n <= NumFromId(id)
    ensures n in s && n in t && s[n] == t[n]
  {
    if n < NumFromId(id) {
      SameLineSameStore(s, t, id.block.previous, n);
    }
  }

  /** Prefixes of a line that replays also replay. */
  lemma {:induction false} ReplayPrefix<S>(r: Rules<S>, id: BlockId, k: nat)
    requires Replay(r, id).Some? && k <= NumFromId(id)
    ensures Replay(r, Back(id, k)).Some?
    decreases k
  {
    if k > 0 {
      ReplayPrefix(r, id.block.previous, k - 1);
    }
  }

  lemma {:induction false} GoodBlocksAll<S>(r: Rules<S>, id: BlockId, n: nat)
    requires Replay(r, id).Some? && n <= NumFromId(id)
    ensures GoodBlocks(r, id, n) == n
    decreases n
  {
    if n > 0 {
      GoodBlocksAll(r, id.block.previous, n - 1);
    }
  }

  /** The first refused block decides how many blocks of the branch are good. */
  lemma {:induction false} GoodBlocksUpTo<S>(r: Rules<S>, id: BlockId, n: nat, i: nat)
    requires 0 < i <= n <= NumFromId(id)
    requires Replay(r, Back(id, i)).Some? && Replay(r, Back(id, i - 1)).None?
    ensures GoodBlocks(r, id, n) == n - i && Replay(r, id).None?
    ensures n - i <= NumFromId(Back(id, i)) && GoodTransactions(r, id, n) == LineTransactions(Back(id, i), n - i)
    decreases i
  {
    BackIsAncestor(id, i);
    if i == 1 {
      GoodBlocksAll(r, id.block.previous, n - 1);
    } else {
      GoodBlocksUpTo(r, id.block.previous, n - 1, i - 1);
    }
  }

  lemma {:induction false} BackBack(id: BlockId, i: nat, j: nat)
    requires i + j <= NumFromId(id)
    ensures NumFromId(Back(id, i)) == NumFromId(id) - i
    ensures Back(Back(id, i), j) == Back(id, i + j)
    decreases i
  {
    if i > 0 {
      BackBack(id.block.previous, i - 1, j);
    }
  }

  lemma {:induction false} WalkSplit(f: ForkState, held: seq<Item>, it: Item, n: nat, m: nat)
    requires Walk(f, held, it, n).Some?
    ensures Walk(f, held, it, n + m) == Walk(f, held, Walk(f, held, it, n).value, m)
    decreases n
  {
    if n > 0 {
      WalkSplit(f, held, Lock(f, held, it).value, n - 1, m);
    }
  }

  lemma {:induction false} WalkNone(f: ForkState, held: seq<Item>, it: Item, n: nat, m: nat)
    requires Walk(f, held, it, n).None? && n <= m
    ensures Walk(f, held, it, m).None?
    decreases n
  {
    if Lock(f, held, it).Some? {
      WalkNone(f, held, Lock(f, held, it).value, n - 1, m - 1);
    }
  }

  lemma {:induction false} WalkStaysOnLine(f: ForkState, held: seq<Item>, it: Item, n: nat)
    requires WellFormed(f) && Walk(f, held, it, n).Some?
    ensures n < Num(it.block)
    ensures Id(Walk(f, held, it, n).value.block) == Back(Id(it.block), n)
    decreases n
  {
    if n > 0 {
      WalkStaysOnLine(f, held, Lock(f, held, it).value, n - 1);
    }
  }

  /** The head pointer never keeps alive the parent of an item that is not above it. */
  lemma LockIgnoresHead(f: ForkState, h: Item, held: seq<Item>, it: Item)
    requires f.head.Some? && Num(it.block) <= Num(f.head.value.block) && Num(it.block) <= Num(h.block)
    ensures Lock(f.(head := Some(h)), held, it) == Lock(f, held, it)
  {
    assert Num(it.block) == NumFromId(it.block.previous) + 1;
    assert NumFromId(Id(h.block)) == Num(h.block);
    assert NumFromId(Id(f.head.value.block)) == Num(f.head.value.block);
  }

  /** Popping the head is one more step of the walk from where it started. */
  lemma WalkStep(f: ForkState, held: seq<Item>, it: Item, j: nat, n: nat)
    requires WellFormed(f) && f.head == Some(it) && Walk(f, held, it, j).Some? && j < n
    ensures var p := Walk(f, held, it, j).value;
            Lock(f.(head := Some(p)), held, p) == Walk(f, held, it, j + 1)
    ensures Walk(f, held, it, j + 1).None? ==> Walk(f, held, it, n).None?
  {
    var p := Walk(f, held, it, j).value;
    WalkSplit(f, held, it, j, 1);
    WalkStaysOnLine(f, held, it, j);
    BackIsAncestor(Id(it.block), j);
    LockIgnoresHead(f, p, held, p);
    if Walk(f, held, it, j + 1).None? {
      WalkNone(f, held, it, j + 1, n);
    }
  }

  /** How many steps back, at most `n`, before a dead pointer. */
  function LongestWalk(f: ForkState, held: seq<Item>, it: Item, n: nat): (j: nat)
    ensures j <= n
    decreases n
  {
    if n == 0 then 0
    else match Lock(f, held, it)
      case None => 0
      case Some(p) => 1 + LongestWalk(f, held, p, n - 1)
  }

  /** How many of `n` blocks can be popped: there is an undo state and a live parent for each. */
  function Pops(f: ForkState, held: seq<Item>, it: Item, undo: nat, n: nat): (j: nat)
    ensures j <= n && j <= undo
  {
    LongestWalk(f, held, it, if n <= undo then n else undo)
  }

  /** Where that leaves the head of the cache: it moves before the undo state is missed. */
  function PopsHead(f: ForkState, held: seq<Item>, it: Item, undo: nat, n: nat): Option<Item> {
    var j := Pops(f, held, it, undo, n);
    if j < n && Walk(f, held, it, j + 1).Some? then Walk(f, held, it, j + 1) else Walk(f, held, it, j)
  }

  lemma {:induction false} LongestWalkIs(f: ForkState, held: seq<Item>, it: Item, n: nat, j: nat)
    requires j <= n && Walk(f, held, it, j).Some? && (j < n ==> Walk(f, held, it, j + 1).None?)
    ensures LongestWalk(f, held, it, n) == j
    decreases n
  {
    if j > 0 {
      LongestWalkIs(f, held, Lock(f, held, it).value, n - 1, j - 1);
    }
  }

  lemma {:induction false} FindHeldComplete(held: seq<Item>, it: Item)
    requires it in held
    ensures FindHeld(held, Id(it.block), it.serial).Some?
  {
    if held[0] != it {
      FindHeldComplete(held[1..], it);
    }
  }

  /** Every held object is the cached object of its block. */
  ghost predicate AllCached(f: ForkState, held: seq<Item>) {
    forall it :: it in held ==> Id(it.block) in f.index && f.index[Id(it.block)] == it
  }

  /** `f` holds some of the objects of `all`. */
  predicate PartOf(f: ForkState, all: ForkState) {
    f.index.Keys <= all.index.Keys && forall id :: id in f.index ==> f.index[id] == all.index[id]
  }

  /** The object of `id` is cached in `f`, or held. */
  predicate Alive(all: ForkState, f: ForkState, held: seq<Item>, id: BlockId) {
    id in f.index || (id in all.index && all.index[id] in held)
  }

  /** Two parts of a cache follow a pointer alike if its target is alive in both or in none. */
  lemma LockAlike(all: ForkState, f: ForkState, g: ForkState, held: seq<Item>, it: Item)
    requires WellFormed(all) && AllCached(all, held) && PartOf(f, all) && PartOf(g, all)
    requires f.head.Some? && Num(it.block) <= Num(f.head.value.block)
    requires g.head.Some? && Num(it.block) <= Num(g.head.value.block)
    requires Alive(all, f, held, it.block.previous) == Alive(all, g, held, it.block.previous)
    ensures Lock(g, held, it) == Lock(f, held, it)
  {
    var t := it.block.previous;
    assert NumFromId(Id(f.head.value.block)) == Num(f.head.value.block);
    assert NumFromId(Id(g.head.value.block)) == Num(g.head.value.block);
    if t in all.index && all.index[t] in held {
      FindHeldComplete(held, all.index[t]);
    }
  }

  lemma {:induction false} WalkAlike(all: ForkState, f: ForkState, g: ForkState, held: seq<Item>, it: Item, n: nat)
    requires WellFormed(all) && WellFormed(f) && AllCached(all, held) && PartOf(f, all) && PartOf(g, all)
    requires f.head.Some? && Num(it.block) <= Num(f.head.value.block)
    requires g.head.Some? && Num(it.block) <= Num(g.head.value.block)
    requires forall t :: Reaches(it.block.previous, t) && Num(it.block) - n <= NumFromId(t) ==>
                           Alive(all, f, held, t) == Alive(all, g, held, t)
    ensures Walk(g, held, it, n) == Walk(f, held, it, n)
    decreases n
  {
    hide Alive, AllCached, PartOf;
    if n > 0 {
      assert Reaches(it.block.previous, it.block.previous);
      LockAlike(all, f, g, held, it);
      var p := Lock(f, held, it);
      if p.Some? {
        assert it.block.previous == Id(p.value.block);
        assert forall t :: Reaches(p.value.block.previous, t) ==> Reaches(it.block.previous, t);
        WalkAlike(all, f, g, held, p.value, n - 1);
      }
    }
  }

  /** The outcomes that leave the chain as it was. */
  predicate Unchanged(out: Outcome) {
    out == Unlinked || out == Ignored || out == NoBranch || out == Refusal || out == Unwound
  }

  /** The fork database returned a head that is higher than ours and does not build on
      it, and both branches are cached back to the fork point. */
  ghost predicate Switching(f: ForkState, oldHead: BlockId) {
    && f.head.Some?
    && var id := Id(f.head.value.block);
    && f.head.value.block.previous != oldHead
    && NumFromId(oldHead) < NumFromId(id)
    && id in f.index && oldHead in f.index && oldHead.HashOf?
    && Walk(f, [], f.index[id], BranchLength(id, oldHead) - 1).Some?
    && Walk(f, [], f.index[oldHead], BranchLength(oldHead, id) - 1).Some?
  }

  /** The items met on a walk of `n - 1` steps. */
  function Collected(f: ForkState, it: Item, n: nat): (s: seq<Item>)
    ensures |s| <= n && (n > 0 ==> s != [])
    decreases n
  {
    if n == 0 then []
    else match Lock(f, [], it)
      case None => [it]
      case Some(p) => [it] + Collected(f, p, n - 1)
  }

  /** The two branches of a switch. */
  ghost function BranchesOf(f: ForkState, oldHead: BlockId): Branches
    requires Switching(f, oldHead)
  {
    var id := Id(f.head.value.block);
    Branches(Collected(f, f.index[id], BranchLength(id, oldHead)),
             Collected(f, f.index[oldHead], BranchLength(oldHead, id)))
  }

  lemma {:induction false} CollectedIsUnique(f: ForkState, s: seq<Item>)
    requires s != [] && Chained(f, s)
    ensures s == Collected(f, s[0], |s|)
    decreases |s|
  {
    if |s| > 1 {
      assert Lock(f, [], s[0]) == Some(s[1]);
      CollectedIsUnique(f, s[1..]);
    } else {
      assert Collected(f, s[0], 1) == [s[0]]
        + (if Lock(f, [], s[0]).None? then [] else Collected(f, Lock(f, [], s[0]).value, 0));
    }
  }

  lemma {:induction false} ChainedAreCached(f: ForkState, s: seq<Item>, id: BlockId)
    requires WellFormed(f) && f.head.Some? && NumFromId(id) <= Num(f.head.value.block)
    requires id in f.index && OnLine(s, id) && Chained(f, s) && s != [] && s[0] == f.index[id]
    ensures AllCached(f, s)
  {
    forall i | 0 <= i < |s| ensures Id(s[i].block) in f.index && f.index[Id(s[i].block)] == s[i] {
      if i > 0 {
        assert Lock(f, [], s[i - 1]) == Some(s[i]);
        BackIsAncestor(id, i);
        assert NumFromId(Id(f.head.value.block)) == Num(f.head.value.block);
      }
    }
  }

  /** What `FetchBranchFrom` returns is what the switch needs. */
  lemma BranchesFound(f: ForkState, br: Branches, id: BlockId, oldHead: BlockId)
    requires WellFormed(f) && f.head.Some? && id == Id(f.head.value.block) && NumFromId(oldHead) < NumFromId(id)
    requires IsBranch(f, br.first, id, oldHead) && IsBranch(f, br.second, oldHead, id)
    ensures BranchesReady(f, br, id, oldHead)
    ensures Switching(f, oldHead) ==> br == BranchesOf(f, oldHead)
  {
    ChainedAreCached(f, br.first, id);
    ChainedAreCached(f, br.second, oldHead);
    CollectedIsUnique(f, br.first);
    CollectedIsUnique(f, br.second);
  }

  lemma SameStores(s: map<nat, Block>, t: map<nat, Block>, id: BlockId)
    requires Stores(s, id) && Stores(t, id)
    ensures forall n :: 1 <= n <= NumFromId(id) ==> n in s && n in t && s[n] == t[n]
  {
    forall n | 1 <= n <= NumFromId(id) ensures n in s && n in t && s[n] == t[n] {
      SameLineSameStore(s, t, id, n);
    }
  }

  /** The switch is needed, and the cache holds both branches back to the fork point. */
  ghost predicate BranchesReady(f: ForkState, br: Branches, id: BlockId, oldHead: BlockId) {
    && WellFormed(f) && id.HashOf? && oldHead.HashOf? && NumFromId(oldHead) < NumFromId(id)
    && OnLine(br.first, id) && |br.first| == BranchLength(id, oldHead)
    && OnLine(br.second, oldHead) && |br.second| == BranchLength(oldHead, id)
    && AllCached(f, br.first + br.second)
    && f.head.Some? && Id(f.head.value.block) == id
  }

  /** The restore fails: the new branch is refused after `k` of its blocks, and there are fewer
      than `k` undo states, or the cache does not reach `k` blocks back from the old head. */
  ghost predicate RestoreFails<S>(r: Rules<S>, f: ForkState, oldHead: BlockId, g: Gauge)
    requires Switching(f, oldHead)
  {
    var br, id := BranchesOf(f, oldHead), Id(f.head.value.block);
    var k, n := GoodBlocks(r, id, BranchLength(id, oldHead)), BranchLength(id, oldHead);
    k < n && (g.undo < k || Walk(Pruned(f, g.low), br.first + br.second, f.index[oldHead], k).None?)
  }

  /** The two sliding windows after the old branch is popped and the new one applied, from
      `depth` undo states of at most `undoMax`. */
  ghost function SwitchGauge<S>(r: Rules<S>, f: ForkState, oldHead: BlockId, depth: nat, undoMax: nat): Gauge
    requires Switching(f, oldHead) && BranchLength(oldHead, Id(f.head.value.block)) <= depth
  {
    var id := Id(f.head.value.block);
    var m := BranchLength(oldHead, id);
    AfterBranch(r, id, BranchLength(id, oldHead), NumFromId(id) - m, Gauge(depth - m, undoMax, f.maxSize, 0))
  }

  /** The old branch cannot be popped: not enough undo states, or a dead pointer behind the new
      head. */
  ghost predicate OldPopFails(f: ForkState, oldHead: BlockId, depth: nat)
    requires Switching(f, oldHead)
  {
    var br, m := BranchesOf(f, oldHead), BranchLength(oldHead, Id(f.head.value.block));
    depth < m || Walk(f, br.first + br.second, f.head.value, m).None?
  }

  /** When popping goes wrong in a switch: the old branch cannot be popped, or the restore
      fails. */
  ghost predicate PopFails<S>(r: Rules<S>, f: ForkState, oldHead: BlockId, depth: nat, undoMax: nat)
    requires Switching(f, oldHead)
  {
    || OldPopFails(f, oldHead, depth)
    || RestoreFails(r, f, oldHead, SwitchGauge(r, f, oldHead, depth, undoMax))
  }

  /** What a switch does to the head and to the queue of popped transactions: all of it,
      nothing of it, or, when stuck, a block of the branch whose popping failed. */
  ghost predicate SwitchResult<S>(r: Rules<S>, f: ForkState, oldHead: BlockId, depth: nat, oldPopped: seq<Transaction>,
                                  head: BlockId, popped: seq<Transaction>, out: Outcome)
    requires Switching(f, oldHead)
  {
    var id := Id(f.head.value.block);
    var gone := LineTransactions(oldHead, BranchLength(oldHead, id)) + oldPopped;
    match out
    case Switched => head == id && Replay(r, id).Some? && popped == gone
    case Unwound =>
      && head == oldHead && Replay(r, id).None?
      && popped == GoodTransactions(r, id, BranchLength(id, oldHead)) + gone
    case Stuck =>
      if OldPopFails(f, oldHead, depth)
      then exists j :: 0 <= j < BranchLength(oldHead, id) && head == Back(oldHead, j)
      else exists j :: 0 < j < BranchLength(id, oldHead) && head == Back(id, j)
    case _ => false
  }

  /** The two sliding windows after a restore, from `cache` and `g`: the refused blocks are
      forgotten, `k` blocks are popped from the old head back, and the old branch applied. */
  ghost predicate RestoredWindows<S>(r: Rules<S>, cache: ForkState, br: Branches, oldHead: BlockId, k: nat, g: Gauge,
                                     undo: nat, undoMax: nat, now: ForkState) {
    && k <= |br.first| && 0 < |br.second| <= NumFromId(oldHead) && k <= g.undo
    && var gone := Forgotten(cache, br.first[..|br.first| - k], br.second[0]);
    && var p := Walk(gone, br.first + br.second, br.second[0], k);
    && p.Some?
    && var e := AfterBranch(r, oldHead, |br.second|, Num(p.value.block),
                            Gauge(g.undo - k, g.undoMax, cache.maxSize, 0));
       undo == e.undo && undoMax == e.undoMax && now == Remaining(gone.(head := p), e)
  }

  /** What a switch makes of the undo stack and the cache, unless it gets stuck. */
  ghost predicate SwitchWindows<S>(r: Rules<S>, f: ForkState, oldHead: BlockId, depth: nat, oldMax: nat,
                                   undo: nat, undoMax: nat, now: ForkState, out: Outcome)
    requires Switching(f, oldHead)
  {
    out == Stuck ||
    (&& !OldPopFails(f, oldHead, depth)
     && var br, id := BranchesOf(f, oldHead), Id(f.head.value.block);
     && var g := SwitchGauge(r, f, oldHead, depth, oldMax);
     && var p := Walk(f, br.first + br.second, f.head.value, BranchLength(oldHead, id));
     && var cache := Remaining(f.(head := p), g);
        if out == Switched then undo == g.undo && undoMax == g.undoMax && now == cache
        else RestoredWindows(r, cache, br, oldHead, GoodBlocks(r, id, BranchLength(id, oldHead)), g, undo, undoMax,
                             now))
  }

  /** Where popping the old branch of a switch breaks off. */
  ghost predicate StuckInPop(f: ForkState, oldHead: BlockId, depth: nat, oldMax: nat,
                             oldPopped: seq<Transaction>, head: BlockId, popped: seq<Transaction>,
                             undo: nat, undoMax: nat, now: ForkState)
    requires Switching(f, oldHead)
  {
    var br, m := BranchesOf(f, oldHead), BranchLength(oldHead, Id(f.head.value.block));
    var held := br.first + br.second;
    var j := Pops(f, held, f.head.value, depth, m);
    && j < m && head == Back(oldHead, j) && popped == LineTransactions(oldHead, j) + oldPopped
    && undo == depth - j && undoMax == oldMax && now == f.(head := PopsHead(f, held, f.head.value, depth, m))
  }

  /** Where a restore breaks off, from `cache` and `g`: after `k` good blocks of the new branch,
      with the refused ones forgotten, and some of the good ones popped. */
  ghost predicate StuckInRestore(cache: ForkState, br: Branches, id: BlockId, k: nat, g: Gauge,
                                 oldPopped: seq<Transaction>, head: BlockId, popped: seq<Transaction>,
                                 undo: nat, undoMax: nat, now: ForkState) {
    && k <= |br.first| <= NumFromId(id) && br.second != []
    && var left, held := |br.first| - k, br.first + br.second;
    && var gone := Forgotten(cache, br.first[..left], br.second[0]);
    && var j := Pops(gone, held, br.second[0], g.undo, k);
    && j < k && head == Back(id, left + j) && j <= NumFromId(Back(id, left))
    && popped == LineTransactions(Back(id, left), j) + oldPopped
    && undo == g.undo - j && undoMax == g.undoMax && now == gone.(head := PopsHead(gone, held, br.second[0], g.undo, k))
  }

  /** The database after a switch that got stuck. */
  ghost predicate StuckState<S>(r: Rules<S>, f: ForkState, oldHead: BlockId, depth: nat, oldMax: nat,
                                oldPopped: seq<Transaction>, head: BlockId, popped: seq<Transaction>,
                                undo: nat, undoMax: nat, now: ForkState)
    requires Switching(f, oldHead)
  {
    if OldPopFails(f, oldHead, depth)
    then StuckInPop(f, oldHead, depth, oldMax, oldPopped, head, popped, undo, undoMax, now)
    else
      var br, id := BranchesOf(f, oldHead), Id(f.head.value.block);
      var g, m := SwitchGauge(r, f, oldHead, depth, oldMax), BranchLength(oldHead, id);
      var cache := Remaining(f.(head := Walk(f, br.first + br.second, f.head.value, m)), g);
      StuckInRestore(cache, br, id, GoodBlocks(r, id, BranchLength(id, oldHead)), g,
                     LineTransactions(oldHead, m) + oldPopped, head, popped, undo, undoMax, now)
  }

  /** After a restore none of the refused blocks is cached. */
  lemma RefusedAreForgotten<S>(r: Rules<S>, cache: ForkState, br: Branches, oldHead: BlockId, k: nat, g: Gauge,
                               undo: nat, undoMax: nat, now: ForkState, i: nat)
    requires RestoredWindows(r, cache, br, oldHead, k, g, undo, undoMax, now) && i < |br.first| - k
    ensures Id(br.first[i].block) !in now.index
  {
    assert br.first[..|br.first| - k][i] == br.first[i];
  }

  /** The outcome of pushing `b`, once it is in the cache `f`. */
  ghost function OutcomeOf<S>(r: Rules<S>, f: ForkState, oldHead: BlockId, depth: nat, undoMax: nat, b: Block): Outcome
    requires f.head.Some?
  {
    var newHead := f.head.value.block;
    if newHead.previous == oldHead then
      if b.previous == oldHead && Replay(r, Id(b)).Some? then Extended else Refusal
    else if Num(newHead) <= NumFromId(oldHead) then Ignored
    else if !Switching(f, oldHead) then NoBranch
    else if PopFails(r, f, oldHead, depth, undoMax) then Stuck
    else if Replay(r, Id(newHead)).Some? then Switched
    else Unwound
  }

  /** The cache without the blocks of a refused branch, and with its head put back. */
  function Forgotten(f: ForkState, bad: seq<Item>, it: Item): ForkState {
    f.(index := map id | id in f.index && (forall x :: x in bad ==> Id(x.block) != id) :: f.index[id], head := Some(it))
  }

  lemma BadBlocksAreHigh(s: seq<Item>, id: BlockId, left: nat)
    requires OnLine(s, id) && left <= |s|
    ensures forall it :: it in s[..left] ==> NumFromId(id) - left + 1 <= Num(it.block)
  {
    forall i | 0 <= i < left ensures NumFromId(id) - left + 1 <= Num(s[i].block) {
      BackIsAncestor(id, i);
    }
  }

  /** Forgetting the refused part of the new branch does not touch the walk back from the old
      head: those blocks are on the other side of the fork point, or held. */
  lemma WalkForgets(f: ForkState, br: Branches, id: BlockId, oldHead: BlockId, left: nat, p: Item, g: Gauge, n: nat)
    requires BranchesReady(f, br, id, oldHead) && 0 < left <= |br.first|
    ensures var held, it := br.first + br.second, br.second[0];
            Walk(Forgotten(Remaining(f.(head := Some(p)), g), br.first[..left], it), held, it, n)
              == Walk(Pruned(f, g.low), held, it, n)
  {
    hide NumFromId, Back, ForkPoint;
    var held, it := br.first + br.second, br.second[0];
    var cut, gone := Pruned(f, g.low), Forgotten(Remaining(f.(head := Some(p)), g), br.first[..left], it);
    forall t | Reaches(it.block.previous, t) ensures Alive(f, cut, held, t) == Alive(f, gone, held, t) {
      ForgottenAlive(f, br, left, p, g, t);
    }
    assert NumFromId(Id(it.block)) == NumFromId(oldHead) by { OldHeadItem(br, oldHead); }
    HeadNumbers(f, br, id, oldHead);
    WalkAlike(f, cut, gone, held, it, n);
  }

  lemma OldHeadItem(br: Branches, oldHead: BlockId)
    requires OnLine(br.second, oldHead) && br.second != []
    ensures Id(br.second[0].block) == oldHead && NumFromId(oldHead) == Num(br.second[0].block)
  {
  }

  lemma HeadNumbers(f: ForkState, br: Branches, id: BlockId, oldHead: BlockId)
    requires BranchesReady(f, br, id, oldHead)
    ensures br.second != [] && Num(br.second[0].block) <= Num(f.head.value.block)
  {
    OldHeadItem(br, oldHead);
    assert NumFromId(id) == Num(f.head.value.block);
  }

  /** Every object that is forgotten is held. */
  lemma ForgottenAlive(f: ForkState, br: Branches, left: nat, p: Item, g: Gauge, t: BlockId)
    requires WellFormed(f) && AllCached(f, br.first + br.second) && left <= |br.first| && br.second != []
    ensures var held := br.first + br.second;
            Alive(f, Pruned(f, g.low), held, t)
            == Alive(f, Forgotten(Remaining(f.(head := Some(p)), g), br.first[..left], br.second[0]), held, t)
  {
    var held := br.first + br.second;
    forall x | x in br.first[..left] && Id(x.block) == t ensures t in f.index && f.index[t] in held {
      assert x in held;
    }
  }

  /** Both branches start from the same block. */
  lemma BranchesMeet(f: ForkState, br: Branches, id: BlockId, oldHead: BlockId)
    requires BranchesReady(f, br, id, oldHead)
    ensures Back(id, |br.first|) == Back(oldHead, |br.second|) == br.second[|br.second| - 1].block.previous
  {
    ForkPointSymmetric(id, oldHead);
    BranchEnd(br.first, id, oldHead);
    BranchEnd(br.second, oldHead, id);
    BackStep(oldHead, |br.second| - 1);
    BackStep(id, |br.first| - 1);
  }

  lemma BranchRefused<S>(r: Rules<S>, first: seq<Item>, id: BlockId, left: nat)
    requires OnLine(first, id) && 0 < left <= |first|
    requires Replay(r, Back(id, left)).Some? && Replay(r, Back(id, left - 1)).None?
    ensures var k := |first| - left;
            && GoodBlocks(r, id, |first|) == k <= NumFromId(Back(id, left))
            && GoodTransactions(r, id, |first|) == LineTransactions(Back(id, left), k)
            && Back(Back(id, left), k) == Back(id, |first|)
    ensures Replay(r, id).None?
    ensures forall it :: it in first[..left] ==> NumFromId(id) - left + 1 <= Num(it.block)
  {
    GoodBlocksUpTo(r, id, |first|, left);
    BackBack(id, left, |first| - left);
    BadBlocksAreHigh(first, id, left);
  }

  lemma {:induction false} ChainedWalk(f: ForkState, held: seq<Item>, s: seq<Item>, n: nat)
    requires Chained(f, s) && n < |s|
    ensures Walk(f, held, s[0], n) == Some(s[n])
    decreases n
  {
    if n > 0 {
      assert Lock(f, [], s[0]) == Some(s[1]);
      ChainedWalk(f, held, s[1..], n - 1);
    }
  }

  /** Applying a block numbered `N` reports a window of at least `N - lib + 1`, as the node does
      while the last irreversible block is not above `lib`. */
  ghost predicate WindowsReach<S>(r: Rules<S>, id: BlockId, n: nat, lib: int)
    requires n <= NumFromId(id)
    decreases n
  {
    n == 0 ||
    (&& WindowsReach(r, id.block.previous, n - 1, lib)
     && (Replay(r, id.block.previous).Some? ==>
           var v := Window(r, Replay(r, id.block.previous).value, id.block);
           v.Some? ==> NumFromId(id) - lib + 1 <= v.value))
  }

  /** With such windows no undo state of the new branch is lost, and the cache keeps what is
      within the first window below its head. */
  lemma {:induction false} GaugeReaches<S>(r: Rules<S>, id: BlockId, n: nat, top: int, g: Gauge, lib: int)
    requires n <= NumFromId(id) && WindowsReach(r, id, n, lib) && lib <= NumFromId(id) - n && g.low <= 0
    ensures var h, k, first := AfterBranch(r, id, n, top, g), GoodBlocks(r, id, n), NumFromId(id) - n + 1;
            && k <= h.undo
            && h.low <= MaxNat(0, top - (first - lib + 1))
            && (Replay(r, Back(id, n)).Some? && k == n && n > 0 ==> n < h.undoMax)
    decreases n
  {
    if n > 0 {
      GaugeReaches(r, id.block.previous, n - 1, top, g, lib);
    }
  }

  /** A cut below the walk does not matter. */
  lemma WalkAboveCut(f: ForkState, low: int, held: seq<Item>, it: Item, n: nat)
    requires WellFormed(f) && AllCached(f, held) && f.head.Some? && Num(it.block) <= Num(f.head.value.block)
    requires low <= Num(it.block) - n
    ensures Walk(Pruned(f, low), held, it, n) == Walk(f, held, it, n)
  {
    hide NumFromId;
    forall t | Reaches(it.block.previous, t) && Num(it.block) - n <= NumFromId(t)
      ensures Alive(f, f, held, t) == Alive(f, Pruned(f, low), held, t)
    {
      assert t in f.index ==> NumFromId(t) == Num(f.index[t].block) by { CachedNumber(f, t); }
    }
    WalkAlike(f, f, Pruned(f, low), held, it, n);
  }

  lemma CachedNumber(f: ForkState, t: BlockId)
    requires WellFormed(f)
    ensures t in f.index ==> NumFromId(t) == Num(f.index[t].block)
  {
  }

  /** The branches of a switch are what the cache holds. */
  lemma SwitchingBranches(f: ForkState, oldHead: BlockId)
    requires WellFormed(f) && Switching(f, oldHead)
    ensures var br, id := BranchesOf(f, oldHead), Id(f.head.value.block);
            && BranchesReady(f, br, id, oldHead) && Chained(f, br.first) && Chained(f, br.second)
            && br.first[0] == f.index[id] && br.second[0] == f.index[oldHead]
  {
    var id := Id(f.head.value.block);
    CollectedIsBranch(f, id, oldHead);
    CollectedIsBranch(f, oldHead, id);
    BranchesFound(f, BranchesOf(f, oldHead), id, oldHead);
  }

  lemma CollectedIsBranch(f: ForkState, id: BlockId, other: BlockId)
    requires WellFormed(f) && id.HashOf? && other.HashOf? && id in f.index
    requires Walk(f, [], f.index[id], BranchLength(id, other) - 1).Some?
    ensures IsBranch(f, Collected(f, f.index[id], BranchLength(id, other)), id, other)
  {
    CollectedShape(f, f.index[id], BranchLength(id, other));
    BackIsAncestor(id, BranchLength(id, other) - 1);
  }

  lemma {:induction false} CollectedShape(f: ForkState, it: Item, n: nat)
    requires WellFormed(f) && n > 0 && Walk(f, [], it, n - 1).Some?
    ensures var s := Collected(f, it, n);
            && |s| == n && s[0] == it && Chained(f, s) && OnLine(s, Id(it.block))
    decreases n
  {
    WalkStaysOnLine(f, [], it, n - 1);
    if n > 1 {
      var p := Lock(f, [], it).value;
      CollectedShape(f, p, n - 1);
      var s, rest := Collected(f, it, n), Collected(f, p, n - 1);
      forall i | 0 <= i < n ensures Id(s[i].block) == Back(Id(it.block), i) {
        if i > 0 {
          assert s[i] == rest[i - 1];
        }
      }
      forall i | 0 <= i < n - 1 ensures Lock(f, [], s[i]) == Some(s[i + 1]) {
        if i > 0 {
          assert s[i] == rest[i - 1] && s[i + 1] == rest[i];
        }
      }
    } else {
      assert Collected(f, it, 1) == [it]
        + (if Lock(f, [], it).None? then [] else Collected(f, Lock(f, [], it).value, 0));
    }
  }

  /** The exact condition under which a switch is not all or nothing, when the head pointer is
      the cached object of the new head, the fork point is not below the irreversible block
      and the windows cover the restore: there are fewer undo states than blocks in the old
      branch; or the new branch is refused after `k` blocks, at least as many as the old
      branch has, and the cache does not reach `k - m + 1` blocks below the old branch. */
  lemma PopFailsExactly<S>(r: Rules<S>, f: ForkState, oldHead: BlockId, depth: nat, undoMax: nat, lib: int)
    requires WellFormed(f) && Switching(f, oldHead) && f.head.value == f.index[Id(f.head.value.block)]
    requires var id := Id(f.head.value.block);
             var m, n, base := BranchLength(oldHead, id), BranchLength(id, oldHead),
               NumFromId(id) - BranchLength(id, oldHead);
             lib <= base && WindowsReach(r, id, n, lib) && n + GoodBlocks(r, id, n) - 2 * m <= base - lib + 2
    ensures var br, id := BranchesOf(f, oldHead), Id(f.head.value.block);
            var m, n, k := BranchLength(oldHead, id), BranchLength(id, oldHead),
              GoodBlocks(r, id, BranchLength(id, oldHead));
            && |br.second| == m
            && (PopFails(r, f, oldHead, depth, undoMax) <==>
                || depth < m
                || (m <= k < n && Walk(f, br.first + br.second, br.second[m - 1], k - m + 1).None?))
  {
    hide Switching, NumFromId, ForkPoint, AfterBranch, WellFormed, BranchesOf, Chained, Walk, GoodBlocks,
      WindowsReach, BranchLength;
    SwitchingBranches(f, oldHead);
    var br, id := BranchesOf(f, oldHead), Id(f.head.value.block);
    var held, m, n := br.first + br.second, BranchLength(oldHead, id), BranchLength(id, oldHead);
    var k := GoodBlocks(r, id, n);
    BranchesDiffer(f, br, id, oldHead);
    ChainedWalk(f, held, br.first, m);
    if depth >= m {
      var g := SwitchGauge(r, f, oldHead, depth, undoMax);
      GaugeReaches(r, id, n, NumFromId(id) - m, Gauge(depth - m, undoMax, f.maxSize, 0), lib);
      if k < n {
        RestoreWalk(f, br, id, oldHead, g.low, k);
      }
    }
  }

  /** A cut that is not above the walk: the walk back from the old head is dead exactly if it
      leaves the old branch and is dead below it. */
  lemma RestoreWalk(f: ForkState, br: Branches, id: BlockId, oldHead: BlockId, low: int, k: nat)
    requires BranchesReady(f, br, id, oldHead) && Chained(f, br.second) && low <= MaxNat(0, NumFromId(oldHead) - k)
    ensures br.second != []
    ensures var held, m := br.first + br.second, |br.second|;
            Walk(Pruned(f, low), held, br.second[0], k).None? <==>
            m <= k && Walk(f, held, br.second[m - 1], k - m + 1).None?
  {
    hide NumFromId, ForkPoint, BranchLength, Walk, Back;
    var held, m := br.first + br.second, |br.second|;
    HeadNumbers(f, br, id, oldHead);
    OldHeadItem(br, oldHead);
    if NumFromId(oldHead) - k >= 0 {
      WalkAboveCut(f, low, held, br.second[0], k);
    } else {
      TooFar(Pruned(f, low), held, br.second[0], k);
      TooFar(f, held, br.second[0], k);
    }
    if k < m {
      ChainedWalk(f, held, br.second, k);
    } else {
      ChainedWalk(f, held, br.second, m - 1);
      WalkSplit(f, held, br.second[0], m - 1, k - m + 1);
    }
  }

  lemma BranchesDiffer(f: ForkState, br: Branches, id: BlockId, oldHead: BlockId)
    requires BranchesReady(f, br, id, oldHead)
    ensures |br.second| < |br.first| && NumFromId(id) - |br.first| == NumFromId(oldHead) - |br.second|
  {
    ForkPointSymmetric(id, oldHead);
  }

  /** A fork that is one block longer, the usual case, with the fork point not below the
      irreversible block: the windows always suffice, and only a missing undo state, or a
      missing fork point when just the last block is refused, keeps the old chain from being
      restored. */
  lemma OneLonger<S>(r: Rules<S>, f: ForkState, oldHead: BlockId, depth: nat, undoMax: nat, lib: int)
    requires WellFormed(f) && Switching(f, oldHead) && f.head.value == f.index[Id(f.head.value.block)]
    requires var id := Id(f.head.value.block);
             && NumFromId(id) == NumFromId(oldHead) + 1
             && lib <= NumFromId(id) - BranchLength(id, oldHead) && WindowsReach(r, id, BranchLength(id, oldHead), lib)
    ensures var br, id := BranchesOf(f, oldHead), Id(f.head.value.block);
            var m, k := BranchLength(oldHead, id), GoodBlocks(r, id, BranchLength(id, oldHead));
            && |br.second| == m
            && (PopFails(r, f, oldHead, depth, undoMax) <==>
                depth < m || (k == m && Walk(f, br.first + br.second, br.second[m - 1], 1).None?))
  {
    ForkPointSymmetric(Id(f.head.value.block), oldHead);
    hide Switching, NumFromId, ForkPoint, AfterBranch, PopFails, WindowsReach;
    PopFailsExactly(r, f, oldHead, depth, undoMax, lib);
  }

  /** A higher fork that is cached and valid is adopted, if there are undo states for the blocks
      it replaces. */
  lemma AdoptsLongerFork<S>(r: Rules<S>, f: ForkState, oldHead: BlockId, depth: nat, undoMax: nat, b: Block)
    requires WellFormed(f) && Switching(f, oldHead) && f.head.value == f.index[Id(f.head.value.block)]
    requires Replay(r, Id(f.head.value.block)).Some? && BranchLength(oldHead, Id(f.head.value.block)) <= depth
    ensures OutcomeOf(r, f, oldHead, depth, undoMax, b) == Switched
  {
    hide Switching, NumFromId, ForkPoint, AfterBranch, WellFormed, BranchesOf, Chained, Walk, GoodBlocks, BranchLength;
    SwitchingBranches(f, oldHead);
    var br, id := BranchesOf(f, oldHead), Id(f.head.value.block);
    BranchesDiffer(f, br, id, oldHead);
    ChainedWalk(f, br.first + br.second, br.first, |br.second|);
    AllReplay(r, id, BranchLength(id, oldHead));
    assert Num(f.head.value.block) > NumFromId(oldHead) && f.head.value.block.previous != oldHead by {
      SwitchingIsHigher(f, oldHead);
    }
  }

  lemma AllReplay<S>(r: Rules<S>, id: BlockId, n: nat)
    requires Replay(r, id).Some? && n <= NumFromId(id)
    ensures GoodBlocks(r, id, n) == n
  {
    GoodBlocksAll(r, id, n);
  }

  lemma SwitchingIsHigher(f: ForkState, oldHead: BlockId)
    requires Switching(f, oldHead)
    ensures Num(f.head.value.block) > NumFromId(oldHead) && f.head.value.block.previous != oldHead
  {
    assert NumFromId(Id(f.head.value.block)) == Num(f.head.value.block);
  }

  /** A fork that starts at block 1 and is refused at or above the height of the old head
      always gets stuck: the restore walks the fork database back past block 1. */
  lemma GenesisForkSticks<S>(r: Rules<S>, f: ForkState, oldHead: BlockId, depth: nat, undoMax: nat, b: Block)
    requires WellFormed(f) && Switching(f, oldHead)
    requires var id := Id(f.head.value.block);
             && ForkPoint(id, oldHead) == NoBlock
             && BranchLength(oldHead, id) <= GoodBlocks(r, id, BranchLength(id, oldHead)) < BranchLength(id, oldHead)
    ensures OutcomeOf(r, f, oldHead, depth, undoMax, b) == Stuck
  {
    var br, id := BranchesOf(f, oldHead), Id(f.head.value.block);
    var k, m := GoodBlocks(r, id, BranchLength(id, oldHead)), BranchLength(oldHead, id);
    ForkPointSymmetric(id, oldHead);
    assert NumFromId(Id(f.index[oldHead].block)) == Num(f.index[oldHead].block);
    if depth >= m {
      TooFar(Pruned(f, SwitchGauge(r, f, oldHead, depth, undoMax).low), br.first + br.second, f.index[oldHead], k);
    }
  }

  lemma TooFar(f: ForkState, held: seq<Item>, it: Item, n: nat)
    requires WellFormed(f) && Num(it.block) <= n
    ensures Walk(f, held, it, n).None?
  {
    if Walk(f, held, it, n).Some? {
      WalkStaysOnLine(f, held, it, n);
    }
  }
}
