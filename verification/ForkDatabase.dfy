/** The fork database: the sliding window of recent blocks, all branches of it. */
module ForkDatabase {
  import opened Wrappers
  import opened Blocks

  /** A cached block.  `serial` tells two cached objects of the same block apart,
      and `parent` is the weak pointer to the cached object of the previous block. */
  datatype Item = Item(block: Block, serial: nat, parent: Option<nat>)

  datatype ForkState = ForkState(index: map<BlockId, Item>, head: Option<Item>, maxSize: nat, nextSerial: nat)

  datatype Branches = Branches(first: seq<Item>, second: seq<Item>)

  datatype PushError = TooOld | Unlinkable

  /** Every cached object sits under its own id. */
  predicate WellFormed(f: ForkState) {
    forall id :: id in f.index ==> id == Id(f.index[id].block)
  }

  function FindHeld(held: seq<Item>, id: BlockId, serial: nat): (r: Option<Item>)
    ensures r.Some? ==> r.value in held && Id(r.value.block) == id && r.value.serial == serial
  {
    if held == [] then None
    else if Id(held[0].block) == id && held[0].serial == serial then Some(held[0])
    else FindHeld(held[1..], id, serial)
  }

  /** Follow the weak pointer of an item.  The target is alive while the index, the
      head pointer or one of the `held` shared pointers still owns it. */
  function Lock(f: ForkState, held: seq<Item>, it: Item): (r: Option<Item>)
    ensures WellFormed(f) && r.Some? ==> Id(r.value.block) == it.block.previous
  {
    var id := it.block.previous;
    if it.parent.None? then None
    else if id in f.index && f.index[id].serial == it.parent.value then Some(f.index[id])
    else if f.head.Some? && Id(f.head.value.block) == id && f.head.value.serial == it.parent.value then f.head
    else FindHeld(held, id, it.parent.value)
  }

  /** An object that something still owns: the index, the head pointer or a held pointer. */
  ghost predicate Owned(f: ForkState, held: seq<Item>, x: Item) {
    (exists id :: id in f.index && f.index[id] == x) || f.head == Some(x) || x in held
  }

  lemma {:induction false} FindHeldExactly(held: seq<Item>, id: BlockId, serial: nat)
    ensures FindHeld(held, id, serial).None? ==> forall x :: x in held ==> Id(x.block) != id || x.serial != serial
  {
    if held != [] {
      FindHeldExactly(held[1..], id, serial);
    }
  }

  /** A weak pointer leads to an object exactly if it was set and the very object it was set
      to, not another one of the same block, is still owned. */
  lemma LockExactly(f: ForkState, held: seq<Item>, it: Item)
    requires WellFormed(f)
    ensures Lock(f, held, it).Some? <==>
            && it.parent.Some?
            && exists x :: Owned(f, held, x) && Id(x.block) == it.block.previous && x.serial == it.parent.value
    ensures Lock(f, held, it).Some? ==>
            var x := Lock(f, held, it).value;
            Owned(f, held, x) && Id(x.block) == it.block.previous && x.serial == it.parent.value
  {
    if it.parent.Some? {
      FindHeldExactly(held, it.block.previous, it.parent.value);
    }
  }

  /** Take `n` steps back from an item, if every pointer on the way is alive. */
  function Walk(f: ForkState, held: seq<Item>, it: Item, n: nat): (r: Option<Item>)
    decreases n
  {
    if n == 0 then Some(it)
    else match Lock(f, held, it)
      case None => None
      case Some(p) => Walk(f, held, p, n - 1)
  }

  /** `s` holds the cached objects of the first `|s|` blocks on the line of `id`. */
  predicate OnLine(s: seq<Item>, id: BlockId) {
    && |s| <= NumFromId(id)
    && forall i :: 0 <= i < |s| ==> Id(s[i].block) == Back(id, i)
  }

  /** Each item of `s` points at the next one. */
  predicate Chained(f: ForkState, s: seq<Item>) {
    forall i :: 0 <= i < |s| - 1 ==> Lock(f, [], s[i]) == Some(s[i + 1])
  }

  /** How many blocks of `id`'s line lie above the fork point with `other`. */
  function BranchLength(id: BlockId, other: BlockId): (n: nat)
    requires id.HashOf? && other.HashOf?
    ensures 1 <= n <= NumFromId(id)
  {
    ForkPointIsCommon(id, other);
    NumFromId(id) - NumFromId(ForkPoint(id, other))
  }

  /** The cached objects from `id` back to the child of its fork point with `other`. */
  ghost predicate IsBranch(f: ForkState, s: seq<Item>, id: BlockId, other: BlockId) {
    && id.HashOf? && other.HashOf? && id in f.index
    && OnLine(s, id) && |s| == BranchLength(id, other)
    && s[0] == f.index[id]
    && Chained(f, s)
  }

  function MaxNat(a: int, b: int): int {
    if a < b then b else a
  }

  /** Keep the objects numbered `low` or higher. */
  function Pruned(f: ForkState, low: int): ForkState {
    f.(index := map id | id in f.index && low <= Num(f.index[id].block) :: f.index[id])
  }

  lemma RemoveOne<K, V>(m: map<K, V>, all: set<K>, rest: set<K>, k: K)
    requires k in rest && rest <= all
    ensures m - (all - rest) - {k} == m - (all - (rest - {k}))
  {
    assert (all - rest) + {k} == all - (rest - {k});
  }

  lemma PrunedIsRemoval(f: ForkState, low: int, stale: set<BlockId>)
    requires WellFormed(f)
    requires stale == set id | id in f.index && Num(f.index[id].block) < low
    ensures Pruned(f, low).index == f.index - stale
    ensures WellFormed(Pruned(f, low))
  {
  }

  function Resized(f: ForkState, size: nat): ForkState {
    var g := f.(maxSize := size);
    if f.head.None? then g else Pruned(g, MaxNat(0, Num(f.head.value.block) - size))
  }

  /** A new window keeps exactly the blocks that are not further below the head than it is. */
  lemma ResizedKeeps(f: ForkState, size: nat, id: BlockId)
    requires WellFormed(f)
    ensures var g := Resized(f, size);
            && g.maxSize == size && g.head == f.head && g.nextSerial == f.nextSerial
            && (id in g.index <==>
                  id in f.index && (f.head.Some? ==> Num(f.head.value.block) <= NumFromId(id) + size))
            && (id in g.index ==> g.index[id] == f.index[id])
  {
    assert id in f.index ==> NumFromId(id) == Num(f.index[id].block);
  }

  /** What pushing a block does: the refusals, the link to the parent, and the
      new head with its window when the block is higher than the old head. */
  function Pushed(f: ForkState, b: Block): Result<ForkState, PushError> {
    if f.head.Some? && Num(b) <= MaxNat(0, Num(f.head.value.block) - f.maxSize) then Failure(TooOld)
    else if f.head.Some? && b.previous != NoBlock && b.previous !in f.index then Failure(Unlinkable)
    else
      var parent := if f.head.Some? && b.previous != NoBlock then Some(f.index[b.previous].serial) else None;
      var it := Item(b, f.nextSerial, parent);
      var index := if Id(b) in f.index then f.index else f.index[Id(b) := it];
      var g := f.(index := index, nextSerial := f.nextSerial + 1);
      if f.head.None? then Success(g.(head := Some(it)))
      else if Num(b) <= Num(f.head.value.block) then Success(g)
      else Success(Pruned(g.(head := Some(it)), MaxNat(0, Num(b) - f.maxSize)))
  }

  /** A push keeps the cache keyed by id, and the returned head is never lower than
      either the old head or the new block. */
  lemma PushedHead(f: ForkState, b: Block)
    requires WellFormed(f)
    requires Pushed(f, b).Success?
    ensures var g := Pushed(f, b).value;
            && WellFormed(g)
            && g.head.Some?
            && Num(b) <= Num(g.head.value.block)
            && (f.head.Some? ==> Num(f.head.value.block) <= Num(g.head.value.block))
            && (g.head == f.head || g.head.value.block == b)
            && (forall id :: id in g.index && id != Id(b) ==> id in f.index && g.index[id] == f.index[id])
  {
    var g := Pushed(f, b).value;
    assert forall id :: id in g.index ==> id == Id(b) || id in f.index;
  }

  /** A push adds the new block to the cache, and drops exactly the blocks below the window
      of a new head. */
  lemma PushedKeeps(f: ForkState, b: Block, id: BlockId)
    requires WellFormed(f) && Pushed(f, b).Success?
    ensures id in Pushed(f, b).value.index <==>
            && (id in f.index || id == Id(b))
            && (f.head.Some? && Num(f.head.value.block) < Num(b) ==> Num(b) - f.maxSize <= NumFromId(id))
    ensures id in f.index && id in Pushed(f, b).value.index ==> Pushed(f, b).value.index[id] == f.index[id]
  {
    assert id in f.index ==> NumFromId(id) == Num(f.index[id].block);
    assert NumFromId(Id(b)) == Num(b);
  }

  /** A push is refused exactly if there is a head, and the block is a whole window below it or
      names a previous block that is not cached. */
  lemma PushRefusedExactly(f: ForkState, b: Block)
    ensures Pushed(f, b) == Failure(TooOld) <==> f.head.Some? && Num(b) + f.maxSize <= Num(f.head.value.block)
    ensures Pushed(f, b) == Failure(Unlinkable) <==>
            && f.head.Some? && Num(f.head.value.block) < Num(b) + f.maxSize
            && b.previous.HashOf? && b.previous !in f.index
    ensures Pushed(f, b).Failure? <==>
            && f.head.Some?
            && (Num(b) + f.maxSize <= Num(f.head.value.block) || (b.previous.HashOf? && b.previous !in f.index))
  {
  }

  /** The object that a push makes of a block: it points at the cached object of the previous
      block, unless it is the first one in the cache or block number 1. */
  predicate Links(f: ForkState, b: Block, it: Item) {
    && it.block == b && it.serial == f.nextSerial
    && (it.parent.Some? <==> f.head.Some? && b.previous.HashOf?)
    && (it.parent.Some? ==> b.previous in f.index && it.parent.value == f.index[b.previous].serial)
  }

  lemma PushLinks(f: ForkState, b: Block)
    requires WellFormed(f) && Pushed(f, b).Success?
    ensures var g := Pushed(f, b).value;
            && g.maxSize == f.maxSize && g.nextSerial == f.nextSerial + 1
            && (Id(b) !in f.index && Id(b) in g.index ==> Links(f, b, g.index[Id(b)]))
            && (g.head == f.head || (g.head.Some? && Links(f, b, g.head.value)))
            && (g.head == f.head <==> f.head.Some? && Num(b) <= Num(f.head.value.block))
  {
  }

  /** What pushes keep: the head is cached and the highest block, and every cached block but
      the first one leads to the cached object of its previous block, until that one is a
      whole window below the head. */
  ghost predicate LinksLive(f: ForkState, first: BlockId) {
    && WellFormed(f)
    && (f.head.None? ==> f.index == map[])
    && (f.head.Some? ==>
          && Id(f.head.value.block) in f.index && f.index[Id(f.head.value.block)] == f.head.value
          && (forall id :: id in f.index ==> Num(f.index[id].block) <= Num(f.head.value.block))
          && (forall id :: id in f.index && id != first && f.index[id].block.previous.HashOf? ==>
              LinkLive(f, f.index[id])))
  }

  predicate LinkLive(f: ForkState, it: Item) {
    var previous := it.block.previous;
    if previous in f.index then Lock(f, [], it) == Some(f.index[previous])
    else f.head.Some? && NumFromId(previous) + f.maxSize < Num(f.head.value.block)
  }

  lemma PushKeepsLinks(f: ForkState, b: Block, first: BlockId)
    requires LinksLive(f, first) && Pushed(f, b).Success? && (f.head.None? ==> first == Id(b))
    ensures LinksLive(Pushed(f, b).value, first)
  {
    hide Pushed, NumFromId, LinkLive, Links;
    var g := Pushed(f, b).value;
    PushLinks(f, b);
    PushedHead(f, b);
    IdNumber(b);
    forall id | id in g.index
      ensures Num(g.index[id].block) <= Num(g.head.value.block)
      ensures id != first && g.index[id].block.previous.HashOf? ==> LinkLive(g, g.index[id])
    {
      assert g.index[id].block == b || (id in f.index && g.index[id] == f.index[id]);
      if id != first && g.index[id].block.previous.HashOf? {
        LinkStays(f, b, first, id);
      }
    }
    assert Id(g.head.value.block) in g.index && g.index[Id(g.head.value.block)] == g.head.value by {
      HeadStaysCached(f, b, first);
    }
  }

  lemma IdNumber(b: Block)
    ensures NumFromId(Id(b)) == Num(b) > 0
  {
  }

  lemma HeadStaysCached(f: ForkState, b: Block, first: BlockId)
    requires LinksLive(f, first) && Pushed(f, b).Success?
    ensures var g := Pushed(f, b).value;
            g.head.Some? && Id(g.head.value.block) in g.index && g.index[Id(g.head.value.block)] == g.head.value
  {
    var g := Pushed(f, b).value;
    PushedKeeps(f, b, Id(b));
    if f.head.Some? {
      PushedKeeps(f, b, Id(f.head.value.block));
      assert Id(b) in f.index ==> Num(f.index[Id(b)].block) == Num(b);
    }
  }

  lemma LinkStays(f: ForkState, b: Block, first: BlockId, id: BlockId)
    requires LinksLive(f, first) && Pushed(f, b).Success? && (f.head.None? ==> first == Id(b))
    requires id in Pushed(f, b).value.index && id != first
    requires Pushed(f, b).value.index[id].block.previous.HashOf?
    ensures LinkLive(Pushed(f, b).value, Pushed(f, b).value.index[id])
  {
    hide Pushed, NumFromId;
    var g := Pushed(f, b).value;
    var it := g.index[id];
    var previous := it.block.previous;
    PushLinks(f, b);
    PushedHead(f, b);
    PushRefusedExactly(f, b);
    PushedKeeps(f, b, previous);
    IdNumber(b);
    assert previous != Id(it.block) by { PreviousIsOther(it.block); }
    if id in f.index {
      PushedKeeps(f, b, id);
      assert it == f.index[id] && LinkLive(f, it);
    }
  }

  lemma PreviousIsOther(b: Block)
    ensures b.previous != Id(b)
  {
  }

  /** Push blocks in order; a refused one changes nothing. */
  function PushRun(f: ForkState, blocks: seq<Block>): ForkState
    decreases |blocks|
  {
    if blocks == [] then f
    else
      var r := Pushed(f, blocks[0]);
      PushRun(if r.Success? then r.value else f, blocks[1..])
  }

  lemma {:induction false} PushRunAppends(f: ForkState, blocks: seq<Block>, b: Block)
    ensures var g := PushRun(f, blocks);
            PushRun(f, blocks + [b]) == if Pushed(g, b).Success? then Pushed(g, b).value else g
    decreases |blocks|
  {
    hide Pushed;
    if blocks == [] {
      assert blocks + [b] == [b] && [b][1..] == [];
    } else {
      assert (blocks + [b])[1..] == blocks[1..] + [b];
      PushRunAppends(if Pushed(f, blocks[0]).Success? then Pushed(f, blocks[0]).value else f, blocks[1..], b);
    }
  }

  /** Over any run of pushes from an empty cache every block but the first one is linked to the
      cached object of the block it names. */
  lemma {:induction false} RunLinks(f: ForkState, blocks: seq<Block>, first: BlockId)
    requires LinksLive(f, first) && (f.head.None? && blocks != [] ==> first == Id(blocks[0]))
    ensures LinksLive(PushRun(f, blocks), first)
    decreases |blocks|
  {
    hide LinksLive, Pushed;
    if blocks != [] {
      FirstIsAccepted(f, blocks[0]);
      if Pushed(f, blocks[0]).Success? {
        PushKeepsLinks(f, blocks[0], first);
        assert Pushed(f, blocks[0]).value.head.Some? by { LiveIsWellFormed(f, first); PushedHead(f, blocks[0]); }
      }
      RunLinks(if Pushed(f, blocks[0]).Success? then Pushed(f, blocks[0]).value else f, blocks[1..], first);
    }
  }

  lemma FirstIsAccepted(f: ForkState, b: Block)
    ensures f.head.None? ==> Pushed(f, b).Success?
  {
  }

  lemma LiveIsWellFormed(f: ForkState, first: BlockId)
    requires LinksLive(f, first)
    ensures WellFormed(f)
  {
  }

  lemma EmptyIsLive(maxSize: nat, serial: nat, first: BlockId)
    ensures LinksLive(ForkState(map[], None, maxSize, serial), first)
  {
  }

  /** Along one branch the walk never leaves the line, so the two branches of
      incomparable blocks share no block. */
  lemma {:induction false} BranchesDisjoint(r: Branches, a: BlockId, b: BlockId)
    requires a.HashOf? && b.HashOf? && !Reaches(a, b) && !Reaches(b, a)
    requires OnLine(r.first, a) && |r.first| == BranchLength(a, b)
    requires OnLine(r.second, b) && |r.second| == BranchLength(b, a)
    ensures forall i, j :: 0 <= i < |r.first| && 0 <= j < |r.second| ==> r.first[i].block != r.second[j].block
  {
    ForkPointIsCommon(a, b);
    ForkPointSymmetric(a, b);
    forall i, j | 0 <= i < |r.first| && 0 <= j < |r.second|
      ensures r.first[i].block != r.second[j].block
    {
      BackIsAncestor(a, i);
      BackIsAncestor(b, j);
      if r.first[i].block == r.second[j].block {
        ForkPointIsMostRecent(a, b, Id(r.first[i].block));
        ReachesNum(ForkPoint(a, b), Back(a, i));
        assert false;
      }
    }
  }

  lemma {:induction false} ForkPointSymmetric(a: BlockId, b: BlockId)
    requires a.HashOf? && b.HashOf?
    ensures ForkPoint(a, b) == ForkPoint(b, a)
    decreases NumFromId(a) + NumFromId(b)
  {
    var pa, pb := a.block.previous, b.block.previous;
    if NumFromId(a) > NumFromId(b) {
      ForkPointSymmetric(pa, b);
    } else if NumFromId(b) > NumFromId(a) {
      ForkPointSymmetric(a, pb);
    } else if pa != pb {
      ForkPointSymmetric(pa, pb);
    }
  }

  /** Walking the higher block down to the lower one's level keeps the fork point. */
  lemma {:induction false} ForkPointLevel(a: BlockId, b: BlockId, k: nat)
    requires a.HashOf? && b.HashOf? && NumFromId(b) + k <= NumFromId(a)
    ensures Back(a, k).HashOf? && ForkPoint(Back(a, k), b) == ForkPoint(a, b)
    decreases k
  {
    if k > 0 {
      ForkPointLevel(a.block.previous, b, k - 1);
    }
  }

  /** The last block of a branch is the child of the fork point. */
  lemma {:induction false} BranchEnd(s: seq<Item>, a: BlockId, b: BlockId)
    requires a.HashOf? && b.HashOf?
    requires OnLine(s, a) && |s| == BranchLength(a, b)
    ensures s[|s| - 1].block.previous == ForkPoint(a, b)
    ensures forall i :: 0 <= i < |s| - 1 ==> s[i].block.previous == Id(s[i + 1].block)
  {
    ForkPointIsCommon(a, b);
    BackStep(a, |s| - 1);
    BackIsAncestor(a, |s|);
    assert Reaches(a, ForkPoint(a, b));
    AncestorsAreALine(a, Back(a, |s|), ForkPoint(a, b));
    ReachesNum(Back(a, |s|), ForkPoint(a, b));
    forall i | 0 <= i < |s| - 1 ensures s[i].block.previous == Id(s[i + 1].block) {
      BackStep(a, i);
    }
  }

  class ForkDatabase {
    var index: map<BlockId, Item>
    var head: Option<Item>
    var maxSize: nat
    var nextSerial: nat

    function State(): ForkState
      reads this
    {
      ForkState(index, head, maxSize, nextSerial)
    }

    predicate Valid()
      reads this
    {
      WellFormed(State())
    }

    constructor ()
      ensures Valid()
      ensures State() == ForkState(map[], None, 1024, 0)
    {
      index, head, maxSize, nextSerial := map[], None, 1024, 0;
    }

    /** Erase cached objects below `low`. */
    method EraseBelow(low: int)
      requires Valid()
      modifies this`index
      ensures Valid() && State() == Pruned(old(State()), low)
    {
      var stale := set id | id in index && Num(index[id].block) < low;
      ghost var all := stale;
      PrunedIsRemoval(State(), low, all);
      while stale != {}
        invariant stale <= all
        invariant index == old(index) - (all - stale)
        decreases stale
      {
        var id :| id in stale;
        RemoveOne(old(index), all, stale, id);
        stale := stale - {id};
        index := index - {id};
      }
    }

    method SetMaxSize(size: nat)
      requires Valid()
      modifies this
      ensures Valid() && State() == Resized(old(State()), size)
    {
      maxSize := size;
      if head.Some? {
        EraseBelow(MaxNat(0, Num(head.value.block) - size));
      }
    }

    method PushBlock(b: Block) returns (r: Result<Item, PushError>)
      requires Valid()
      modifies this
      ensures Valid()
      ensures r.Failure? ==> State() == old(State()) && Pushed(old(State()), b) == Failure(r.error)
      ensures r.Success? ==> Pushed(old(State()), b) == Success(State()) && head == Some(r.value)
      ensures r == Failure(TooOld) <==> old(head).Some? && Num(b) + old(maxSize) <= Num(old(head).value.block)
      ensures r == Failure(Unlinkable) <==>
              && old(head).Some? && Num(old(head).value.block) < Num(b) + old(maxSize)
              && b.previous.HashOf? && b.previous !in old(index)
      ensures r.Success? && Id(b) !in old(index) && Id(b) in index ==> Links(old(State()), b, index[Id(b)])
    {
      PushBlockKeepsKeys(State(), b);
      PushRefusedExactly(State(), b);
      var parent: Option<nat> := None;
      if head.Some? {
        if Num(b) <= MaxNat(0, Num(head.value.block) - maxSize) {
          return Failure(TooOld);
        }
        if b.previous != NoBlock {
          if b.previous !in index {
            return Failure(Unlinkable);
          }
          parent := Some(index[b.previous].serial);
        }
      }
      var it := Item(b, nextSerial, parent);
      nextSerial := nextSerial + 1;
      if Id(b) !in index {
        index := index[Id(b) := it];
      }
      if head.None? {
        head := Some(it);
      } else if Num(b) > Num(head.value.block) {
        head := Some(it);
        EraseBelow(MaxNat(0, Num(b) - maxSize));
      }
      r := Success(head.value);
    }

    static lemma PushBlockKeepsKeys(f: ForkState, b: Block)
      requires WellFormed(f)
      ensures Pushed(f, b).Success? ==> WellFormed(Pushed(f, b).value)
      ensures Pushed(f, b).Success? && Id(b) !in f.index && Id(b) in Pushed(f, b).value.index ==>
                Links(f, b, Pushed(f, b).value.index[Id(b)])
    {
      if Pushed(f, b).Success? {
        PushedHead(f, b);
        PushLinks(f, b);
      }
    }

    /** Move the head one step back along its weak pointer. */
    method PopBlock(held: seq<Item>) returns (ok: bool)
      requires Valid()
      modifies this`head
      ensures Valid()
      ensures ok <==> old(head).Some? && Lock(old(State()), held, old(head).value).Some?
      ensures ok ==> head == Lock(old(State()), held, old(head).value)
      ensures !ok ==> State() == old(State())
    {
      if head.None? {
        return false;
      }
      var prev := Lock(State(), held, head.value);
      if prev.None? {
        return false;
      }
      head := prev;
      ok := true;
    }

    method SetHead(it: Item)
      requires Valid()
      modifies this`head
      ensures Valid() && State() == old(State()).(head := Some(it))
    {
      head := Some(it);
    }

    method Remove(id: BlockId)
      requires Valid()
      modifies this`index
      ensures Valid() && State() == old(State()).(index := old(index) - {id})
    {
      index := index - {id};
    }

    /** Walk back from the cached object of `id` to block number `low`. */
    method Descend(from: Item, low: nat, ghost id: BlockId, ghost len: nat) returns (r: Option<(seq<Item>, Item)>)
      requires Valid() && Tracks(State(), [], from, id, len) && len <= NumFromId(id)
      requires NumFromId(id) - len < low < Num(from.block)
      ensures r.None? ==> Walk(State(), [], from, len - 1).None?
      ensures r.Some? ==> Tracks(State(), r.value.0, r.value.1, id, len) && Num(r.value.1.block) == low
    {
      var it, done := from, [];
      while Num(it.block) > low
        invariant Tracks(State(), done, it, id, len) && low <= Num(it.block)
        decreases Num(it.block)
      {
        StepBack(State(), done, it, id, len);
        done := done + [it];
        var p := Lock(State(), [], it);
        if p.None? {
          return None;
        }
        it := p.value;
      }
      return Some((done, it));
    }

    /** From two objects of the same number, walk back until their previous ids agree. */
    method DescendBoth(done: Branches, from: Item, other: Item, ghost a: BlockId, ghost b: BlockId)
      returns (r: Option<Branches>)
      requires Valid() && a.HashOf? && b.HashOf?
      requires Tracks(State(), done.first, from, a, BranchLength(a, b))
      requires Tracks(State(), done.second, other, b, BranchLength(b, a))
      requires Num(from.block) == Num(other.block)
      requires ForkPoint(Id(from.block), Id(other.block)) == ForkPoint(a, b) == ForkPoint(b, a)
      ensures r.Some? <==>
              && Walk(State(), [], index[a], BranchLength(a, b) - 1).Some?
              && Walk(State(), [], index[b], BranchLength(b, a) - 1).Some?
      ensures r.Some? ==> IsBranch(State(), r.value.first, a, b) && IsBranch(State(), r.value.second, b, a)
    {
      ghost var la, lb := BranchLength(a, b), BranchLength(b, a);
      var first, second, x, y := done.first, done.second, from, other;
      while x.block.previous != y.block.previous
        invariant Tracks(State(), first, x, a, la) && Tracks(State(), second, y, b, lb)
        invariant Num(y.block) == Num(x.block)
        invariant ForkPoint(Id(x.block), Id(y.block)) == ForkPoint(a, b)
        decreases Num(x.block)
      {
        ForkPointIsCommon(x.block.previous, y.block.previous);
        StepBack(State(), first, x, a, la);
        StepBack(State(), second, y, b, lb);
        var p, q := Lock(State(), [], x), Lock(State(), [], y);
        if p.None? || q.None? {
          return None;
        }
        first, second := first + [x], second + [y];
        x, y := p.value, q.value;
      }
      return Some(Branches(first + [x], second + [y]));
    }

    /** The two branches leading back to the fork point of two cached blocks. */
    method FetchBranchFrom(a: BlockId, b: BlockId) returns (r: Option<Branches>)
      requires Valid()
      ensures a.NoBlock? || b.NoBlock? ==> r.None?
      ensures r.Some? <==>
              && a in index && b in index && a.HashOf? && b.HashOf?
              && Walk(State(), [], index[a], BranchLength(a, b) - 1).Some?
              && Walk(State(), [], index[b], BranchLength(b, a) - 1).Some?
      ensures r.Some? ==> IsBranch(State(), r.value.first, a, b) && IsBranch(State(), r.value.second, b, a)
    {
      hide ForkPoint, IsBranch;
      if a !in index || b !in index {
        return None;
      }
      ghost var la, lb := BranchLength(a, b), BranchLength(b, a);
      ForkPointIsCommon(a, b);
      ForkPointSymmetric(a, b);
      var x, y := index[a], index[b];
      var first, second := [], [];
      if Num(x.block) > Num(y.block) {
        var down := Descend(x, Num(y.block), a, la);
        if down.None? {
          return None;
        }
        first, x := down.value.0, down.value.1;
        ForkPointLevel(a, b, |first|);
      }
      if Num(y.block) > Num(x.block) {
        var down := Descend(y, Num(x.block), b, lb);
        if down.None? {
          return None;
        }
        second, y := down.value.0, down.value.1;
        ForkPointLevel(b, a, |second|);
        ForkPointSymmetric(Id(x.block), Id(y.block));
      }
      r := DescendBoth(Branches(first, second), x, y, a, b);
    }
  }

  /** The walk so far: `done` are the blocks passed, `it` is the current one, and the
      whole walk of `len - 1` steps succeeds exactly if the rest of it does. */
  ghost predicate Tracks(f: ForkState, done: seq<Item>, it: Item, id: BlockId, len: nat) {
    && WellFormed(f) && id in f.index
    && OnLine(done + [it], id)
    && Chained(f, done + [it])
    && (done + [it])[0] == f.index[id]
    && NumFromId(id) == Num(it.block) + |done|
    && |done| < len
    && Walk(f, [], f.index[id], len - 1).Some? == Walk(f, [], it, len - 1 - |done|).Some?
  }

  lemma StepBack(f: ForkState, done: seq<Item>, it: Item, id: BlockId, len: nat)
    requires Tracks(f, done, it, id, len)
    requires |done| + 1 < len <= NumFromId(id)
    ensures Lock(f, [], it).None? ==> Walk(f, [], f.index[id], len - 1).None?
    ensures Lock(f, [], it).Some? ==> Tracks(f, done + [it], Lock(f, [], it).value, id, len)
  {
    var p := Lock(f, [], it);
    assert Id(it.block) == Back(id, |done|) by { assert (done + [it])[|done|] == it; }
    if p.Some? {
      var d := done + [it];
      var all := d + [p.value];
      BackStep(id, |done|);
      assert forall i :: 0 <= i < |d| ==> all[i] == d[i];
      assert Chained(f, all) by {
        forall i | 0 <= i < |all| - 1 ensures Lock(f, [], all[i]) == Some(all[i + 1]) {
          if i < |d| - 1 { assert Lock(f, [], d[i]) == Some(d[i + 1]); }
        }
      }
    }
  }
}
