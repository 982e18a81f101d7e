/** Blocks, block ids and the ancestry of a block.

    A block id is a hash of the whole signed header, which names the previous
    block.  The model takes that hash as collision free, so an id is the block
    itself under a constructor: equal ids mean equal blocks, and an id fixes
    every ancestor. */
module Blocks {

  type Transaction = nat

  datatype Block = Block(previous: BlockId, transactions: seq<Transaction>, seal: nat)

  /** `NoBlock` is the all-zero id: the "previous" of block number 1. */
  datatype BlockId = NoBlock | HashOf(block: Block)

  function Id(b: Block): BlockId {
    HashOf(b)
  }

  /** The number is stored inside the id: one more than that of the previous block. */
  function NumFromId(id: BlockId): (n: nat)
    ensures n == 0 <==> id.NoBlock?
  {
    match id
    case NoBlock => 0
    case HashOf(b) => NumFromId(b.previous) + 1
  }

  function Num(b: Block): nat {
    NumFromId(b.previous) + 1
  }

  /** `a` is `id` itself or one of its ancestors (`NoBlock` is everybody's). */
  predicate Reaches(id: BlockId, a: BlockId) {
    id == a || (id.HashOf? && Reaches(id.block.previous, a))
  }

  /** The block `k` generations before `id`. */
  function Back(id: BlockId, k: nat): BlockId
    requires k <= NumFromId(id)
    decreases k
  {
    if k == 0 then id else Back(id.block.previous, k - 1)
  }

  lemma {:induction false} ReachesNum(id: BlockId, a: BlockId)
    requires Reaches(id, a)
    ensures NumFromId(a) <= NumFromId(id)
    ensures NumFromId(a) == NumFromId(id) ==> a == id
  {
    if id != a {
      ReachesNum(id.block.previous, a);
    }
  }

  lemma {:induction false} ReachesTransitive(x: BlockId, y: BlockId, z: BlockId)
    requires Reaches(x, y) && Reaches(y, z)
    ensures Reaches(x, z)
  {
    if x != y {
      ReachesTransitive(x.block.previous, y, z);
    }
  }

  /** The ancestors of a block form one line: two of them are never incomparable. */
  lemma {:induction false} AncestorsAreALine(x: BlockId, y: BlockId, z: BlockId)
    requires Reaches(x, y) && Reaches(x, z)
    requires NumFromId(z) <= NumFromId(y)
    ensures Reaches(y, z)
  {
    if x == y {
    } else if x == z {
      ReachesNum(x, y);
    } else {
      AncestorsAreALine(x.block.previous, y, z);
    }
  }

  lemma BackZero(id: BlockId)
    ensures Back(id, 0) == id
  {
  }

  lemma {:induction false} BackIsAncestor(id: BlockId, k: nat)
    requires k <= NumFromId(id)
    ensures Reaches(id, Back(id, k))
    ensures NumFromId(Back(id, k)) == NumFromId(id) - k
    decreases k
  {
    if k > 0 {
      BackIsAncestor(id.block.previous, k - 1);
    }
  }

  lemma {:induction false} BackStep(id: BlockId, k: nat)
    requires k < NumFromId(id)
    ensures NumFromId(Back(id, k)) == NumFromId(id) - k
    ensures Back(id, k).HashOf?
    ensures Back(id, k + 1) == Back(id, k).block.previous
    decreases k
  {
    if k > 0 {
      BackStep(id.block.previous, k - 1);
    }
  }

  /** Where the two backward walks of `fetch_branch_from` stop: the common
      `previous` of the last blocks of the two branches. */
  function ForkPoint(a: BlockId, b: BlockId): BlockId
    requires a.HashOf? && b.HashOf?
    decreases NumFromId(a) + NumFromId(b)
  {
    var pa, pb := a.block.previous, b.block.previous;
    if NumFromId(a) > NumFromId(b) then ForkPoint(pa, b)
    else if NumFromId(b) > NumFromId(a) then ForkPoint(a, pb)
    else if pa == pb then pa
    else ForkPoint(pa, pb)
  }

  /** The fork point lies strictly before both blocks on both lines. */
  lemma {:induction false} ForkPointIsCommon(a: BlockId, b: BlockId)
    requires a.HashOf? && b.HashOf?
    ensures var f := ForkPoint(a, b);
            && Reaches(a.block.previous, f) && Reaches(b.block.previous, f)
            && NumFromId(f) < NumFromId(a) && NumFromId(f) < NumFromId(b)
    decreases NumFromId(a) + NumFromId(b)
  {
    var pa, pb := a.block.previous, b.block.previous;
    if NumFromId(a) > NumFromId(b) {
      ForkPointIsCommon(pa, b);
    } else if NumFromId(b) > NumFromId(a) {
      ForkPointIsCommon(a, pb);
    } else if pa != pb {
      ForkPointIsCommon(pa, pb);
    }
  }

  /** If neither block is an ancestor of the other, the fork point is their most
      recent common ancestor: every common ancestor is one of its own ancestors. */
  lemma {:induction false} ForkPointIsMostRecent(a: BlockId, b: BlockId, c: BlockId)
    requires a.HashOf? && b.HashOf?
    requires !Reaches(a, b) && !Reaches(b, a)
    requires Reaches(a, c) && Reaches(b, c)
    ensures Reaches(ForkPoint(a, b), c)
    decreases NumFromId(a) + NumFromId(b)
  {
    var pa, pb := a.block.previous, b.block.previous;
    assert c != a && c != b;
    assert Reaches(pa, c) && Reaches(pb, c);
    if NumFromId(a) > NumFromId(b) {
      if Reaches(b, pa) { ReachesNum(b, pa); }
      ForkPointIsMostRecent(pa, b, c);
    } else if NumFromId(b) > NumFromId(a) {
      if Reaches(a, pb) { ReachesNum(a, pb); }
      ForkPointIsMostRecent(a, pb, c);
    } else if pa != pb {
      if Reaches(pa, pb) { ReachesNum(pa, pb); }
      if Reaches(pb, pa) { ReachesNum(pb, pa); }
      ForkPointIsMostRecent(pa, pb, c);
    }
  }

  /** If one block is an ancestor of the other, the walks stop one step further
      back, at the previous of that ancestor: both branches end in it. */
  lemma {:induction false} ForkPointOfAncestor(a: BlockId, b: BlockId)
    requires a.HashOf? && b.HashOf?
    requires Reaches(a, b)
    ensures ForkPoint(a, b) == ForkPoint(b, a) == b.block.previous
    decreases NumFromId(a)
  {
    ReachesNum(a, b);
    if a != b {
      var pa := a.block.previous;
      ReachesNum(pa, b);
      ForkPointOfAncestor(pa, b);
    }
  }
}
