/** A run in which a switch does not restore the old chain: two blocks number 1, and an
    invalid block number 2 on top of the second one. */
module GenesisFork {
  import opened Wrappers
  import opened Blocks
  import opened ForkDatabase
  import opened ForkSwitch
  import opened ChainDatabase

  const A1 := Block(NoBlock, [], 1)
  const B1 := Block(NoBlock, [], 2)
  const B2 := Block(HashOf(Block(NoBlock, [], 2)), [], 13)

  const ITEM_A1 := Item(A1, 0, None)
  const ITEM_B1 := Item(B1, 1, None)
  const ITEM_B2 := Item(B2, 2, Some(1))

  /** Block application refuses exactly the blocks sealed with 13.  With nothing irreversible
      yet, block number 1 sets the windows to 2. */
  function Apply(s: int, b: Block): Applied<int> {
    if b.seal == 13 then Refused(None) else Applied(s + 1, 2)
  }

  const RULES: Rules<int> := Rules(0, Apply)

  const EMPTY := ForkState(map[], None, 1024, 0)

  /** The cache with the first block, before and after it was applied. */
  const CACHE_1 := ForkState(map[Id(A1) := ITEM_A1], Some(ITEM_A1), 1024, 1)
  const CACHE_2 := ForkState(map[Id(A1) := ITEM_A1], Some(ITEM_A1), 2, 1)

  /** With the second, and with all three blocks. */
  const CACHE_3 := ForkState(map[Id(A1) := ITEM_A1, Id(B1) := ITEM_B1], Some(ITEM_A1), 2, 2)
  const CACHE_4 := ForkState(map[Id(A1) := ITEM_A1, Id(B1) := ITEM_B1, Id(B2) := ITEM_B2], Some(ITEM_B2), 2, 3)

  lemma Numbers()
    ensures Num(A1) == Num(B1) == 1 && Num(B2) == 2
    ensures NumFromId(Id(A1)) == NumFromId(Id(B1)) == 1 && NumFromId(Id(B2)) == 2
  {
  }

  lemma PushesOne()
    ensures Pushed(EMPTY, A1) == Success(CACHE_1) && Resized(CACHE_1, 2) == CACHE_2
  {
    Numbers();
    assert Pruned(CACHE_2, 0).index == CACHE_2.index;
  }

  lemma PushesTwo()
    ensures Pushed(CACHE_2, B1) == Success(CACHE_3)
  {
    Numbers();
  }

  lemma PushesThree()
    ensures Pushed(CACHE_3, B2) == Success(CACHE_4)
  {
    Numbers();
    assert Pruned(CACHE_4, 0).index == CACHE_4.index;
    assert CACHE_3.index[Id(B2) := ITEM_B2] == CACHE_4.index;
  }

  lemma BothBranchesCached()
    ensures WellFormed(CACHE_4) && Switching(CACHE_4, Id(A1))
    ensures ForkPoint(Id(B2), Id(A1)) == NoBlock
    ensures BranchLength(Id(B2), Id(A1)) == 2 && BranchLength(Id(A1), Id(B2)) == 1
  {
    Numbers();
    assert ForkPoint(Id(B2), Id(A1)) == ForkPoint(Id(B1), Id(A1)) == NoBlock;
    ForkPointSymmetric(Id(B2), Id(A1));
    assert Lock(CACHE_4, [], ITEM_B2) == Some(ITEM_B1);
    assert Walk(CACHE_4, [], ITEM_B2, 1) == Some(ITEM_B1);
  }

  lemma Replays()
    ensures Replay(RULES, NoBlock) == Some(0) && Replay(RULES, Id(A1)) == Some(1)
    ensures GoodBlocks(RULES, Id(B2), 2) == 1
  {
    assert Replay(RULES, Id(B1)) == Some(1) && Replay(RULES, Id(B2)).None?;
    assert GoodBlocks(RULES, Id(B1), 1) == 1;
  }

  /** Whatever the undo stack, pushing the third block gets stuck. */
  lemma GetsStuck(depth: nat, undoMax: nat)
    ensures OutcomeOf(RULES, CACHE_4, Id(A1), depth, undoMax, B2) == Stuck
  {
    BothBranchesCached();
    Replays();
    hide Switching, OutcomeOf, GoodBlocks, ForkPoint, BranchLength;
    GenesisForkSticks(RULES, CACHE_4, Id(A1), depth, undoMax, B2);
  }

  /** The old branch is popped, so the database is left on the new one. */
  lemma StuckOnNew(depth: nat, popped: seq<Transaction>, head: BlockId, after: seq<Transaction>)
    requires depth >= 1 && Switching(CACHE_4, Id(A1))
    requires SwitchResult(RULES, CACHE_4, Id(A1), depth, popped, head, after, Stuck)
    ensures head == Id(B1)
  {
    hide Switching, ForkPoint, NumFromId, BranchLength;
    BothBranchesCached();
    Numbers();
    SwitchingBranches(CACHE_4, Id(A1));
    var br := BranchesOf(CACHE_4, Id(A1));
    assert Lock(CACHE_4, br.first + br.second, ITEM_B2) == Some(ITEM_B1);
    assert Walk(CACHE_4, br.first + br.second, ITEM_B2, 1) == Some(ITEM_B1);
    assert !OldPopFails(CACHE_4, Id(A1), depth);
    assert Back(Id(B2), 1) == Id(B1);
  }

  lemma FirstStep(t: Moment<int>, out: Outcome)
    requires PushStep(RULES, Moment(NoBlock, 0, 0, 10, EMPTY, map[], []), A1, out, t)
    ensures out == Extended && t == Moment(Id(A1), 1, 1, 2, CACHE_2, map[1 := A1], [])
  {
    hide Replay, Resized, Pushed, Switching, SwitchResult, PopFails;
    PushesOne();
    Replays();
    Numbers();
    assert map[][1 := A1] == map[1 := A1];
  }

  lemma SecondStep(s: Moment<int>, t: Moment<int>, out: Outcome)
    requires s.head == Id(A1) && s.fork == CACHE_2 && PushStep(RULES, s, B1, out, t)
    ensures out == Ignored && t == s.(fork := CACHE_3)
  {
    hide Replay, Resized, Pushed, Switching, SwitchResult, PopFails;
    PushesTwo();
    Numbers();
  }

  lemma ThirdStep(s: Moment<int>, t: Moment<int>, out: Outcome)
    requires s.head == Id(A1) && s.undo >= 1 && s.fork == CACHE_3 && PushStep(RULES, s, B2, out, t)
    ensures out == Stuck && t.head == Id(B1)
  {
    hide Replay, Resized, Pushed, Switching, SwitchResult, OutcomeOf;
    PushesThree();
    BothBranchesCached();
    GetsStuck(s.undo, s.undoMax);
    StuckOnNew(s.undo, s.popped, t.head, t.popped);
  }

  /** From an empty database: the first block extends the chain, the second is only cached, and
      the third, an invalid block, leaves the database on the second instead of the first. */
  method Demonstrate() returns (outs: seq<Outcome>, head: BlockId)
    ensures outs == [Extended, Ignored, Stuck]
    ensures head == Id(B1)
  {
    hide PushStep, Replay;
    var fork := new ForkDatabase();
    var db := new ChainDatabase<int>(RULES, fork);
    var first := db.PushBlock(A1);
    FirstStep(db.Now(), first);
    ghost var s := db.Now();
    var second := db.PushBlock(B1);
    SecondStep(s, db.Now(), second);
    s := db.Now();
    var third := db.PushBlock(B2);
    ThirdStep(s, db.Now(), third);
    outs, head := [first, second, third], db.head;
  }
}
