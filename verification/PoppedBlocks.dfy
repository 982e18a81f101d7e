/** A run after which popped blocks are on file above the head: four blocks are pushed, two of
    them popped, and another third block pushed. */
module PoppedBlocks {
  import opened Wrappers
  import opened Blocks
  import opened ForkDatabase
  import opened ForkSwitch
  import opened ChainDatabase
  import Synopsis
  import Sync

  const C1 := Block(NoBlock, [], 0)
  const C2 := Block(HashOf(C1), [], 0)
  const N3 := Block(HashOf(C2), [], 0)
  const N4 := Block(HashOf(N3), [], 0)
  const O3 := Block(HashOf(C2), [], 1)

  /** All blocks apply.  The state counts them, and nothing is irreversible, so that the windows
      are set to one more than the number of the block. */
  function Apply(s: nat, b: Block): Applied<nat> {
    Applied(s + 1, s + 2)
  }

  const RULES: Rules<nat> := Rules(0, Apply)

  lemma Numbers()
    ensures Num(C1) == 1 && Num(C2) == 2 && Num(N3) == Num(O3) == 3 && Num(N4) == 4
  {
    assert NumFromId(Id(C1)) == 1;
    assert NumFromId(Id(C2)) == 2;
    assert NumFromId(Id(N3)) == 3;
  }

  lemma {:induction false} ReplayCounts(id: BlockId)
    ensures Replay(RULES, id) == Some(NumFromId(id))
  {
    if id.HashOf? {
      ReplayCounts(id.block.previous);
    }
  }

  const ITEM_1 := Item(C1, 0, None)
  const ITEM_2 := Item(C2, 1, Some(0))
  const ITEM_3 := Item(N3, 2, Some(1))
  const ITEM_4 := Item(N4, 3, Some(2))

  /** The cache after each of the four pushes. */
  const CACHE_0 := ForkState(map[], None, 1024, 0)
  const CACHE_1 := ForkState(map[Id(C1) := ITEM_1], Some(ITEM_1), 2, 1)
  const CACHE_2 := ForkState(map[Id(C1) := ITEM_1, Id(C2) := ITEM_2], Some(ITEM_2), 3, 2)
  const CACHE_3 := ForkState(map[Id(C1) := ITEM_1, Id(C2) := ITEM_2, Id(N3) := ITEM_3], Some(ITEM_3), 4, 3)
  const CACHE_4 := ForkState(map[Id(C1) := ITEM_1, Id(C2) := ITEM_2, Id(N3) := ITEM_3, Id(N4) := ITEM_4],
                             Some(ITEM_4), 5, 4)

  /** The cache `g` is `f` with one more block on top, and nothing pruned. */
  predicate OneMore(f: ForkState, b: Block, g: ForkState) {
    && (f.head.None? <==> b.previous.NoBlock?)
    && (f.head.Some? ==> Id(f.head.value.block) == b.previous && b.previous in f.index && Num(b) <= f.maxSize)
    && Id(b) !in f.index
    && g == ForkState(g.index, g.head, Num(b) + 1, f.nextSerial + 1)
    && g.head == Some(Item(b, f.nextSerial, if f.head.None? then None else Some(f.index[b.previous].serial)))
    && g.index == f.index[Id(b) := g.head.value]
  }

  lemma ExtendsCache(f: ForkState, b: Block, g: ForkState)
    requires WellFormed(f) && OneMore(f, b, g)
    ensures Pushed(f, b).Success? && Resized(Pushed(f, b).value, Num(b) + 1) == g
    ensures Pushed(f, b).value.head == g.head && WellFormed(g)
  {
    var h := Pushed(f, b);
    assert f.head.Some? ==> NumFromId(b.previous) == Num(f.head.value.block);
    assert h.Success?;
    assert h.value.index == g.index;
    assert Pruned(h.value.(maxSize := Num(b) + 1), 0).index == g.index;
  }

  /** Every such push extends the chain. */
  lemma Extends(s: Moment<nat>, b: Block, out: Outcome, t: Moment<nat>, g: ForkState)
    requires PushStep(RULES, s, b, out, t) && b.previous == s.head && s.state == NumFromId(s.head)
    requires WellFormed(s.fork) && OneMore(s.fork, b, g) && s.undo <= s.undoMax
    ensures t == Moment(Id(b), Num(b), s.undo + 1, Num(b) + 1, g, s.stored[Num(b) := b], s.popped)
  {
    hide Pushed, Resized, SwitchResult, SwitchWindows, StuckState, Switching, PopFails, OneMore, WellFormed;
    ExtendsCache(s.fork, b, g);
    ReplayCounts(Id(b));
    assert g.head.value.block == b by { NewHead(s.fork, b, g); }
  }

  lemma NewHead(f: ForkState, b: Block, g: ForkState)
    requires OneMore(f, b, g)
    ensures g.head.Some? && g.head.value.block == b
  {
  }

  lemma Caches()
    ensures OneMore(CACHE_0, C1, CACHE_1) && OneMore(CACHE_1, C2, CACHE_2)
    ensures OneMore(CACHE_2, N3, CACHE_3) && OneMore(CACHE_3, N4, CACHE_4)
  {
    hide Num;
    Numbers();
    assert CACHE_0.index[Id(C1) := ITEM_1] == CACHE_1.index;
    assert CACHE_1.index[Id(C2) := ITEM_2] == CACHE_2.index;
    assert CACHE_2.index[Id(N3) := ITEM_3] == CACHE_3.index;
    assert CACHE_3.index[Id(N4) := ITEM_4] == CACHE_4.index;
  }

  /** The file after all of it. */
  const FILE := map[1 := C1, 2 := C2, 3 := O3, 4 := N4]

  /** Push four blocks. */
  method PushFour(db: ChainDatabase<nat>)
    requires db.Valid() && db.rules == RULES
    requires db.Now() == Moment(NoBlock, 0, 0, 10, CACHE_0, map[], [])
    modifies db, db.fork
    ensures db.Valid() && db.rules == RULES
    ensures db.Now() == Moment(Id(N4), 4, 4, 5, CACHE_4, map[1 := C1, 2 := C2, 3 := N3, 4 := N4], [])
  {
    hide PushStep, OneMore, UndoMatches, Stores, FiledInOrder, Replay, WellFormed;
    Caches();
    Numbers();
    WellFormedCaches();
    ghost var s := db.Now();
    var out := db.PushBlock(C1);
    Extends(s, C1, out, db.Now(), CACHE_1);
    s := db.Now();
    out := db.PushBlock(C2);
    Extends(s, C2, out, db.Now(), CACHE_2);
    s := db.Now();
    out := db.PushBlock(N3);
    Extends(s, N3, out, db.Now(), CACHE_3);
    s := db.Now();
    out := db.PushBlock(N4);
    Extends(s, N4, out, db.Now(), CACHE_4);
    assert map[][1 := C1][2 := C2][3 := N3][4 := N4] == map[1 := C1, 2 := C2, 3 := N3, 4 := N4];
  }

  lemma WellFormedCaches()
    ensures WellFormed(CACHE_0) && WellFormed(CACHE_1) && WellFormed(CACHE_2) && WellFormed(CACHE_3)
            && WellFormed(CACHE_4)
  {
  }

  lemma Locks()
    ensures Lock(CACHE_4, [], ITEM_4) == Some(ITEM_3)
    ensures Lock(CACHE_4.(head := Some(ITEM_3)), [], ITEM_3) == Some(ITEM_2)
  {
  }

  /** Pop two of them. */
  method PopTwo(db: ChainDatabase<nat>)
    requires db.Valid() && db.rules == RULES
    requires db.Now() == Moment(Id(N4), 4, 4, 5, CACHE_4, map[1 := C1, 2 := C2, 3 := N3, 4 := N4], [])
    modifies db, db.fork
    ensures db.Valid() && db.rules == RULES
    ensures db.Now() == Moment(Id(C2), 2, 2, 5, CACHE_4.(head := Some(ITEM_2)),
                               map[1 := C1, 2 := C2, 3 := N3, 4 := N4], [])
  {
    hide Lock, UndoMatches, Stores, FiledInOrder, Replay, WellFormed;
    Locks();
    var ok := db.PopBlock([]);
    ok := db.PopBlock([]);
    ReplayCounts(Id(C2));
    Numbers();
  }

  const ITEM_O := Item(O3, 4, Some(1))
  const CACHE_5 := CACHE_4.(head := Some(ITEM_2))
  const CACHE_6 := ForkState(CACHE_4.index[Id(O3) := ITEM_O], Some(ITEM_O), 4, 5)

  lemma OtherCache()
    ensures WellFormed(CACHE_5) && OneMore(CACHE_5, O3, CACHE_6)
  {
    hide Num;
    Numbers();
  }

  /** What the node layer sees: the third block is the other one, the fourth one is popped. */
  const VIEW := Synopsis.View(Id(O3), map[1 := Id(C1), 2 := Id(C2), 3 := Id(O3), 4 := Id(N4)], 3)

  lemma ViewIs()
    ensures Sync.ViewOf(Id(O3), FILE, 3) == VIEW
  {
    assert Sync.ViewOf(Id(O3), FILE, 3).ids == VIEW.ids;
  }

  const RANGE := Synopsis.Range(1, 4, 4, [])

  lemma RangeIs(linked: bool)
    requires Synopsis.Valid(VIEW)
    ensures Synopsis.FindRange(VIEW, Id(N4), linked) == Success(RANGE)
  {
    hide NumFromId, Synopsis.Valid;
    IdNumbers();
  }

  lemma Picks()
    ensures Synopsis.Readable(VIEW, RANGE)
    ensures Synopsis.Pick(VIEW, RANGE, 1) == Id(C1) && Synopsis.Pick(VIEW, RANGE, 3) == Id(O3)
    ensures Synopsis.Pick(VIEW, RANGE, 4) == Id(N4)
  {
  }

  lemma EntriesStep(v: Synopsis.View, r: Synopsis.Range, n: nat, trueHigh: nat, next: nat)
    requires Synopsis.Readable(v, r) && 0 < n < next <= r.high <= trueHigh && next == Synopsis.Next(n, trueHigh)
    ensures Synopsis.Entries(v, r, n, trueHigh) == [Synopsis.Pick(v, r, n)] + Synopsis.Entries(v, r, next, trueHigh)
  {
  }

  lemma EntriesEnd(v: Synopsis.View, r: Synopsis.Range, n: nat)
    requires Synopsis.Readable(v, r) && 0 < n == r.high
    ensures Synopsis.Entries(v, r, n, n) == [Synopsis.Pick(v, r, n)]
  {
  }

  lemma Lists(v: Synopsis.View, r: Synopsis.Range)
    requires Synopsis.Readable(v, r) && r.high == 4
    ensures Synopsis.Entries(v, r, 1, r.high)
            == [Synopsis.Pick(v, r, 1)] + ([Synopsis.Pick(v, r, 3)] + [Synopsis.Pick(v, r, 4)])
  {
    hide Synopsis.Readable, Synopsis.Pick, Synopsis.Entries;
    EntriesStep(v, r, 1, r.high, 3);
    EntriesStep(v, r, 3, r.high, r.high);
    EntriesEnd(v, r, r.high);
  }

  lemma Summarizes(linked: bool)
    requires Synopsis.Valid(VIEW)
    ensures Synopsis.Summary(VIEW, Id(N4), 0, linked) == Success([Id(C1), Id(O3), Id(N4)])
  {
    hide NumFromId, Synopsis.Valid, Synopsis.FindRange, Synopsis.Entries, Synopsis.Readable, Synopsis.Pick;
    RangeIs(linked);
    Picks();
    Lists(VIEW, RANGE);
    assert [Id(C1)] + ([Id(O3)] + [Id(N4)]) == [Id(C1), Id(O3), Id(N4)];
    assert Id(N4).HashOf?;
  }

  lemma IdNumbers()
    ensures NumFromId(Id(C1)) == 1 && NumFromId(Id(C2)) == 2 && NumFromId(Id(N3)) == NumFromId(Id(O3)) == 3
    ensures NumFromId(Id(N4)) == 4
  {
    Numbers();
  }

  lemma Answers(known: BlockId -> bool, limit: nat)
    requires Synopsis.Valid(VIEW) && known(Id(N4))
    ensures Synopsis.Answer(VIEW, known, [Id(C1), Id(N3), Id(N4)], limit) == Success(Synopsis.Reply([], 0))
  {
    hide NumFromId, Synopsis.Valid;
    IdNumbers();
    assert Synopsis.LastKnown(VIEW, known, [Id(C1), Id(N3), Id(N4)]) == Success(Id(N4));
  }

  lemma OffTheLine()
    ensures !Reaches(Id(N4), Id(O3)) && Reaches(Id(O3), Id(C2)) && Reaches(Id(N4), Id(C2))
  {
    assert !Reaches(NoBlock, Id(O3));
    assert !Reaches(Id(C1), Id(O3));
    assert !Reaches(Id(C2), Id(O3));
    assert !Reaches(Id(N3), Id(O3));
    assert Reaches(Id(N3), Id(C2));
  }

  /** After the run the synopsis for the popped fourth block lists a block that is not one of
      its ancestors; and a peer with the popped blocks is answered with nothing, although both
      chains have the first two blocks. */
  method Demonstrate(limit: nat) returns (head: BlockId, synopsis: Result<seq<BlockId>, Synopsis.Error>,
                                          reply: Result<Synopsis.Reply, Synopsis.Error>)
    ensures head == Id(O3) && Reaches(head, Id(C2)) && Reaches(Id(N4), Id(C2))
    ensures synopsis == Success([Id(C1), Id(O3), Id(N4)]) && !Reaches(Id(N4), Id(O3))
    ensures reply == Success(Synopsis.Reply([], 0))
  {
    hide PushStep, OneMore, UndoMatches, Stores, FiledInOrder, Replay, WellFormed, Synopsis.Summary, Synopsis.Answer,
      Synopsis.Valid, Sync.Linked;
    var fork := new ForkDatabase();
    var db := new ChainDatabase<nat>(RULES, fork);
    PushFour(db);
    PopTwo(db);
    ghost var s := db.Now();
    var out := db.PushBlock(O3);
    OtherCache();
    Numbers();
    Extends(s, O3, out, db.Now(), CACHE_6);
    assert db.stored == FILE;
    ViewIs();
    OffTheLine();
    head := db.head;
    synopsis := Sync.GetBlockchainSynopsis(db, Id(N4), 0);
    Summarizes(Sync.Linked(db.fork.State(), db.head, Id(N4)));
    reply := Sync.GetBlockIds(db, [Id(C1), Id(N3), Id(N4)], limit);
    Answers(Sync.KnownIn(db.fork.index, db.stored), limit);
  }
}
