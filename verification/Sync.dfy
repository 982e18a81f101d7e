/** What the node layer reads of the chain database when it synchronizes with a peer. */
module Sync {
  import opened Wrappers
  import opened Blocks
  import opened ForkDatabase
  import opened ForkSwitch
  import opened ChainDatabase
  import Synopsis

  /** The chain as the node layer sees it. */
  function ViewOf(head: BlockId, stored: map<nat, Block>, undo: nat): Synopsis.View {
    Synopsis.View(head, map n | n in stored :: Id(stored[n]), undo)
  }

  /** Whether a block is cached, or stored under its own number. */
  function KnownIn(index: map<BlockId, Item>, stored: map<nat, Block>): BlockId -> bool {
    (id: BlockId) => id in index || (id.HashOf? && NumFromId(id) in stored && Id(stored[NumFromId(id)]) == id)
  }

  /** A block is known exactly if it is cached, or on file under its number. */
  lemma KnownIs(index: map<BlockId, Item>, stored: map<nat, Block>, b: Block)
    ensures KnownIn(index, stored)(Id(b)) <==> Id(b) in index || (Num(b) in stored && stored[Num(b)] == b)
    ensures KnownIn(index, stored)(NoBlock) <==> NoBlock in index
  {
    IdNumber(b);
  }

  /** The fork database can walk from both blocks back to where their lines meet. */
  predicate Linked(f: ForkState, head: BlockId, ref: BlockId) {
    && head in f.index && ref in f.index && head.HashOf? && ref.HashOf?
    && Walk(f, [], f.index[head], BranchLength(head, ref) - 1).Some?
    && Walk(f, [], f.index[ref], BranchLength(ref, head) - 1).Some?
  }

  lemma {:induction false} StoredAt(stored: map<nat, Block>, head: BlockId, n: nat)
    requires Stores(stored, head) && 0 < n <= NumFromId(head)
    ensures n in stored && Id(stored[n]) == Synopsis.At(head, n)
    decreases NumFromId(head)
  {
    if n < NumFromId(head) {
      StoredAt(stored, head.block.previous, n);
    }
  }

  /** A valid chain database gives a valid view. */
  lemma ViewIsValid<S(!new)>(r: Rules<S>, head: BlockId, stored: map<nat, Block>, undo: seq<Snapshot<S>>)
    requires UndoMatches(r, undo, head) && Stores(stored, head) && FiledInOrder(stored)
    ensures Synopsis.Valid(ViewOf(head, stored, |undo|))
  {
    hide Stores, UndoMatches, Synopsis.At, NumFromId;
    UndoDepth(r, undo, head);
    var v := ViewOf(head, stored, |undo|);
    forall n | 0 < n <= NumFromId(head) ensures n in v.ids && v.ids[n] == Synopsis.At(head, n) {
      StoredAt(stored, head, n);
    }
    forall n | n in v.ids ensures n > 0 && NumFromId(v.ids[n]) == n {
      IdNumber(stored[n]);
    }
  }

  /** Every block of the chain is known. */
  lemma ChainIsKnown(head: BlockId, index: map<BlockId, Item>, stored: map<nat, Block>, undo: nat, id: BlockId)
    requires Stores(stored, head) && Synopsis.OnChain(ViewOf(head, stored, undo), id)
    ensures KnownIn(index, stored)(id)
  {
    Synopsis.AtIsUnique(head, id);
    StoredAt(stored, head, NumFromId(id));
  }

  /** `get_block_ids_on_fork`: from the given block back to the last one of the chain. */
  method GetBlockIdsOnFork(fork: ForkDatabase, head: BlockId, ref: BlockId) returns (r: Option<seq<BlockId>>)
    requires fork.Valid()
    ensures r.Some? <==> Linked(fork.State(), head, ref)
    ensures r.Some? ==>
            && |r.value| == BranchLength(ref, head) + 1 && r.value[|r.value| - 1] == ForkPoint(head, ref)
            && forall i :: 0 <= i < |r.value| - 1 ==> r.value[i] == Back(ref, i)
  {
    var br := fork.FetchBranchFrom(head, ref);
    if br.None? {
      return None;
    }
    var first, second := br.value.first, br.value.second;
    BranchEnd(first, head, ref);
    ForkPointSymmetric(head, ref);
    var ids := [];
    for i := 0 to |second|
      invariant |ids| == i && forall j :: 0 <= j < i ==> ids[j] == Back(ref, j)
    {
      ids := ids + [Id(second[i].block)];
    }
    r := Some(ids + [first[|first| - 1].block.previous]);
  }

  function Reversed(s: seq<BlockId>): (r: seq<BlockId>)
    ensures |r| == |s| && forall i :: 0 <= i < |r| ==> r[i] == s[|s| - 1 - i]
  {
    if s == [] then [] else Reversed(s[1..]) + [s[0]]
  }

  /** Turned around, the branch is the line of the block above the fork point. */
  lemma ForkHistory(s: seq<BlockId>, head: BlockId, ref: BlockId)
    requires head.HashOf? && ref.HashOf?
    requires |s| == BranchLength(ref, head) && forall i :: 0 <= i < |s| ==> s[i] == Back(ref, i)
    ensures Reversed(s) == Synopsis.ForkIds(ref, head)
  {
    hide ForkPoint, NumFromId, Back;
    ForkPointSymmetric(head, ref);
  }

  /** `get_blockchain_synopsis` on the chain database: the summary of its view. */
  method GetBlockchainSynopsis<S(!new)>(db: ChainDatabase<S>, ref: BlockId, after: nat)
    returns (r: Result<seq<BlockId>, Synopsis.Error>)
    requires db.Valid()
    ensures Synopsis.Valid(ViewOf(db.head, db.stored, |db.undo|))
    ensures r == Synopsis.Summary(ViewOf(db.head, db.stored, |db.undo|), ref, after,
                                  Linked(db.fork.State(), db.head, ref))
  {
    hide ForkPoint, Synopsis.Entries, Stores, UndoMatches, FiledInOrder, Replay, Synopsis.Readable, NumFromId;
    ViewIsValid(db.rules, db.head, db.stored, db.undo);
    var v := ViewOf(db.head, db.stored, |db.undo|);
    ghost var linked := Linked(db.fork.State(), db.head, ref);
    var num := NumFromId(ref);
    var low := NumFromId(db.head) - |db.undo|;
    var high, nonFork, history := NumFromId(db.head), NumFromId(db.head), [];
    if ref.HashOf? {
      if num !in db.stored {
        return Failure(Synopsis.UnknownNumber);
      }
      if Id(db.stored[num]) == ref {
        high, nonFork := num, num;
        low := if num < low then num else low;
      } else {
        var ids := GetBlockIdsOnFork(db.fork, db.head, ref);
        if ids.None? {
          return Failure(Synopsis.Unlinked);
        }
        var n := |ids.value| - 1;
        ForkHistory(ids.value[..n], db.head, ref);
        history := Reversed(ids.value[..n]);
        nonFork := NumFromId(ids.value[n]);
        high := nonFork + |history|;
        if nonFork < low {
          return Failure(Synopsis.TooOld);
        }
      }
    } else if high == 0 {
      return Success([]);
    }
    var range := Synopsis.Range(Synopsis.AtLeastOne(low), nonFork, high, history);
    assert Synopsis.FindRange(v, ref, linked) == Success(range);
    Synopsis.RangeIsReadable(v, ref, linked);
    var s := Synopsis.CollectEntries(v, range, high + after);
    r := Success(s);
  }

  /** `get_block_ids` on the chain database: the answer of its view. */
  method GetBlockIds<S(!new)>(db: ChainDatabase<S>, s: seq<BlockId>, limit: nat)
    returns (r: Result<Synopsis.Reply, Synopsis.Error>)
    requires db.Valid()
    ensures Synopsis.Valid(ViewOf(db.head, db.stored, |db.undo|))
    ensures r == Synopsis.Answer(ViewOf(db.head, db.stored, |db.undo|), KnownIn(db.fork.index, db.stored), s, limit)
  {
    ViewIsValid(db.rules, db.head, db.stored, db.undo);
    r := Synopsis.GetBlockIds(ViewOf(db.head, db.stored, |db.undo|), KnownIn(db.fork.index, db.stored), s, limit);
  }

  /** Every block on the chain of `head` that the peer has is at most half of the way from
      `id` to `head` above `id`. */
  ghost predicate CloseToShared(w: Synopsis.View, head: BlockId, id: BlockId) {
    forall c :: Synopsis.OnChain(w, c) && Reaches(head, c) ==>
                  NumFromId(c) < NumFromId(id) + (NumFromId(head) - NumFromId(id) + 2) / 2
  }

  /** The node and the peer share a block that the node cannot undo, or a later one. */
  ghost predicate ShareRecent(w: Synopsis.View, head: BlockId, undo: nat) {
    exists c :: Synopsis.OnChain(w, c) && Reaches(head, c) && NumFromId(head) <= NumFromId(c) + undo
  }

  lemma SharingMeansBlocks(w: Synopsis.View, head: BlockId, undo: nat)
    requires ShareRecent(w, head, undo)
    ensures head.HashOf?
  {
  }

  lemma LowestIsShared(v: Synopsis.View, w: Synopsis.View, s: seq<BlockId>)
    requires Synopsis.Valid(v) && ShareRecent(w, v.head, v.undoable) && Synopsis.Ascends(s, v.head)
    requires NumFromId(s[0]) == Synopsis.Lowest(v)
    ensures Synopsis.OnChain(w, s[0])
  {
    hide NumFromId, Synopsis.At, Synopsis.Valid;
    var c :| Synopsis.OnChain(w, c) && Reaches(v.head, c) && NumFromId(v.head) <= NumFromId(c) + v.undoable;
    Synopsis.AtIsAncestor(v.head, NumFromId(s[0]));
    ReachesNum(v.head, c);
    AncestorsAreALine(v.head, c, s[0]);
    ReachesTransitive(w.head, c, s[0]);
  }

  /** The answer starts at the highest entry on the chain of the answering node, if its search
      is not obstructed, and that entry is close to the highest shared block. */
  ghost predicate Resumes(w: Synopsis.View, known: BlockId -> bool, s: seq<BlockId>, limit: nat, head: BlockId)
    requires Synopsis.Valid(w)
  {
    exists k: nat ::
      Synopsis.HighestShared(w, s, k) && Synopsis.AnsweredFrom(w, known, s, limit, k) && CloseToShared(w, head, s[k])
  }

  /** A node sends the synopsis of its chain to a peer, and the peer answers.  The synopsis
      ends at the node's head.  If the two share a block that the node cannot undo, or a later
      one, the answer starts at the highest entry on the peer's chain, if and only if no entry above it
      obstructs the peer's search.  That entry is at most half of the way to the node's head
      below the highest block the two chains share. */
  method Synchronize<S(!new), T(!new)>(node: ChainDatabase<S>, peer: ChainDatabase<T>, limit: nat)
    returns (s: seq<BlockId>, r: Result<Synopsis.Reply, Synopsis.Error>)
    requires node.Valid() && peer.Valid() && limit > 0
    ensures s == [] <==> node.head.NoBlock?
    ensures s != [] ==> Synopsis.Ascends(s, node.head) && s[|s| - 1] == node.head
    ensures Synopsis.Valid(ViewOf(peer.head, peer.stored, |peer.undo|))
    ensures var w, known := ViewOf(peer.head, peer.stored, |peer.undo|), KnownIn(peer.fork.index, peer.stored);
            && r == Synopsis.Answer(w, known, s, limit)
            && (ShareRecent(w, node.head, |node.undo|) ==> s != [] && Resumes(w, known, s, limit, node.head))
  {
    hide Resumes, Synopsis.Summary, Synopsis.Spaced, Synopsis.Answer, Synopsis.Valid, Synopsis.OnLineOf,
      Synopsis.Increasing, Synopsis.AnsweredFrom, Synopsis.HighestShared, Synopsis.OnChain, KnownIn, Stores,
      UndoMatches, FiledInOrder, Replay, NumFromId, Linked;
    var asked := GetBlockchainSynopsis(node, NoBlock, 0);
    ghost var v, linked := ViewOf(node.head, node.stored, |node.undo|), Linked(node.fork.State(), node.head, NoBlock);
    HeadIsFound(v, linked);
    Synopsis.SummaryIsGood(v, NoBlock, 0, linked);
    Synopsis.SummaryIsSpaced(v, NoBlock, 0, linked);
    s := asked.value;
    r := GetBlockIds(peer, s, limit);
    ghost var w, known := ViewOf(peer.head, peer.stored, |peer.undo|), KnownIn(peer.fork.index, peer.stored);
    if ShareRecent(w, node.head, |node.undo|) {
      SharingMeansBlocks(w, node.head, |node.undo|);
      Synopsis.SummaryStarts(v, NoBlock, 0, linked);
      LowestIsShared(v, w, s);
      forall id | Synopsis.OnChain(w, id) ensures known(id) {
        ChainIsKnown(peer.head, peer.fork.index, peer.stored, |peer.undo|, id);
      }
      AnswerResumes(w, known, s, limit, node.head);
    }
  }

  lemma AnswerResumes(w: Synopsis.View, known: BlockId -> bool, s: seq<BlockId>, limit: nat, head: BlockId)
    requires Synopsis.Valid(w) && (forall id :: Synopsis.OnChain(w, id) ==> known(id)) && limit > 0
    requires Synopsis.Ascends(s, head) && s[|s| - 1] == head && Synopsis.Spaced(s, NumFromId(head))
    requires Synopsis.OnChain(w, s[0])
    ensures Resumes(w, known, s, limit, head)
  {
    hide CloseToShared, Synopsis.Ascends, Synopsis.Spaced, Synopsis.OnChain, Synopsis.AnsweredFrom, Synopsis.Valid,
      NumFromId;
    Synopsis.AnswerContinues(w, known, s, limit, head);
    var k: nat :| Synopsis.HighestShared(w, s, k) && Synopsis.AnsweredFrom(w, known, s, limit, k);
    GapIsSmall(w, s, head, k);
  }

  lemma GapIsSmall(w: Synopsis.View, s: seq<BlockId>, head: BlockId, k: nat)
    requires Synopsis.Ascends(s, head) && s[|s| - 1] == head && Synopsis.Spaced(s, NumFromId(head))
    requires Synopsis.HighestShared(w, s, k)
    ensures CloseToShared(w, head, s[k])
  {
    hide Synopsis.Ascends, Synopsis.Spaced, Synopsis.OnChain, NumFromId;
    forall c | Synopsis.OnChain(w, c) && Reaches(head, c)
      ensures NumFromId(c) < NumFromId(s[k]) + (NumFromId(head) - NumFromId(s[k]) + 2) / 2
    {
      Synopsis.SharedGap(w, s, head, k, c);
    }
  }

  /** Without a reference block there is always a synopsis, and the head is never a popped block. */
  lemma HeadIsFound(v: Synopsis.View, linked: bool)
    requires Synopsis.Valid(v)
    ensures Synopsis.Summary(v, NoBlock, 0, linked).Success? && Synopsis.Current(v, NoBlock)
  {
  }
}
