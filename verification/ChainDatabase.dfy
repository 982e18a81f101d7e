/** Pushing blocks onto the chain database: extending the head, switching to a
    longer fork, and unwinding a switch that meets an invalid block. */
module ChainDatabase {
  import opened Wrappers
  import opened Blocks
  import opened ForkDatabase
  import opened ForkSwitch

  /** Blocks are on file under their own numbers, from 1 on without a gap. */
  predicate FiledInOrder(stored: map<nat, Block>) {
    && (forall n :: n in stored ==> Num(stored[n]) == n)
    && (forall n, m :: n in stored && 0 < m < n ==> m in stored)
  }

  /** A moment of the chain database. */
  datatype Moment<S> = Moment(head: BlockId, state: S, undo: nat, undoMax: nat, fork: ForkState,
                              stored: map<nat, Block>, popped: seq<Transaction>)

  /** The block store below the head is the same. */
  ghost predicate SameChainStored<S>(s: Moment<S>, t: Moment<S>) {
    forall n :: 1 <= n <= NumFromId(s.head) ==> n in s.stored && n in t.stored && t.stored[n] == s.stored[n]
  }

  /** What a push of `b` makes of `s`: the outcome is determined, and with it the chain. */
  ghost predicate PushStep<S>(r: Rules<S>, s: Moment<S>, b: Block, out: Outcome, t: Moment<S>) {
    match Pushed(s.fork, b)
    case Failure(_) => out == Unlinked && t == s
    case Success(f) =>
      && f.head.Some? && out == OutcomeOf(r, f, s.head, s.undo, s.undoMax, b)
      && (Unchanged(out) ==> t.head == s.head && t.state == s.state && SameChainStored(s, t))
      && (out == Ignored || out == NoBranch ==> t == s.(fork := f))
      && (out == Refusal ==> t == Rejected(r, s, f, b))
      && (out == Extended ==> t == Appended(r, s, f, b))
      && (Switching(f, s.head) ==>
            && SwitchResult(r, f, s.head, s.undo, s.popped, t.head, t.popped, out)
            && SwitchWindows(r, f, s.head, s.undo, s.undoMax, t.undo, t.undoMax, t.fork, out)
            && (out == Stuck ==>
                  StuckState(r, f, s.head, s.undo, s.undoMax, s.popped, t.head, t.popped, t.undo, t.undoMax, t.fork)))
  }

  /** The chain with one more block on top. */
  ghost function Appended<S>(r: Rules<S>, s: Moment<S>, f: ForkState, b: Block): Moment<S> {
    var window := Window(r, s.state, b);
    Moment(Id(b), if Replay(r, Id(b)).Some? then Replay(r, Id(b)).value else s.state,
           (if s.undo <= s.undoMax then s.undo else s.undoMax) + 1,
           if window.Some? then window.value else s.undoMax,
           AfterWindow(f, window), s.stored[Num(b) := b], s.popped)
  }

  /** The chain as before, the refused block out of the cache again; what its application did
      to the windows stays. */
  ghost function Rejected<S>(r: Rules<S>, s: Moment<S>, f: ForkState, b: Block): Moment<S> {
    var window := if b.previous == s.head then Window(r, s.state, b) else None;
    var g := AfterWindow(f, window);
    s.(undo := if s.undo <= s.undoMax then s.undo else s.undoMax,
       undoMax := if window.Some? then window.value else s.undoMax,
       fork := g.(index := g.index - {Id(b)}))
  }

  class ChainDatabase<S(!new)> {
    const rules: Rules<S>
    const fork: ForkDatabase
    var head: BlockId
    var state: S
    var undo: seq<Snapshot<S>>
    var undoMax: nat
    var stored: map<nat, Block>
    var popped: seq<Transaction>

    ghost function Now(): Moment<S>
      reads this, fork
    {
      Moment(head, state, |undo|, undoMax, fork.State(), stored, popped)
    }

    ghost predicate Valid()
      reads this, fork
    {
      && fork.Valid()
      && Replay(rules, head) == Some(state)
      && UndoMatches(rules, undo, head)
      && Stores(stored, head) && FiledInOrder(stored)
    }

    constructor (rules: Rules<S>, fork: ForkDatabase)
      requires fork.Valid()
      ensures Valid() && this.rules == rules && this.fork == fork
      ensures Now() == Moment(NoBlock, rules.genesis, 0, 10, fork.State(), map[], [])
    {
      this.rules, this.fork := rules, fork;
      head, state, undo, undoMax := NoBlock, rules.genesis, [], 10;
      stored, popped := map[], [];
    }

    /** Is the block cached, or stored under its own number? */
    predicate Known(id: BlockId)
      reads this, fork
    {
      || id in fork.index
      || (id.HashOf? && NumFromId(id) in stored && Id(stored[NumFromId(id)]) == id)
    }

    /** Undo the head block and queue its transactions for another try. */
    method PopBlock(held: seq<Item>) returns (ok: bool)
      requires Valid()
      modifies this`head, this`state, this`undo, this`popped, fork`head
      ensures Valid()
      ensures ok <==>
              && old(head).HashOf? && old(undo) != []
              && old(fork.head).Some?
              && Lock(old(fork.State()), held, old(fork.head).value).Some?
      ensures ok ==>
              && head == old(head).block.previous
              && undo == old(undo)[..|old(undo)| - 1]
              && popped == old(head).block.transactions + old(popped)
      ensures var moves := old(head).HashOf? && old(fork.head).Some?
                           && Lock(old(fork.State()), held, old(fork.head).value).Some?;
              fork.head == if moves then Lock(old(fork.State()), held, old(fork.head).value) else old(fork.head)
      ensures !ok ==> head == old(head) && state == old(state) && undo == old(undo) && popped == old(popped)
    {
      hide FiledInOrder;
      if !Known(head) || head.NoBlock? {
        assert head.NoBlock?;
        return false;
      }
      var block := head.block;
      var moved := fork.PopBlock(held);
      if !moved || undo == [] {
        return false;
      }
      var top := undo[|undo| - 1];
      head, state := top.head, top.state;
      undo := undo[..|undo| - 1];
      popped := block.transactions + popped;
      ok := true;
    }

    /** One undo session: apply a block, store it, commit; or unwind the session.  The windows
        that the application set stay set either way. */
    method ApplyAndStore(b: Block) returns (ok: bool)
      requires Valid()
      modifies this, fork
      ensures Valid()
      ensures ok <==> b.previous == old(head) && Replay(rules, Id(b)).Some?
      ensures popped == old(popped)
      ensures ok ==>
              && head == Id(b) && stored == old(stored)[Num(b) := b]
              && undo == Trimmed(old(undo), old(undoMax)) + [Snapshot(old(head), old(state))]
      ensures !ok ==>
              && head == old(head) && state == old(state) && stored == old(stored)
              && undo == Trimmed(old(undo), old(undoMax))
      ensures var window := if b.previous == old(head) then Window(rules, old(state), b) else None;
              && fork.State() == AfterWindow(old(fork.State()), window)
              && undoMax == if window.Some? then window.value else old(undoMax)
    {
      hide FiledInOrder;
      SessionMatches(rules, undo, undoMax, head, state, b);
      FiledOnTop(stored, head, b);
      var kept := Trimmed(undo, undoMax);
      if b.previous != head {
        undo := kept;
        return false;
      }
      match rules.apply(state, b) {
        case Refused(reached) =>
          undo := kept;
          if reached.Some? {
            undoMax := reached.value;
            fork.SetMaxSize(reached.value);
          }
          return false;
        case Applied(s, window) =>
          StoresOther(stored, head, b);
          undo := kept + [Snapshot(head, state)];
          head, state := Id(b), s;
          stored := stored[Num(b) := b];
          undoMax := window;
          fork.SetMaxSize(window);
          return true;
      }
    }

    /** Pop blocks until the head is `target`, `n` blocks back, or until that fails. */
    method PopUntil(target: BlockId, ghost n: nat, held: seq<Item>) returns (ok: bool)
      requires Valid() && fork.head.Some?
      requires n <= NumFromId(head) && target == Back(head, n)
      modifies this`head, this`state, this`undo, this`popped, fork`head
      ensures Valid()
      ensures ok <==> n <= |old(undo)| && Walk(old(fork.State()), held, old(fork.head).value, n).Some?
      ensures var j := Pops(old(fork.State()), held, old(fork.head).value, |old(undo)|, n);
              && (ok <==> j == n)
              && head == Back(old(head), j)
              && undo == old(undo)[..|old(undo)| - j]
              && popped == LineTransactions(old(head), j) + old(popped)
              && fork.head == PopsHead(old(fork.State()), held, old(fork.head).value, |old(undo)|, n)
    {
      hide Replay, Stores, Lock, FiledInOrder, Pops, PopsHead;
      ghost var f, it, h, j := fork.State(), fork.head.value, head, 0;
      BackIsAncestor(h, n);
      UndoDepth(rules, undo, head);
      while head != target
        invariant Valid() && j <= n && j <= |old(undo)|
        invariant head == Back(h, j) && NumFromId(head) == NumFromId(h) - j
        invariant undo == old(undo)[..|old(undo)| - j]
        invariant popped == LineTransactions(h, j) + old(popped)
        invariant fork.State() == f.(head := Walk(f, held, it, j)) && fork.head.Some?
        decreases n - j
      {
        assert j < n;
        BackStep(h, j);
        WalkStep(f, held, it, j, n);
        var popOk := PopBlock(held);
        if !popOk {
          PopsStop(f, held, it, |old(undo)|, n, j);
          return false;
        }
        j := j + 1;
      }
      assert j == n;
      PopsStop(f, held, it, |old(undo)|, n, n);
      return true;
    }

    /** The undo stack and the block cache are as the gauge says, for a cache that was `f`. */
    ghost predicate Gauged(f: ForkState, g: Gauge)
      reads this, fork
    {
      |undo| == g.undo && undoMax == g.undoMax && fork.State() == Remaining(f, g)
    }

    /** Apply the blocks of a branch, oldest first, up to the first refused one.
        `left` blocks of the branch stay unapplied. */
    method ApplyBranch(branch: seq<Item>, ghost id: BlockId) returns (left: nat)
      requires Valid() && fork.head.Some?
      requires OnLine(branch, id) && head == Back(id, |branch|)
      modifies this, fork
      ensures Valid() && popped == old(popped)
      ensures left <= |branch| && head == Back(id, left)
      ensures left > 0 ==> Replay(rules, Back(id, left - 1)).None?
      ensures Gauged(old(fork.State()), AfterBranch(rules, id, |branch|, Num(old(fork.head).value.block),
                                                    Gauge(|old(undo)|, old(undoMax), old(fork.maxSize), 0)))
    {
      hide Replay, NumFromId, Stores, UndoMatches, FiledInOrder, AfterBranch, Measured, Pruned, Resized, Window,
        AfterWindow;
      ghost var f, n := fork.State(), |branch|;
      ghost var top, g0 := Num(fork.head.value.block), Gauge(|undo|, undoMax, fork.maxSize, 0);
      RemainingAll(f, |undo|, undoMax);
      left := |branch|;
      NothingApplied(rules, id, n, top, g0);
      while left > 0
        invariant Valid() && popped == old(popped)
        invariant left <= |branch| && head == Back(id, left) && NumFromId(head) == NumFromId(id) - left
        invariant Gauged(f, AfterBranch(rules, head, n - left, top, g0))
      {
        BackStep(id, left - 1);
        ghost var g, s, b := AfterBranch(rules, head, n - left, top, g0), state, branch[left - 1].block;
        AfterBranchStep(rules, id, left, n, top, g0, s);
        WindowCuts(f, g, rules.apply(s, b).Applied?, Window(rules, s, b));
        ReplayStep(rules, b, s);
        var ok := ApplyAndStore(branch[left - 1].block);
        MeasuredStep(f, g, rules.apply(s, b).Applied?, Window(rules, s, b), top);
        if !ok {
          AfterBranchStops(rules, id, left - 1, n, top, g0);
          return;
        }
        left := left - 1;
      }
    }

    /** Remove the blocks of a refused branch from the cache, and put the head back. */
    method ForgetBranch(bad: seq<Item>, newHead: Item)
      requires fork.Valid()
      modifies fork
      ensures fork.Valid()
      ensures fork.State() == Forgotten(old(fork.State()), bad, newHead)
    {
      var n := |bad|;
      ghost var f := fork.State();
      while n > 0
        invariant 0 <= n <= |bad|
        invariant fork.Valid() && fork.head == f.head && fork.maxSize == f.maxSize && fork.nextSerial == f.nextSerial
        invariant fork.index == Forgotten(f, bad[n..], newHead).index
      {
        n := n - 1;
        assert bad[n..] == [bad[n]] + bad[n + 1..];
        fork.Remove(Id(bad[n].block));
      }
      assert bad[0..] == bad;
      fork.SetHead(newHead);
    }

    /** Give up a fork after `applied` of its blocks: forget its other blocks, pop the
        applied ones, and apply the old branch again. */
    method Unwind(bad: seq<Item>, second: seq<Item>, held: seq<Item>, ghost applied: nat, ghost oldHead: BlockId)
      returns (ok: bool)
      requires Valid()
      requires OnLine(second, oldHead) && second != [] && Replay(rules, oldHead).Some?
      requires applied <= NumFromId(head) && Back(head, applied) == Back(oldHead, |second|)
      modifies this, fork
      ensures Valid()
      ensures ok <==>
              && applied <= |old(undo)|
              && Walk(Forgotten(old(fork.State()), bad, second[0]), held, second[0], applied).Some?
      ensures ok ==> head == oldHead && popped == LineTransactions(old(head), applied) + old(popped)
      ensures ok ==>
              var gone := Forgotten(old(fork.State()), bad, second[0]);
              var p := Walk(gone, held, second[0], applied);
              && p.Some?
              && Gauged(gone.(head := p), AfterBranch(rules, oldHead, |second|, Num(p.value.block),
                                                      Gauge(|old(undo)| - applied, old(undoMax), gone.maxSize, 0)))
      ensures !ok ==>
              var gone := Forgotten(old(fork.State()), bad, second[0]);
              var j := Pops(gone, held, second[0], |old(undo)|, applied);
              && j < applied && head == Back(old(head), j)
              && popped == LineTransactions(old(head), j) + old(popped)
              && |undo| == |old(undo)| - j && undoMax == old(undoMax)
              && fork.State() == gone.(head := PopsHead(gone, held, second[0], |old(undo)|, applied))
    {
      hide Replay, NumFromId, Stores, UndoMatches, FiledInOrder, AfterBranch, Forgotten, WellFormed, Walk, Pops,
        PopsHead;
      ForgetBranch(bad, second[0]);
      assert fork.head == Some(second[0]) by { ForgottenHead(old(fork.State()), bad, second[0]); }
      BackStep(oldHead, |second| - 1);
      ok := PopUntil(second[|second| - 1].block.previous, applied, held);
      if ok {
        PoppedAll(Forgotten(old(fork.State()), bad, second[0]), held, second[0], |old(undo)|, applied);
        var left := ApplyBranch(second, oldHead);
        if left > 0 {
          ReplayPrefix(rules, oldHead, left - 1);
          assert false;
        }
      }
    }

    /** The new branch was refused with `left` blocks to go: unwind it.  `f` is the cache at the
        start of the switch, `g` what applying the new branch has left of it. */
    method GiveUp(br: Branches, left: nat, ghost f: ForkState, ghost p: Item, ghost id: BlockId, ghost oldHead: BlockId,
                  ghost g: Gauge)
      returns (ok: bool)
      requires Valid() && BranchesReady(f, br, id, oldHead) && Replay(rules, oldHead).Some?
      requires Back(id, |br.first|) == Back(oldHead, |br.second|)
      requires 0 < left <= |br.first| && head == Back(id, left) && Replay(rules, Back(id, left - 1)).None?
      requires Gauged(f.(head := Some(p)), g)
      modifies this, fork
      ensures Valid() && Replay(rules, id).None?
      ensures ok ==> head == oldHead && popped == GoodTransactions(rules, id, |br.first|) + old(popped)
      ensures !ok ==> exists j :: left <= j < |br.first| && head == Back(id, j)
      ensures !ok ==> StuckInRestore(Remaining(f.(head := Some(p)), g), br, id, GoodBlocks(rules, id, |br.first|), g,
                                     old(popped), head, popped, |undo|, undoMax, fork.State())
      ensures br.second != [] && GoodBlocks(rules, id, |br.first|) < |br.first|
      ensures var k := GoodBlocks(rules, id, |br.first|);
              && (ok <==> k <= g.undo && Walk(Pruned(f, g.low), br.first + br.second, br.second[0], k).Some?)
              && (ok ==> RestoredWindows(rules, Remaining(f.(head := Some(p)), g), br, oldHead, k, g, |undo|, undoMax,
                                         fork.State()))
    {
      hide Replay, NumFromId, Stores, UndoMatches, FiledInOrder, Forgotten, Remaining, Walk, Pruned, ForkPoint, Back,
        GoodTransactions, GoodBlocks, Pops, PopsHead;
      ghost var k := |br.first| - left;
      BranchRefused(rules, br.first, id, left);
      WalkForgets(f, br, id, oldHead, left, p, g, k);
      ForgottenHead(fork.State(), br.first[..left], br.second[0]);
      ok := Unwind(br.first[..left], br.second, br.first + br.second, k, oldHead);
      if !ok {
        BackBack(id, left, Pops(Forgotten(old(fork.State()), br.first[..left], br.second[0]), br.first + br.second,
                                br.second[0], g.undo, k));
      }
    }

    /** Move from the old branch to the new one, or back again. */
    method SwitchTo(br: Branches) returns (out: Outcome)
      requires Valid() && Switching(fork.State(), head) && br == BranchesOf(fork.State(), head)
      modifies this, fork
      ensures Valid()
      ensures out == Switched || out == Unwound || out == Stuck
      ensures out == Stuck <==> PopFails(rules, old(fork.State()), old(head), |old(undo)|, old(undoMax))
      ensures SwitchResult(rules, old(fork.State()), old(head), |old(undo)|, old(popped), head, popped, out)
      ensures SwitchWindows(rules, old(fork.State()), old(head), |old(undo)|, old(undoMax), |undo|, undoMax,
                            fork.State(), out)
      ensures out == Stuck ==> StuckState(rules, old(fork.State()), old(head), |old(undo)|, old(undoMax), old(popped),
                                          head, popped, |undo|, undoMax, fork.State())
    {
      hide Pops, PopsHead, StuckInRestore, StuckState, Replay, NumFromId, Stores, UndoMatches, FiledInOrder, Walk,
        Pruned, ForkPoint, Back, GoodTransactions, GoodBlocks, AfterBranch, Chained, Switching, BranchesOf,
        LineTransactions;
      SwitchingBlocks(fork.State(), head);
      ghost var f, oldHead, id := fork.State(), head, Id(fork.head.value.block);
      SwitchingBranches(f, head);
      BranchesMeet(f, br, id, head);
      BranchesDiffer(f, br, id, head);
      ghost var m, n := |br.second|, |br.first|;
      UndoDepth(rules, undo, head);
      var ok := PopUntil(br.second[|br.second| - 1].block.previous, m, br.first + br.second);
      if !ok {
        StuckInOld(rules, f, oldHead, |old(undo)|, old(popped), head, popped);
        StuckWhilePopping(rules, f, oldHead, |old(undo)|, old(undoMax), old(popped), head, popped, |undo|, undoMax,
                          fork.State());
        return Stuck;
      }
      PoppedAll(f, br.first + br.second, f.head.value, |old(undo)|, m);
      PoppedHead(f, br, id, oldHead);
      ghost var p := fork.head.value;
      var left := ApplyBranch(br.first, id);
      ghost var g := SwitchGauge(rules, f, oldHead, |old(undo)|, old(undoMax));
      assert Gauged(f.(head := Some(p)), g);
      if left == 0 {
        BackZero(id);
        AllGood(rules, id, n);
        return Switched;
      }
      var restored := GiveUp(br, left, f, p, id, oldHead, g);
      out := if restored then Unwound else Stuck;
      if !restored {
        StuckInNew(rules, f, oldHead, |old(undo)|, old(popped), head, popped);
        StuckWhileRestoring(rules, f, oldHead, |old(undo)|, old(undoMax), old(popped), head, popped, |undo|, undoMax,
                            fork.State(), p);
      }
    }

    /** The head of the fork database is higher than ours: look for both branches, switch. */
    method TrySwitch(newHead: Item) returns (out: Outcome)
      requires Valid()
      requires fork.head == Some(newHead) && newHead.block.previous != head && NumFromId(head) < Num(newHead.block)
      modifies this, fork
      ensures Valid()
      ensures out == NoBranch <==> !Switching(old(fork.State()), old(head))
      ensures out == NoBranch ==> Now() == old(Now())
      ensures out != NoBranch ==>
              && (out == Switched || out == Unwound || out == Stuck)
              && SwitchResult(rules, old(fork.State()), old(head), |old(undo)|, old(popped), head, popped, out)
              && SwitchWindows(rules, old(fork.State()), old(head), |old(undo)|, old(undoMax), |undo|, undoMax,
                               fork.State(), out)
              && (out == Stuck <==> PopFails(rules, old(fork.State()), old(head), |old(undo)|, old(undoMax)))
              && (out == Stuck ==>
                    StuckState(rules, old(fork.State()), old(head), |old(undo)|, old(undoMax), old(popped),
                               head, popped, |undo|, undoMax, fork.State()))
    {
      hide Replay, Stores, UndoMatches, FiledInOrder, SwitchResult, SwitchWindows, PopFails, StuckState;
      ghost var f := fork.State();
      var br := fork.FetchBranchFrom(Id(newHead.block), head);
      if br.None? {
        return NoBranch;
      }
      BranchesFound(f, br.value, Id(newHead.block), head);
      out := SwitchTo(br.value);
    }

    /** Push a block.  The outcome is determined by the cache, the old head and the rules:
        the chain is extended, or it moves to the head of a longer fork, or it stays as it
        was; only a `Stuck` switch ends in between. */
    method PushBlock(b: Block) returns (out: Outcome)
      requires Valid()
      modifies this, fork
      ensures Valid() && PushStep(rules, old(Now()), b, out, Now())
      ensures out == Unlinked <==>
              && old(fork.head).Some?
              && (|| Num(b) + old(fork.maxSize) <= Num(old(fork.head).value.block)
                  || (b.previous.HashOf? && b.previous !in old(fork.index)))
    {
      hide PopFails, UndoMatches, FiledInOrder, Pushed, Switching, AfterWindow, Window, SwitchResult, SwitchWindows,
        StuckState, Links, WellFormed, Stores;
      ghost var s := Now();
      PushRefusedExactly(s.fork, b);
      var cached := fork.PushBlock(b);
      if cached.Failure? {
        return Unlinked;
      }
      ghost var f := fork.State();
      var newHead := cached.value;
      if newHead.block.previous == head {
        NotSwitching(f, head);
        var ok := ApplyAndStore(b);
        if !ok {
          fork.Remove(Id(b));
        }
        out := if ok then Extended else Refusal;
      } else if Num(newHead.block) > NumFromId(head) {
        out := TrySwitch(newHead);
        if Switching(f, s.head) {
          SwitchedExactly(rules, f, s.head, s.undo, s.popped, head, popped, out);
        }
      } else {
        NotSwitching(f, head);
        out := Ignored;
      }
      if Unchanged(out) {
        SameStores(s.stored, stored, head);
      }
    }

    /** Push blocks one after the other, until one gets stuck. */
    method PushAll(blocks: seq<Block>) returns (outs: seq<Outcome>, ghost trace: seq<Moment<S>>)
      requires Valid()
      modifies this, fork
      ensures Valid() && IsTrace(rules, blocks, outs, trace)
      ensures trace[0] == old(Now()) && trace[|outs|] == Now()
      ensures |outs| < |blocks| ==> outs != [] && outs[|outs| - 1] == Stuck
      ensures Stuck !in outs ==> head == old(head) || NumFromId(head) > NumFromId(old(head))
      ensures InStep(old(Now())) && Continues(rules, old(head), blocks) ==>
              && |outs| == |blocks| && InStep(Now())
              && head == (if blocks == [] then old(head) else Id(blocks[|blocks| - 1]))
    {
      hide Valid, PushStep, InStep, Continues;
      outs, trace := [], [Now()];
      var i, stuck := 0, false;
      ghost var chain := InStep(Now()) && Continues(rules, head, blocks);
      while i < |blocks| && !stuck
        invariant 0 <= i <= |blocks| && |outs| == i && Valid()
        invariant IsTrace(rules, blocks, outs, trace) && trace[0] == old(Now()) && trace[i] == Now()
        invariant stuck <==> Stuck in outs
        invariant stuck ==> outs != [] && outs[|outs| - 1] == Stuck
        invariant !stuck ==> head == old(head) || NumFromId(head) > NumFromId(old(head))
        invariant chain ==> !stuck && InStep(Now()) && head == (if i == 0 then old(head) else Id(blocks[i - 1]))
      {
        ghost var before := Now();
        assert Replay(rules, head) == Some(state) && WellFormed(fork.State()) by { ValidFacts(); }
        var out := PushBlock(blocks[i]);
        if chain {
          NextContinues(rules, old(head), blocks, i);
          ExtendsInStep(rules, before, blocks[i], out, Now());
        }
        if out != Stuck {
          ClimbsOrStays(rules, before, blocks[i], out, Now());
        }
        TraceGrows(rules, blocks, outs, trace, out, Now());
        outs, trace := outs + [out], trace + [Now()];
        stuck := out == Stuck;
        i := i + 1;
      }
    }

    lemma ValidFacts()
      requires Valid()
      ensures Replay(rules, head) == Some(state) && WellFormed(fork.State())
    {
    }
  }

  lemma PoppedAll(f: ForkState, held: seq<Item>, it: Item, undo: nat, n: nat)
    requires n <= undo && Walk(f, held, it, n).Some?
    ensures Pops(f, held, it, undo, n) == n && PopsHead(f, held, it, undo, n) == Walk(f, held, it, n)
  {
    PopsStop(f, held, it, undo, n, n);
  }

  /** The pops so far are all there are. */
  lemma PopsStop(f: ForkState, held: seq<Item>, it: Item, undo: nat, n: nat, j: nat)
    requires j <= n && j <= undo && Walk(f, held, it, j).Some?
    requires j < n ==> j == undo || Walk(f, held, it, j + 1).None?
    ensures Pops(f, held, it, undo, n) == j
    ensures PopsHead(f, held, it, undo, n)
            == if j < n && Walk(f, held, it, j + 1).Some? then Walk(f, held, it, j + 1) else Walk(f, held, it, j)
  {
    LongestWalkIs(f, held, it, if n <= undo then n else undo, j);
  }

  lemma FiledOnTop(stored: map<nat, Block>, head: BlockId, b: Block)
    requires FiledInOrder(stored) && Stores(stored, head)
    ensures b.previous == head ==> FiledInOrder(stored[Num(b) := b])
  {
    if b.previous == head {
      forall n | 1 <= n <= NumFromId(head) ensures n in stored {
        SameLineSameStore(stored, stored, head, n);
      }
    }
  }

  lemma NothingApplied<S>(r: Rules<S>, id: BlockId, n: nat, top: int, g: Gauge)
    requires n <= NumFromId(id)
    ensures NumFromId(Back(id, n)) == NumFromId(id) - n && AfterBranch(r, Back(id, n), 0, top, g) == g
  {
    BackIsAncestor(id, n);
  }

  lemma ReplayStep<S>(r: Rules<S>, b: Block, s: S)
    requires Replay(r, b.previous) == Some(s)
    ensures Replay(r, Id(b)).Some? <==> r.apply(s, b).Applied?
  {
  }

  lemma MeasuredStep(f: ForkState, g: Gauge, accepted: bool, window: Option<nat>, top: int)
    ensures var h := Measured(g, accepted, window, top);
            && h.undo == (if g.undo <= g.undoMax then g.undo else g.undoMax) + (if accepted then 1 else 0)
            && h.undoMax == if window.Some? then window.value else g.undoMax
  {
  }

  lemma ForgottenHead(f: ForkState, bad: seq<Item>, it: Item)
    ensures Forgotten(f, bad, it).head == Some(it) && Forgotten(f, bad, it).maxSize == f.maxSize
  {
  }

  lemma AllGood<S>(r: Rules<S>, id: BlockId, n: nat)
    requires Replay(r, id).Some? && n <= NumFromId(id)
    ensures GoodBlocks(r, id, n) == n
  {
    GoodBlocksAll(r, id, n);
  }

  lemma SwitchingBlocks(f: ForkState, oldHead: BlockId)
    requires Switching(f, oldHead)
    ensures oldHead.HashOf? && f.head.Some?
  {
  }

  lemma NotSwitching(f: ForkState, oldHead: BlockId)
    requires f.head.Some? && (f.head.value.block.previous == oldHead || Num(f.head.value.block) <= NumFromId(oldHead))
    ensures !Switching(f, oldHead)
  {
  }

  /** Popping the old branch moves the head of the cache down the new one. */
  lemma PoppedHead(f: ForkState, br: Branches, id: BlockId, oldHead: BlockId)
    requires BranchesReady(f, br, id, oldHead) && Walk(f, br.first + br.second, f.head.value, |br.second|).Some?
    ensures Num(Walk(f, br.first + br.second, f.head.value, |br.second|).value.block) == NumFromId(id) - |br.second|
  {
    WalkStaysOnLine(f, br.first + br.second, f.head.value, |br.second|);
    BackIsAncestor(id, |br.second|);
  }

  lemma StuckInOld<S>(r: Rules<S>, f: ForkState, oldHead: BlockId, depth: nat, oldPopped: seq<Transaction>,
                      head: BlockId, popped: seq<Transaction>)
    requires Switching(f, oldHead) && OldPopFails(f, oldHead, depth)
    requires exists j :: 0 <= j < BranchLength(oldHead, Id(f.head.value.block)) && head == Back(oldHead, j)
    ensures SwitchResult(r, f, oldHead, depth, oldPopped, head, popped, Stuck)
  {
  }

  lemma StuckInNew<S>(r: Rules<S>, f: ForkState, oldHead: BlockId, depth: nat, oldPopped: seq<Transaction>,
                      head: BlockId, popped: seq<Transaction>)
    requires Switching(f, oldHead) && !OldPopFails(f, oldHead, depth)
    requires var id := Id(f.head.value.block);
             exists j :: 0 < j < BranchLength(id, oldHead) && head == Back(id, j)
    ensures SwitchResult(r, f, oldHead, depth, oldPopped, head, popped, Stuck)
  {
  }

  lemma StuckWhilePopping<S>(r: Rules<S>, f: ForkState, oldHead: BlockId, depth: nat, oldMax: nat,
                             oldPopped: seq<Transaction>, head: BlockId, popped: seq<Transaction>,
                             undo: nat, undoMax: nat, now: ForkState)
    requires Switching(f, oldHead) && OldPopFails(f, oldHead, depth)
    requires StuckInPop(f, oldHead, depth, oldMax, oldPopped, head, popped, undo, undoMax, now)
    ensures StuckState(r, f, oldHead, depth, oldMax, oldPopped, head, popped, undo, undoMax, now)
  {
  }

  lemma StuckWhileRestoring<S>(r: Rules<S>, f: ForkState, oldHead: BlockId, depth: nat, oldMax: nat,
                               oldPopped: seq<Transaction>, head: BlockId, popped: seq<Transaction>,
                               undo: nat, undoMax: nat, now: ForkState, p: Item)
    requires Switching(f, oldHead) && !OldPopFails(f, oldHead, depth)
    requires var br, id := BranchesOf(f, oldHead), Id(f.head.value.block);
             var g, m := SwitchGauge(r, f, oldHead, depth, oldMax), BranchLength(oldHead, id);
             && Walk(f, br.first + br.second, f.head.value, m) == Some(p)
             && StuckInRestore(Remaining(f.(head := Some(p)), g), br, id,
                               GoodBlocks(r, id, BranchLength(id, oldHead)), g,
                               LineTransactions(oldHead, m) + oldPopped, head, popped, undo, undoMax, now)
    ensures StuckState(r, f, oldHead, depth, oldMax, oldPopped, head, popped, undo, undoMax, now)
  {
    hide StuckInRestore, Switching, BranchesOf;
  }

  lemma SwitchedExactly<S>(r: Rules<S>, f: ForkState, oldHead: BlockId, depth: nat, oldPopped: seq<Transaction>,
                           head: BlockId, popped: seq<Transaction>, out: Outcome)
    requires Switching(f, oldHead) && SwitchResult(r, f, oldHead, depth, oldPopped, head, popped, out)
    requires out == Switched || out == Unwound || out == Stuck
    ensures out == Switched ==> Replay(r, Id(f.head.value.block)).Some? && NumFromId(head) > NumFromId(oldHead)
    ensures out == Unwound ==> Replay(r, Id(f.head.value.block)).None? && head == oldHead
  {
  }

  /** The outcomes and moments of pushing blocks in order, up to the first that is stuck. */
  ghost predicate IsTrace<S>(r: Rules<S>, blocks: seq<Block>, outs: seq<Outcome>, trace: seq<Moment<S>>) {
    && |outs| <= |blocks| && |trace| == |outs| + 1
    && forall i :: 0 <= i < |outs| ==> PushStep(r, trace[i], blocks[i], outs[i], trace[i + 1])
  }

  lemma TraceGrows<S>(r: Rules<S>, blocks: seq<Block>, outs: seq<Outcome>, trace: seq<Moment<S>>, out: Outcome,
                      t: Moment<S>)
    requires IsTrace(r, blocks, outs, trace) && |outs| < |blocks|
    requires PushStep(r, trace[|outs|], blocks[|outs|], out, t)
    ensures IsTrace(r, blocks, outs + [out], trace + [t])
  {
    hide PushStep;
  }

  /** The chain gives way only to a longer one, unless the push gets stuck. */
  lemma ClimbsOrStays<S>(r: Rules<S>, s: Moment<S>, b: Block, out: Outcome, t: Moment<S>)
    requires PushStep(r, s, b, out, t) && out != Stuck
    ensures t.head == s.head || NumFromId(t.head) > NumFromId(s.head)
  {
    hide PopFails, SwitchResult, Replay;
    if out == Switched {
      var f := Pushed(s.fork, b).value;
      SwitchedExactly(r, f, s.head, s.undo, s.popped, t.head, t.popped, out);
    }
  }

  /** The head of the cache is the head of the chain. */
  predicate InStep<S>(s: Moment<S>) {
    if s.head.NoBlock? then s.fork.head.None?
    else s.fork.head.Some? && Id(s.fork.head.value.block) == s.head && s.head in s.fork.index
  }

  /** The blocks build on `head` and on each other, and the rules accept them all. */
  predicate Continues<S>(r: Rules<S>, head: BlockId, blocks: seq<Block>) {
    forall i :: 0 <= i < |blocks| ==>
      blocks[i].previous == (if i == 0 then head else Id(blocks[i - 1])) && Replay(r, Id(blocks[i])).Some?
  }

  lemma NextContinues<S>(r: Rules<S>, head: BlockId, blocks: seq<Block>, i: nat)
    requires Continues(r, head, blocks) && i < |blocks|
    ensures blocks[i].previous == (if i == 0 then head else Id(blocks[i - 1])) && Replay(r, Id(blocks[i])).Some?
  {
  }

  /** A database in step extends its chain by every valid block on top of it, and stays in step. */
  lemma ExtendsInStep<S>(r: Rules<S>, s: Moment<S>, b: Block, out: Outcome, t: Moment<S>)
    requires PushStep(r, s, b, out, t) && InStep(s) && WellFormed(s.fork)
    requires b.previous == s.head && Replay(r, s.head) == Some(s.state) && Replay(r, Id(b)).Some?
    ensures out == Extended && InStep(t) && t.head == Id(b)
  {
    hide PopFails, Switching, SwitchResult;
    assert NumFromId(Id(b)) == Num(b) == NumFromId(s.head) + 1;
    var f := Pushed(s.fork, b).value;
    PushedHead(s.fork, b);
    PushedKeeps(s.fork, b, Id(b));
    assert f.head.value.block == b;
    assert t.fork == AfterWindow(f, Window(r, s.state, b));
  }
}
