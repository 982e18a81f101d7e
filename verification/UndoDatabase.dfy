/** The undo database: nested sessions kept as a stack of change records.

    Each record says how to get back to the state before it.  The main results are that
    reverting a record restores the earlier state exactly (`RevertRestores`), that every
    create, modify and remove keeps the top record right, and that merging two records
    gives the record of both together (`MergeDescribes`): the stack of records stands for
    the stack of full snapshots, over any run of nested sessions. */
module UndoDatabase {

  /** Object kinds have their own instance counters. */
  datatype ObjectId = ObjectId(kind: nat, instance: nat)

  datatype Store<V> = Store(objects: map<ObjectId, V>, nextId: map<nat, nat>)

  datatype UndoState<V> = UndoState(oldValues: map<ObjectId, V>, oldNextIds: map<nat, nat>,
                                    newIds: set<ObjectId>, removed: map<ObjectId, V>)

  /** Every object has a registered kind and an instance below that kind's counter. */
  predicate WellFormed<V>(db: Store<V>) {
    forall id :: id in db.objects ==> id.kind in db.nextId && id.instance < db.nextId[id.kind]
  }

  function Empty<V>(): UndoState<V> {
    UndoState(map[], map[], {}, map[])
  }

  function OnCreate<V>(s: UndoState<V>, id: ObjectId): UndoState<V> {
    s.(oldNextIds := if id.kind in s.oldNextIds then s.oldNextIds else s.oldNextIds[id.kind := id.instance],
       newIds := s.newIds + {id})
  }

  function OnModify<V>(s: UndoState<V>, id: ObjectId, v: V): UndoState<V> {
    if id in s.newIds || id in s.oldValues then s
    else s.(oldValues := s.oldValues[id := v])
  }

  function OnRemove<V>(s: UndoState<V>, id: ObjectId, v: V): UndoState<V> {
    if id in s.newIds then s.(newIds := s.newIds - {id})
    else if id in s.oldValues then s.(removed := s.removed[id := s.oldValues[id]], oldValues := s.oldValues - {id})
    else if id in s.removed then s
    else s.(removed := s.removed[id := v])
  }

  /** Go back: old values, then drop new objects, reset counters, reinsert removed ones. */
  function Revert<V>(s: UndoState<V>, db: Store<V>): Store<V> {
    Store(((db.objects + s.oldValues) - s.newIds) + s.removed, db.nextId + s.oldNextIds)
  }

  /** Record `a` followed by record `b`, as one record. */
  function Merge<V>(a: UndoState<V>, b: UndoState<V>): UndoState<V> {
    UndoState(((b.oldValues - a.newIds) + a.oldValues) - b.removed.Keys,
              b.oldNextIds + a.oldNextIds,
              (a.newIds + b.newIds) - b.removed.Keys,
              (a.removed + (b.removed - a.newIds)) + (map id | id in a.oldValues && id in b.removed :: a.oldValues[id]))
  }

  /** What the three changes of an object do to the store: the object, the counter of its kind
      for a creation, and nothing else. */
  lemma ChangesAre<V>(db: Store<V>, kind: nat, id: ObjectId, v: V)
    ensures kind in db.nextId ==>
            var t, made := Created(db, kind, v), ObjectId(kind, db.nextId[kind]);
            && t.objects.Keys == db.objects.Keys + {made} && t.objects[made] == v
            && (forall i :: i in db.objects && i != made ==> t.objects[i] == db.objects[i])
            && t.nextId.Keys == db.nextId.Keys && t.nextId[kind] == db.nextId[kind] + 1
            && (forall k :: k in db.nextId && k != kind ==> t.nextId[k] == db.nextId[k])
    ensures id in db.objects ==>
            var t := Modified(db, id, v);
            && t.nextId == db.nextId && t.objects.Keys == db.objects.Keys && t.objects[id] == v
            && (forall i :: i in db.objects && i != id ==> t.objects[i] == db.objects[i])
    ensures id in db.objects ==>
            var t := Removed(db, id);
            && t.nextId == db.nextId && t.objects.Keys == db.objects.Keys - {id}
            && (forall i :: i in t.objects ==> t.objects[i] == db.objects[i])
  {
  }

  /** What the record `s` says about one object agrees with its value before and now. */
  ghost predicate Tells<V>(s: UndoState<V>, id: ObjectId, before: map<ObjectId, V>, now: map<ObjectId, V>) {
    && (id in s.newIds <==> id in now && id !in before)
    && (id in s.removed <==> id in before && id !in now)
    && (id in s.oldValues ==> id in before && id in now)
    && (id in s.removed ==> s.removed[id] == before[id])
    && (id in before && id in now ==> before[id] == if id in s.oldValues then s.oldValues[id] else now[id])
  }

  ghost predicate TellsNextId<V>(s: UndoState<V>, kind: nat, before: map<nat, nat>, now: map<nat, nat>) {
    && (kind in before <==> kind in now)
    && (kind in s.oldNextIds ==> kind in now)
    && (kind in now ==>
          && before[kind] <= now[kind]
          && before[kind] == if kind in s.oldNextIds then s.oldNextIds[kind] else now[kind])
  }

  /** `s` is the record of the changes that led from `before` to `now`; objects that are
      new since `before` have instances its counters had not reached. */
  ghost predicate Describes<V>(s: UndoState<V>, before: Store<V>, now: Store<V>) {
    && WellFormed(before) && WellFormed(now)
    && (forall id :: Tells(s, id, before.objects, now.objects))
    && (forall kind :: TellsNextId(s, kind, before.nextId, now.nextId))
    && (forall id :: id in now.objects && id !in before.objects && id.kind in before.nextId
          ==> before.nextId[id.kind] <= id.instance)
  }

  /** Reverting a record gives back exactly the state it was opened in. */
  lemma RevertRestores<V>(s: UndoState<V>, before: Store<V>, now: Store<V>)
    requires Describes(s, before, now)
    ensures Revert(s, now) == before
  {
    var r := Revert(s, now);
    forall id ensures id in r.objects <==> id in before.objects {
      assert Tells(s, id, before.objects, now.objects);
    }
    forall id | id in before.objects ensures r.objects[id] == before.objects[id] {
      assert Tells(s, id, before.objects, now.objects);
    }
    forall kind ensures kind in r.nextId <==> kind in before.nextId {
      assert TellsNextId(s, kind, before.nextId, now.nextId);
    }
    forall kind | kind in before.nextId ensures r.nextId[kind] == before.nextId[kind] {
      assert TellsNextId(s, kind, before.nextId, now.nextId);
    }
    assert r.objects == before.objects && r.nextId == before.nextId;
  }

  lemma EmptyDescribes<V>(db: Store<V>)
    requires WellFormed(db)
    ensures Describes(Empty(), db, db)
  {
  }

  lemma CreateDescribes<V>(s: UndoState<V>, before: Store<V>, now: Store<V>, kind: nat, v: V)
    requires Describes(s, before, now) && kind in now.nextId
    ensures Describes(OnCreate(s, ObjectId(kind, now.nextId[kind])), before, Created(now, kind, v))
  {
    var added := ObjectId(kind, now.nextId[kind]);
    var t, next := OnCreate(s, added), Created(now, kind, v);
    assert TellsNextId(s, kind, before.nextId, now.nextId);
    assert added !in before.objects && added !in now.objects;
    forall id ensures Tells(t, id, before.objects, next.objects) {
      assert Tells(s, id, before.objects, now.objects);
    }
    forall k ensures TellsNextId(t, k, before.nextId, next.nextId) {
      assert TellsNextId(s, k, before.nextId, now.nextId);
    }
  }

  lemma ModifyDescribes<V>(s: UndoState<V>, before: Store<V>, now: Store<V>, changed: ObjectId, v: V)
    requires Describes(s, before, now) && changed in now.objects
    ensures Describes(OnModify(s, changed, now.objects[changed]), before, Modified(now, changed, v))
  {
    var t, next := OnModify(s, changed, now.objects[changed]), Modified(now, changed, v);
    forall id ensures Tells(t, id, before.objects, next.objects) {
      assert Tells(s, id, before.objects, now.objects);
    }
    forall k ensures TellsNextId(t, k, before.nextId, next.nextId) {
      assert TellsNextId(s, k, before.nextId, now.nextId);
    }
  }

  lemma RemoveDescribes<V>(s: UndoState<V>, before: Store<V>, now: Store<V>, gone: ObjectId)
    requires Describes(s, before, now) && gone in now.objects
    ensures Describes(OnRemove(s, gone, now.objects[gone]), before, Removed(now, gone))
  {
    var t, next := OnRemove(s, gone, now.objects[gone]), Removed(now, gone);
    forall id ensures Tells(t, id, before.objects, next.objects) {
      assert Tells(s, id, before.objects, now.objects);
    }
    forall k ensures TellsNextId(t, k, before.nextId, next.nextId) {
      assert TellsNextId(s, k, before.nextId, now.nextId);
    }
  }

  /** The merge table: every pair of cases composes to the record of both sessions. */
  lemma MergeDescribes<V>(a: UndoState<V>, b: UndoState<V>, x: Store<V>, y: Store<V>, z: Store<V>)
    requires Describes(a, x, y) && Describes(b, y, z)
    ensures Describes(Merge(a, b), x, z)
  {
    var m := Merge(a, b);
    forall k ensures TellsNextId(m, k, x.nextId, z.nextId) {
      assert TellsNextId(a, k, x.nextId, y.nextId) && TellsNextId(b, k, y.nextId, z.nextId);
    }
    forall id | id in z.objects && id !in y.objects ensures id !in x.objects {
      NeverReused(a, b, x, y, z, id);
    }
    forall id ensures Tells(m, id, x.objects, z.objects) {
      MergeTells(a, b, x.objects, y.objects, z.objects, id);
    }
    forall id | id in z.objects && id !in x.objects && id.kind in x.nextId
      ensures x.nextId[id.kind] <= id.instance
    {
      assert TellsNextId(a, id.kind, x.nextId, y.nextId);
    }
  }

  /** An id that was used and removed never comes back: counters only grow. */
  lemma NeverReused<V>(a: UndoState<V>, b: UndoState<V>, x: Store<V>, y: Store<V>, z: Store<V>, id: ObjectId)
    requires Describes(a, x, y) && Describes(b, y, z)
    requires id in z.objects && id !in y.objects
    ensures id !in x.objects
  {
    assert TellsNextId(a, id.kind, x.nextId, y.nextId) && TellsNextId(b, id.kind, y.nextId, z.nextId);
  }

  lemma MergeTells<V>(a: UndoState<V>, b: UndoState<V>, x: map<ObjectId, V>, y: map<ObjectId, V>, z: map<ObjectId, V>,
                      id: ObjectId)
    requires Tells(a, id, x, y) && Tells(b, id, y, z)
    requires id in z && id !in y ==> id !in x
    ensures Tells(Merge(a, b), id, x, z)
  {
  }

  function Created<V>(db: Store<V>, kind: nat, v: V): Store<V>
    requires kind in db.nextId
  {
    var n := db.nextId[kind];
    Store(db.objects[ObjectId(kind, n) := v], db.nextId[kind := n + 1])
  }

  function Modified<V>(db: Store<V>, id: ObjectId, v: V): Store<V>
    requires id in db.objects
  {
    db.(objects := db.objects[id := v])
  }

  function Removed<V>(db: Store<V>, id: ObjectId): Store<V>
    requires id in db.objects
  {
    db.(objects := db.objects - {id})
  }

  /** The top record leads from the top snapshot to `now`, and so on down the stack. */
  ghost predicate Stands<V>(stack: seq<UndoState<V>>, snaps: seq<Store<V>>, now: Store<V>)
    decreases |stack|
  {
    && |stack| == |snaps|
    && (|stack| == 0 ||
        var top := |stack| - 1;
        && Describes(stack[top], snaps[top], now)
        && Stands(stack[..top], snaps[..top], snaps[top]))
  }

  lemma StandsLength<V>(stack: seq<UndoState<V>>, snaps: seq<Store<V>>, now: Store<V>)
    requires Stands(stack, snaps, now)
    ensures |stack| == |snaps|
  {
  }

  lemma {:induction false} StandsWithoutOldest<V>(stack: seq<UndoState<V>>, snaps: seq<Store<V>>, now: Store<V>)
    requires Stands(stack, snaps, now) && |stack| > 0
    ensures Stands(stack[1..], snaps[1..], now)
    decreases |stack|
  {
    var top := |stack| - 1;
    if top > 0 {
      StandsWithoutOldest(stack[..top], snaps[..top], snaps[top]);
      assert stack[1..][..top - 1] == stack[..top][1..];
      assert snaps[1..][..top - 1] == snaps[..top][1..];
    }
  }

  lemma StandsPush<V>(stack: seq<UndoState<V>>, snaps: seq<Store<V>>, now: Store<V>, s: UndoState<V>, next: Store<V>)
    requires Stands(stack, snaps, now) && Describes(s, now, next)
    ensures Stands(stack + [s], snaps + [now], next)
  {
    assert (stack + [s])[..|stack|] == stack && (snaps + [now])[..|snaps|] == snaps;
  }

  lemma StandsRetop<V>(stack: seq<UndoState<V>>, snaps: seq<Store<V>>, now: Store<V>, s: UndoState<V>, next: Store<V>)
    requires Stands(stack, snaps, now) && |stack| > 0 && Describes(s, snaps[|snaps| - 1], next)
    ensures Stands(stack[|stack| - 1 := s], snaps, next)
  {
    assert stack[|stack| - 1 := s][..|stack| - 1] == stack[..|stack| - 1];
  }

  /** Copy the entries of `b` that `a` does not settle: one loop per container. */
  method MergeRecords<V>(a: UndoState<V>, b: UndoState<V>) returns (m: UndoState<V>)
    requires Mergeable(a, b)
    ensures m == Merge(a, b)
  {
    var olds := a.oldValues;
    var todo := b.oldValues.Keys;
    while todo != {}
      invariant todo <= b.oldValues.Keys
      invariant forall id :: id in olds <==> id in a.oldValues || (id in b.oldValues && id !in todo && id !in a.newIds)
      invariant forall id :: id in olds ==> olds[id] == if id in a.oldValues then a.oldValues[id] else b.oldValues[id]
      decreases todo
    {
      var id :| id in todo;
      todo := todo - {id};
      if id !in a.newIds && id !in olds {
        olds := olds[id := b.oldValues[id]];
      }
    }
    assert olds == (b.oldValues - a.newIds) + a.oldValues;
    var newIds := a.newIds + b.newIds;
    var next := a.oldNextIds;
    var kinds := b.oldNextIds.Keys;
    while kinds != {}
      invariant kinds <= b.oldNextIds.Keys
      invariant forall k :: k in next <==> k in a.oldNextIds || (k in b.oldNextIds && k !in kinds)
      invariant forall k :: k in next ==> next[k] == if k in a.oldNextIds then a.oldNextIds[k] else b.oldNextIds[k]
      decreases kinds
    {
      var k :| k in kinds;
      kinds := kinds - {k};
      if k !in next {
        next := next[k := b.oldNextIds[k]];
      }
    }
    assert next == b.oldNextIds + a.oldNextIds;
    m := MergeRemoved(a, b, olds, newIds, next);
  }

  /** The third loop of a merge: what `b` removed. */
  method MergeRemoved<V>(a: UndoState<V>, b: UndoState<V>, oldValues: map<ObjectId, V>, newIds: set<ObjectId>,
                         next: map<nat, nat>)
    returns (m: UndoState<V>)
    requires Mergeable(a, b)
    requires oldValues == (b.oldValues - a.newIds) + a.oldValues && newIds == a.newIds + b.newIds
    requires next == b.oldNextIds + a.oldNextIds
    ensures m == Merge(a, b)
  {
    m := UndoState(oldValues, next, newIds, a.removed);
    var todo := b.removed.Keys;
    while todo != {}
      invariant todo <= b.removed.Keys && m.oldNextIds == next
      invariant forall id :: RemovedSoFar(a, b, oldValues, newIds, m, todo, id)
      decreases todo
    {
      var id :| id in todo;
      ghost var was, left := m, todo;
      todo := todo - {id};
      if id in m.newIds {
        m := m.(newIds := m.newIds - {id});
      } else if id in m.oldValues {
        m := m.(removed := m.removed[id := m.oldValues[id]], oldValues := m.oldValues - {id});
      } else {
        m := m.(removed := m.removed[id := b.removed[id]]);
      }
      forall i ensures RemovedSoFar(a, b, oldValues, newIds, m, todo, i) {
        assert RemovedSoFar(a, b, oldValues, newIds, was, left, i) && MergeableAt(a, b, i);
      }
    }
    MergedAtLast(a, b, oldValues, newIds, m);
  }

  /** Where the third loop stands with object `id`. */
  ghost predicate RemovedSoFar<V>(a: UndoState<V>, b: UndoState<V>, oldValues: map<ObjectId, V>, newIds: set<ObjectId>,
                                  m: UndoState<V>, todo: set<ObjectId>, id: ObjectId)
  {
    if id in b.removed && id !in todo then
      && id !in m.newIds && id !in m.oldValues
      && (id in m.removed <==> id !in a.newIds)
      && (id in m.removed ==> m.removed[id] == if id in a.oldValues then a.oldValues[id] else b.removed[id])
    else
      && (id in m.newIds <==> id in newIds)
      && (id in m.oldValues <==> id in oldValues)
      && (id in m.oldValues ==> m.oldValues[id] == oldValues[id])
      && (id in m.removed <==> id in a.removed)
      && (id in m.removed ==> m.removed[id] == a.removed[id])
  }

  lemma MergedAtLast<V>(a: UndoState<V>, b: UndoState<V>, oldValues: map<ObjectId, V>, newIds: set<ObjectId>,
                        m: UndoState<V>)
    requires Mergeable(a, b)
    requires oldValues == (b.oldValues - a.newIds) + a.oldValues && newIds == a.newIds + b.newIds
    requires m.oldNextIds == b.oldNextIds + a.oldNextIds
    requires forall id :: RemovedSoFar(a, b, oldValues, newIds, m, {}, id)
    ensures m == Merge(a, b)
  {
    var r := Merge(a, b);
    forall id
      ensures id in m.newIds <==> id in r.newIds
      ensures id in m.oldValues <==> id in r.oldValues
      ensures id in m.oldValues ==> m.oldValues[id] == r.oldValues[id]
      ensures id in m.removed <==> id in r.removed
      ensures id in m.removed ==> m.removed[id] == r.removed[id]
    {
      assert RemovedSoFar(a, b, oldValues, newIds, m, {}, id) && MergeableAt(a, b, id);
    }
    assert m.newIds == r.newIds && m.oldValues == r.oldValues && m.removed == r.removed;
  }

  /** The two records do not contradict each other about `id`. */
  ghost predicate MergeableAt<V>(a: UndoState<V>, b: UndoState<V>, id: ObjectId) {
    && (id in b.removed ==> id !in b.newIds && id !in b.oldValues && id !in a.removed)
    && (id in a.newIds ==> id !in a.oldValues)
  }

  ghost predicate Mergeable<V>(a: UndoState<V>, b: UndoState<V>) {
    forall id :: MergeableAt(a, b, id)
  }

  datatype Change<V> =
    | Creation(kind: nat, value: V)
    | Modification(id: ObjectId, newValue: V)
    | Removal(gone: ObjectId)

  function Changed<V>(db: Store<V>, c: Change<V>): Store<V> {
    match c
    case Creation(kind, v) => if kind in db.nextId then Created(db, kind, v) else db
    case Modification(id, v) => if id in db.objects then Modified(db, id, v) else db
    case Removal(id) => if id in db.objects then Removed(db, id) else db
  }

  function ChangedAll<V>(db: Store<V>, changes: seq<Change<V>>): Store<V>
    decreases |changes|
  {
    if changes == [] then db else ChangedAll(Changed(db, changes[0]), changes[1..])
  }

  /** An object store with nested undo sessions.  `snaps` are the full states that the
      records of `stack` stand for. */
  class UndoDatabase<V> {
    var db: Store<V>
    var stack: seq<UndoState<V>>
    var active: nat
    var maxSize: nat
    ghost var snaps: seq<Store<V>>

    ghost predicate Valid()
      reads this
    {
      WellFormed(db) && Stands(stack, snaps, db)
    }

    /** Every active session still has its record. */
    ghost predicate Covered()
      reads this
    {
      active <= |stack|
    }

    constructor (db: Store<V>)
      requires WellFormed(db)
      ensures Valid() && this.db == db && stack == [] && active == 0 && maxSize == 256
    {
      this.db, stack, active, maxSize, snaps := db, [], 0, 256, [];
    }

    /** Drop the oldest records beyond the maximum. */
    method DropOldest()
      requires Valid()
      modifies this`stack, this`snaps
      ensures Valid() && |stack| == |snaps| && |old(stack)| == |old(snaps)|
      ensures |stack| == if |old(stack)| <= maxSize then |old(stack)| else maxSize
      ensures snaps == old(snaps)[|old(snaps)| - |stack|..]
    {
      hide Describes, WellFormed, Stands;
      StandsLength(stack, snaps, db);
      ghost var n := 0;
      while |stack| > maxSize
        invariant n <= |old(stack)| && stack == old(stack)[n..] && snaps == old(snaps)[n..]
        invariant n == 0 || maxSize <= |stack|
        invariant Stands(stack, snaps, db)
      {
        StandsWithoutOldest(stack, snaps, db);
        stack, snaps := stack[1..], snaps[1..];
        n := n + 1;
      }
    }

    /** Open a session, after dropping the oldest records beyond the maximum.  Records of active
        sessions are among them exactly if there are more active sessions than the maximum. */
    method StartSession()
      requires Valid()
      modifies this
      ensures old(Covered()) ==> (Covered() <==> old(active) <= maxSize)
      ensures Valid() && db == old(db) && active == old(active) + 1 && maxSize == old(maxSize)
      ensures |snaps| >= 1 && snaps[|snaps| - 1] == db
      ensures |old(snaps)| <= maxSize ==> snaps == old(snaps) + [db]
      ensures |snaps| - 1 <= |old(snaps)| && snaps[..|snaps| - 1] == old(snaps)[|old(snaps)| - (|snaps| - 1)..]
    {
      hide Describes, WellFormed, Stands;
      DropOldest();
      EmptyDescribes(db);
      StandsPush(stack, snaps, db, Empty(), db);
      stack, snaps := stack + [Empty()], snaps + [db];
      active := active + 1;
    }

    /** Records are kept even outside a session: the first change opens one. */
    method EnsureRecord()
      requires Valid()
      modifies this`stack, this`snaps
      ensures Valid() && |stack| > 0 && (old(Covered()) ==> Covered())
      ensures if |old(stack)| == 0 then snaps == [db] else snaps == old(snaps)
    {
      if stack == [] {
        EmptyDescribes(db);
        StandsPush(stack, snaps, db, Empty(), db);
        stack, snaps := [Empty()], [db];
      }
    }

    method Create(kind: nat, v: V) returns (id: ObjectId)
      requires Valid() && kind in db.nextId
      modifies this`db, this`stack, this`snaps
      ensures Valid() && db == Created(old(db), kind, v) && id == ObjectId(kind, old(db.nextId[kind]))
      ensures old(Covered()) ==> Covered()
      ensures snaps == if |old(stack)| == 0 then [old(db)] else old(snaps)
    {
      hide Describes, OnCreate;
      EnsureRecord();
      id := ObjectId(kind, db.nextId[kind]);
      var top := |stack| - 1;
      CreateDescribes(stack[top], snaps[top], db, kind, v);
      var record := OnCreate(stack[top], id);
      StandsRetop(stack, snaps, db, record, Created(db, kind, v));
      stack := stack[top := record];
      db := Created(db, kind, v);
    }

    method Modify(id: ObjectId, v: V)
      requires Valid() && id in db.objects
      modifies this`db, this`stack, this`snaps
      ensures Valid() && db == Modified(old(db), id, v)
      ensures old(Covered()) ==> Covered()
      ensures snaps == if |old(stack)| == 0 then [old(db)] else old(snaps)
    {
      hide Describes, OnModify;
      EnsureRecord();
      var top := |stack| - 1;
      ModifyDescribes(stack[top], snaps[top], db, id, v);
      var record := OnModify(stack[top], id, db.objects[id]);
      StandsRetop(stack, snaps, db, record, Modified(db, id, v));
      stack := stack[top := record];
      db := Modified(db, id, v);
    }

    method Remove(id: ObjectId)
      requires Valid() && id in db.objects
      modifies this`db, this`stack, this`snaps
      ensures Valid() && db == Removed(old(db), id)
      ensures old(Covered()) ==> Covered()
      ensures snaps == if |old(stack)| == 0 then [old(db)] else old(snaps)
    {
      hide Describes, OnRemove;
      EnsureRecord();
      var top := |stack| - 1;
      RemoveDescribes(stack[top], snaps[top], db, id);
      var record := OnRemove(stack[top], id, db.objects[id]);
      StandsRetop(stack, snaps, db, record, Removed(db, id));
      stack := stack[top := record];
      db := Removed(db, id);
    }

    /** Close the top session by undoing it: the store is the snapshot it was opened in. */
    method Undo()
      requires Valid() && active > 0 && stack != []
      modifies this
      ensures old(Covered()) ==> Covered()
      ensures Valid() && active == old(active) - 1 && maxSize == old(maxSize)
      ensures db == old(snaps)[|old(snaps)| - 1] && snaps == old(snaps)[..|old(snaps)| - 1]
    {
      var top := |stack| - 1;
      RevertRestores(stack[top], snaps[top], db);
      db := Revert(stack[top], db);
      stack, snaps := stack[..top], snaps[..top];
      active := active - 1;
    }

    /** Close the top session by folding it into the one below. */
    method MergeTop() returns (ok: bool)
      requires Valid()
      modifies this
      ensures ok <==> old(active) > 0 && (|old(stack)| >= 2 || (old(active) == 1 && |old(stack)| == 1))
      ensures Valid() && db == old(db) && maxSize == old(maxSize) && (old(Covered()) ==> Covered())
      ensures ok ==> active == old(active) - 1 && snaps == old(snaps)[..|old(snaps)| - 1]
      ensures !ok ==> active == old(active) && stack == old(stack) && snaps == old(snaps)
    {
      if active == 0 || (|stack| < 2 && !(active == 1 && |stack| == 1)) {
        return false;
      }
      var top := |stack| - 1;
      if active == 1 && |stack| == 1 {
        stack, snaps := [], [];
      } else {
        assert Stands(stack[..top], snaps[..top], snaps[top]);
        assert stack[..top][..top - 1] == stack[..top - 1] && snaps[..top][..top - 1] == snaps[..top - 1];
        MergeDescribes(stack[top - 1], stack[top], snaps[top - 1], snaps[top], db);
        RecordsDisjoint(stack[top - 1], stack[top], snaps[top - 1], snaps[top], db);
        var m := MergeRecords(stack[top - 1], stack[top]);
        StandsPush(stack[..top - 1], snaps[..top - 1], snaps[top - 1], m, db);
        stack, snaps := stack[..top - 1] + [m], snaps[..top - 1] + [snaps[top - 1]];
      }
      active := active - 1;
      ok := true;
    }

    /** Close the top session and keep its record for `PopCommit`. */
    method Commit() returns (ok: bool)
      requires Valid()
      modifies this`active
      ensures Valid() && (old(Covered()) ==> Covered())
      ensures ok <==> old(active) > 0
      ensures active == if ok then old(active) - 1 else 0
    {
      ok := active > 0;
      if ok {
        active := active - 1;
      }
    }

    /** Make changes one after the other; what cannot be changed is left alone. */
    method ChangeAll(changes: seq<Change<V>>)
      requires Valid() && stack != []
      modifies this`db, this`stack, this`snaps
      ensures Valid() && db == ChangedAll(old(db), changes)
      ensures stack != [] && snaps == old(snaps) && (old(Covered()) ==> Covered())
    {
      hide Describes, WellFormed, Stands, Created, Modified, Removed;
      var i := 0;
      assert changes[0..] == changes;
      while i < |changes|
        invariant 0 <= i <= |changes| && Valid() && stack != [] && snaps == old(snaps) && (old(Covered()) ==> Covered())
        invariant ChangedAll(db, changes[i..]) == ChangedAll(old(db), changes)
      {
        assert |stack| == |snaps| by { StandsLength(stack, snaps, db); }
        assert changes[i..][1..] == changes[i + 1..];
        match changes[i] {
          case Creation(kind, v) =>
            if kind in db.nextId {
              var id := Create(kind, v);
            }
          case Modification(id, v) =>
            if id in db.objects {
              Modify(id, v);
            }
          case Removal(id) =>
            if id in db.objects {
              Remove(id);
            }
        }
        assert stack != [] by { StandsLength(stack, snaps, db); }
        i := i + 1;
      }
    }

    /** Make any changes in a session of their own, commit it, and take it back again: the store
        is what it was, object ids included. */
    method CommitAndPop(changes: seq<Change<V>>) returns (after: Store<V>, ok: bool)
      requires Valid() && active == 0
      modifies this
      ensures Valid() && ok && after == ChangedAll(old(db), changes) && db == old(db)
    {
      hide Describes, WellFormed, Stands;
      StartSession();
      assert stack != [] by { StandsLength(stack, snaps, db); }
      ChangeAll(changes);
      after := db;
      var committed := Commit();
      ok := PopCommit();
    }

    /** Undo the last committed record. */
    method PopCommit() returns (ok: bool)
      requires Valid()
      modifies this`db, this`stack, this`snaps
      ensures Valid()
      ensures ok <==> active == 0 && old(stack) != []
      ensures ok ==> db == old(snaps)[|old(snaps)| - 1] && snaps == old(snaps)[..|old(snaps)| - 1]
      ensures !ok ==> db == old(db) && stack == old(stack) && snaps == old(snaps)
    {
      if active != 0 || stack == [] {
        return false;
      }
      var top := |stack| - 1;
      RevertRestores(stack[top], snaps[top], db);
      db := Revert(stack[top], db);
      stack, snaps := stack[..top], snaps[..top];
      ok := true;
    }
  }

  lemma RecordsDisjoint<V>(a: UndoState<V>, b: UndoState<V>, x: Store<V>, y: Store<V>, z: Store<V>)
    requires Describes(a, x, y) && Describes(b, y, z)
    ensures Mergeable(a, b)
  {
    forall id ensures MergeableAt(a, b, id) {
      assert Tells(a, id, x.objects, y.objects) && Tells(b, id, y.objects, z.objects);
    }
  }
}
