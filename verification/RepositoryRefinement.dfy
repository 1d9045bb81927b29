/** The soft-deleting table behaves like the in-memory Map, answer for answer, over any run of operations. */
module RepositoryRefinement {
  import opened Wrappers
  import opened Ordering
  import opened RepositoryModel
  import opened Repositories

  ghost predicate InCreationOrder(store: Store) {
    forall i, j :: 0 <= i < j < |store| ==> store[i].createdAt < store[j].createdAt
  }

  /** The store holds exactly the live rows of the table, in creation order. */
  ghost predicate Simulates(store: Store, table: Table) {
    && UniqueIds(store) && InCreationOrder(store) && Keyed(table)
    && (forall e :: e in store ==> e.id in table && table[e.id] == Row(e, None))
    && (forall id :: LiveIn(table, id) ==> table[id].entity in store)
  }

  /** What the environment owes: identifiers are fresh, even against deleted rows, and creation times increase. */
  ghost predicate FreshlyMade(table: Table, op: Op) {
    op.Create? ==> op.id !in table && forall k :: k in table ==> table[k].entity.createdAt < op.now
  }

  /** Every null in the patch of a live row falls on a field that is null already. */
  ghost predicate NullsChangeNothing(table: Table, op: Op) {
    op.Update? && LiveIn(table, op.id) ==>
      var data := table[op.id].entity.data;
      forall f :: f in op.patch && op.patch[f] == Null ==> f in data && data[f] == Null
  }

  ghost predicate Admitted(table: Table, op: Op) {
    FreshlyMade(table, op) && NullsChangeNothing(table, op)
  }

  // ---------- the Map operations, pointwise ----------

  lemma {:induction false} GetFinds(store: Store, id: string)
    requires UniqueIds(store)
    ensures Get(store, id).None? <==> forall e :: e in store ==> e.id != id
    ensures forall e :: e in store && e.id == id ==> Get(store, id) == Some(e)
    ensures Get(store, id).Some? ==> Get(store, id).value in store && Get(store, id).value.id == id
  {
    if store != [] {
      GetFinds(store[1..], id);
      assert forall x :: x in store <==> x == store[0] || x in store[1..];
    }
  }

  lemma {:induction false} SetReplaces(store: Store, i: nat, e: Entity)
    requires UniqueIds(store) && i < |store| && store[i].id == e.id
    ensures Set(store, e) == store[i := e]
  {
    if i > 0 {
      SetReplaces(store[1..], i - 1, e);
    }
  }

  lemma {:induction false} RemoveDrops(store: Store, i: nat)
    requires UniqueIds(store) && i < |store|
    ensures Remove(store, store[i].id) == store[..i] + store[i + 1..]
  {
    if i > 0 {
      RemoveDrops(store[1..], i - 1);
      assert store[..i] + store[i + 1..] == [store[0]] + (store[1..][..i - 1] + store[1..][i..]);
    }
  }

  lemma {:induction false} RemoveMissing(store: Store, id: string)
    requires forall e :: e in store ==> e.id != id
    ensures Remove(store, id) == store
  {
    if store != [] {
      assert store[0] in store;
      assert forall x :: x in store[1..] ==> x in store;
      RemoveMissing(store[1..], id);
    }
  }

  lemma PositionOf(store: Store, table: Table, id: string) returns (i: nat)
    requires Simulates(store, table) && LiveIn(table, id)
    ensures i < |store| && store[i] == table[id].entity && store[i].id == id
    ensures Get(store, id) == Some(store[i])
  {
    i :| 0 <= i < |store| && store[i] == table[id].entity;
    GetFinds(store, id);
  }

  lemma NotLive(store: Store, table: Table, id: string)
    requires Simulates(store, table) && !LiveIn(table, id)
    ensures Get(store, id) == None && Remove(store, id) == store
  {
    GetFinds(store, id);
    RemoveMissing(store, id);
  }

  // ---------- one operation ----------

  lemma AppendKeepsOrder(store: Store, e: Entity)
    requires UniqueIds(store) && InCreationOrder(store)
    requires forall x :: x in store ==> x.createdAt < e.createdAt && x.id != e.id
    ensures UniqueIds(store + [e]) && InCreationOrder(store + [e]) && Set(store, e) == store + [e]
  {
    hide Set;
    SetKeepsUnique(store, e);
  }

  lemma AppendSimulates(store: Store, table: Table, e: Entity)
    requires Simulates(store, table) && e.id !in table
    requires forall k :: k in table ==> table[k].entity.createdAt < e.createdAt
    ensures Simulates(Set(store, e), table[e.id := Row(e, None)])
  {
    hide UniqueIds, InCreationOrder, Set;
    AppendKeepsOrder(store, e);
    var table' := table[e.id := Row(e, None)];
    forall id | LiveIn(table', id)
      ensures table'[id].entity in Set(store, e)
    {
      if id != e.id {
        assert LiveIn(table, id);
      }
    }
  }

  lemma ReplaceSimulates(store: Store, table: Table, i: nat, e: Entity)
    requires Simulates(store, table) && i < |store| && e.id == store[i].id && e.createdAt == store[i].createdAt
    ensures Simulates(store[i := e], table[e.id := Row(e, None)])
  {
    var store' := store[i := e];
    forall x | x in store'
      ensures x == e || (x in store && x.id != e.id)
    {
      var k :| 0 <= k < |store'| && store'[k] == x;
    }
    forall x | x in store && x.id != e.id
      ensures x in store'
    {
      var k :| 0 <= k < |store| && store[k] == x;
      assert store'[k] == x;
    }
    assert store'[i] == e;
  }

  lemma DropContents(store: Store, i: nat)
    requires UniqueIds(store) && i < |store|
    ensures forall e :: e in store[..i] + store[i + 1..] <==> e in store && e.id != store[i].id
  {
    var before, after := store[..i], store[i + 1..];
    assert store == before + [store[i]] + after;
    assert forall e :: e in before || e in after ==> e.id != store[i].id;
  }

  lemma DropKeepsOrder(store: Store, i: nat)
    requires UniqueIds(store) && InCreationOrder(store) && i < |store|
    ensures UniqueIds(store[..i] + store[i + 1..]) && InCreationOrder(store[..i] + store[i + 1..])
  {
    var rest := store[..i] + store[i + 1..];
    forall j, k | 0 <= j < k < |rest|
      ensures rest[j].id != rest[k].id && rest[j].createdAt < rest[k].createdAt
    {
      var a, b := if j < i then j else j + 1, if k < i then k else k + 1;
      assert rest[j] == store[a] && rest[k] == store[b];
    }
  }

  lemma DropSimulates(store: Store, table: Table, i: nat, table': Table)
    requires Simulates(store, table) && i < |store| && Keyed(table')
    requires !LiveIn(table', store[i].id)
    requires forall id :: id != store[i].id ==>
               (id in table <==> id in table') && (id in table ==> table[id] == table'[id])
    ensures Simulates(store[..i] + store[i + 1..], table')
  {
    hide UniqueIds, InCreationOrder;
    DropKeepsOrder(store, i);
    DropContents(store, i);
    forall id | LiveIn(table', id)
      ensures table'[id].entity in store[..i] + store[i + 1..]
    {
      assert LiveIn(table, id);
    }
  }

  lemma NextSimulates(store: Store, table: Table, op: Op)
    requires Simulates(store, table) && Admitted(table, op)
    ensures Simulates(MemStep(store, op).0, SqlNext(table, op))
  {
    hide Simulates, Get, Set, Remove;
    match op {
      case Create(id, data, now) => AppendSimulates(store, table, Entity(id, now, now, data));
      case Update(id, patch, now) =>
        if LiveIn(table, id) {
          var i := PositionOf(store, table, id);
          var e := SqlUpdated(store[i], patch, now);
          NullsIgnored(store[i].data, patch);
          UpdateInPlace(store, table, i, e);
        } else {
          NotLive(store, table, id);
        }
      case Delete(id, now) =>
        if LiveIn(table, id) {
          var i := PositionOf(store, table, id);
          DeleteInPlace(store, table, i, now);
        } else {
          NotLive(store, table, id);
        }
      case _ =>
    }
  }

  /** Dropping the nulls of a patch makes no difference exactly when they fall on nulls. */
  lemma NullsIgnored(data: map<string, Value>, patch: map<string, Value>)
    ensures data + patch == data + NonNull(patch)
       <==> forall f :: f in patch && patch[f] == Null ==> f in data && data[f] == Null
  {
    var all, kept := data + patch, data + NonNull(patch);
    if f :| f in patch && patch[f] == Null && !(f in data && data[f] == Null) {
      assert f in all && all[f] == Null;
      assert !(f in kept && kept[f] == Null);
    }
  }

  lemma UpdateInPlace(store: Store, table: Table, i: nat, e: Entity)
    requires Simulates(store, table) && i < |store| && e.id == store[i].id && e.createdAt == store[i].createdAt
    ensures Set(store, e) == store[i := e] && e.id in table
    ensures Simulates(Set(store, e), table[e.id := table[e.id].(entity := e)])
  {
    SetReplaces(store, i, e);
    ReplaceSimulates(store, table, i, e);
    assert store[i] in store;
  }

  lemma DeleteInPlace(store: Store, table: Table, i: nat, now: int)
    requires Simulates(store, table) && i < |store|
    ensures var id := store[i].id;
            && id in table
            && Simulates(Remove(store, id), table[id := Row(table[id].entity.(updatedAt := now), Some(now))])
  {
    var id := store[i].id;
    assert store[i] in store;
    RemoveDrops(store, i);
    DropSimulates(store, table, i, table[id := Row(table[id].entity.(updatedAt := now), Some(now))]);
  }

  /** The store seen as live rows. */
  function RowsOf(store: Store): seq<Row> {
    seq(|store|, i requires 0 <= i < |store| => Row(store[i], None))
  }

  lemma StoreIsListing(store: Store, table: Table)
    requires Simulates(store, table)
    ensures Listing(Matching(table, IS_LIVE), BY_CREATED_AT, RowsOf(store))
  {
    var live, rows := Matching(table, IS_LIVE), RowsOf(store);
    forall r | r in live
      ensures r in rows
    {
      var id :| id in table && IS_LIVE(table[id]) && table[id] == r;
      assert LiveIn(table, id);
      var i :| 0 <= i < |store| && store[i] == r.entity;
      assert rows[i] == r;
    }
    forall r | r in rows
      ensures r in live
    {
      var i :| 0 <= i < |rows| && rows[i] == r;
      assert store[i] in store;
      assert table[store[i].id] == r;
    }
  }

  /** The store, seen as rows, is the only way the database can list the live rows by creation time. */
  lemma LiveListing(store: Store, table: Table)
    requires Simulates(store, table)
    ensures |Matching(table, IS_LIVE)| == |store|
    ensures forall rows :: Listing(Matching(table, IS_LIVE), BY_CREATED_AT, rows) ==> EntitiesOf(rows) == store
    ensures exists rows :: Listing(Matching(table, IS_LIVE), BY_CREATED_AT, rows)
  {
    hide Matching, Listing;
    var live, rows := Matching(table, IS_LIVE), RowsOf(store);
    StoreIsListing(store, table);
    ListingLength(live, BY_CREATED_AT, rows);
    forall other | Listing(live, BY_CREATED_AT, other)
      ensures EntitiesOf(other) == store
    {
      NoTies(store, live);
      ListingUnique(live, BY_CREATED_AT, rows, other);
    }
  }

  lemma NoTies(store: Store, live: set<Row>)
    requires InCreationOrder(store) && Listing(live, BY_CREATED_AT, RowsOf(store))
    ensures forall x, y :: x in live && y in live && BY_CREATED_AT(x, y) && BY_CREATED_AT(y, x) ==> x == y
  {
  }

  lemma AnswersAgree(store: Store, table: Table, op: Op, answer: Answer)
    requires Simulates(store, table) && Admitted(table, op)
    ensures SqlAnswers(table, op, answer) <==> answer == MemStep(store, op).1
  {
    hide Simulates, Get, Set, Remove;
    match op {
      case Create(_, _, _) =>
      case Update(id, patch, _) =>
        if LiveIn(table, id) {
          var i := PositionOf(store, table, id);
          NullsIgnored(store[i].data, patch);
        } else {
          NotLive(store, table, id);
        }
      case Delete(id, _) =>
        if LiveIn(table, id) { var _ := PositionOf(store, table, id); } else { NotLive(store, table, id); }
      case FindById(id) =>
        if LiveIn(table, id) { var _ := PositionOf(store, table, id); } else { NotLive(store, table, id); }
      case FindAll => LiveListing(store, table);
      case Count => LiveListing(store, table);
    }
  }

  /** Permanent removal is the Map's delete on a live row and invisible on one already deleted. */
  lemma HardDeleteSimulates(store: Store, table: Table, id: string)
    requires Simulates(store, table)
    ensures Simulates(Remove(store, id), HardDeleted(table, id))
  {
    hide UniqueIds, InCreationOrder, Get, Remove;
    if LiveIn(table, id) {
      var i := PositionOf(store, table, id);
      RemoveDrops(store, i);
      DropSimulates(store, table, i, HardDeleted(table, id));
    } else {
      NotLive(store, table, id);
    }
  }

  // ---------- restoring ----------

  /** The Map with a bin for what was deleted: the reference for restoring. */
  datatype Reference = Reference(live: Store, bin: map<string, Entity>)

  /** A restored entity goes back to its place by creation time. */
  function PutBack(store: Store, e: Entity): Store {
    if store == [] || e.createdAt < store[0].createdAt then [e] + store else [store[0]] + PutBack(store[1..], e)
  }

  function RefStep(r: Reference, c: Command): (Reference, Answer) {
    match c
    case Do(op) =>
      var (live, answer) := MemStep(r.live, op);
      var gone := if op.Delete? then Get(r.live, op.id) else None;
      (Reference(live, if gone.Some? then r.bin[op.id := gone.value] else r.bin), answer)
    case Restore(id, now) =>
      (match Get(r.live, id)
       case Some(e) =>
         var stamped := e.(updatedAt := now);
         (r.(live := Set(r.live, stamped)), Found(Some(stamped)))
       case None =>
         if id in r.bin then
           var stamped := r.bin[id].(updatedAt := now);
           (Reference(PutBack(r.live, stamped), r.bin - {id}), Found(Some(stamped)))
         else (r, Failed(Unknown)))
    case HardDelete(id) =>
      (Reference(Remove(r.live, id), r.bin - {id}), Done(Get(r.live, id).Some? || id in r.bin))
  }

  ghost predicate TimesDiffer(table: Table) {
    forall j, k :: j in table && k in table && j != k ==> table[j].entity.createdAt != table[k].entity.createdAt
  }

  /** The bin holds exactly the deleted rows, up to their time of update. */
  ghost predicate Binned(bin: map<string, Entity>, table: Table) {
    && (forall id :: id in bin <==> id in table && !LiveIn(table, id))
    && (forall id :: id in bin ==> bin[id].(updatedAt := table[id].entity.updatedAt) == table[id].entity)
  }

  ghost predicate InStep(r: Reference, table: Table) {
    Simulates(r.live, table) && TimesDiffer(table) && Binned(r.bin, table)
  }

  ghost predicate AdmittedCommand(table: Table, c: Command) {
    c.Do? ==> Admitted(table, c.op)
  }

  lemma {:induction false} PutBackPlaces(store: Store, e: Entity)
    requires UniqueIds(store) && InCreationOrder(store)
    requires forall x :: x in store ==> x.id != e.id && x.createdAt != e.createdAt
    ensures UniqueIds(PutBack(store, e)) && InCreationOrder(PutBack(store, e))
    ensures forall x :: x in PutBack(store, e) <==> x in store || x == e
  {
    if store != [] && store[0].createdAt < e.createdAt {
      var rest := store[1..];
      assert forall x :: x in store <==> x == store[0] || x in rest;
      PutBackPlaces(rest, e);
      var out := PutBack(rest, e);
      assert forall x :: x in out ==> x.id != store[0].id && store[0].createdAt < x.createdAt;
      ConsOrdered(store[0], out);
    } else {
      assert store != [] ==> e.createdAt < store[0].createdAt;
      ConsOrdered(e, store);
    }
  }

  lemma ConsOrdered(e: Entity, store: Store)
    requires UniqueIds(store) && InCreationOrder(store)
    requires forall x :: x in store ==> x.id != e.id && e.createdAt < x.createdAt
    ensures UniqueIds([e] + store) && InCreationOrder([e] + store)
  {
  }

  lemma PutBackSimulates(store: Store, table: Table, e: Entity)
    requires Simulates(store, table) && TimesDiffer(table) && e.id in table && !LiveIn(table, e.id)
    requires e.createdAt == table[e.id].entity.createdAt
    ensures Simulates(PutBack(store, e), table[e.id := Row(e, None)])
  {
    hide PutBack, UniqueIds, InCreationOrder;
    forall x | x in store
      ensures x.id != e.id && x.createdAt != e.createdAt
    {
      assert x.id in table && table[x.id] == Row(x, None);
    }
    PutBackPlaces(store, e);
    var table' := table[e.id := Row(e, None)];
    forall id | LiveIn(table', id)
      ensures table'[id].entity in PutBack(store, e)
    {
      assert id != e.id ==> LiveIn(table, id);
    }
  }

  /** Making a row live again, whether it was deleted or not. */
  lemma BinShrinks(bin: map<string, Entity>, table: Table, id: string, now: int)
    requires Binned(bin, table) && TimesDiffer(table)
    ensures Binned(bin - {id}, Restored(table, id, now)) && TimesDiffer(Restored(table, id, now))
    ensures LiveIn(table, id) ==> bin - {id} == bin
  {
  }

  lemma RestoreInStep(r: Reference, table: Table, id: string, now: int)
    requires InStep(r, table)
    ensures InStep(RefStep(r, Restore(id, now)).0, Restored(table, id, now))
    ensures SqlReplies(table, Restore(id, now), RefStep(r, Restore(id, now)).1)
  {
    hide Simulates, TimesDiffer, Binned, Get, Set, PutBack;
    BinShrinks(r.bin, table, id, now);
    SimulatesKeyed(r.live, table);
    if LiveIn(table, id) {
      var i := PositionOf(r.live, table, id);
      UpdateInPlace(r.live, table, i, r.live[i].(updatedAt := now));
    } else {
      NotLive(r.live, table, id);
      BinnedIff(r.bin, table, id);
      if id in table {
        PutBackSimulates(r.live, table, r.bin[id].(updatedAt := now));
      }
    }
  }

  lemma BinnedIff(bin: map<string, Entity>, table: Table, id: string)
    requires Binned(bin, table)
    ensures id in bin <==> id in table && !LiveIn(table, id)
    ensures id in bin ==> bin[id].(updatedAt := table[id].entity.updatedAt) == table[id].entity
  {
  }

  lemma SimulatesKeyed(store: Store, table: Table)
    requires Simulates(store, table)
    ensures Keyed(table)
  {
  }

  lemma HardDeleteInStep(r: Reference, table: Table, id: string)
    requires InStep(r, table)
    ensures InStep(RefStep(r, HardDelete(id)).0, HardDeleted(table, id))
    ensures SqlReplies(table, HardDelete(id), RefStep(r, HardDelete(id)).1)
  {
    hide Simulates, Get, Remove;
    HardDeleteSimulates(r.live, table, id);
    if LiveIn(table, id) {
      var _ := PositionOf(r.live, table, id);
    } else {
      NotLive(r.live, table, id);
    }
  }

  lemma TimesAfter(table: Table, op: Op)
    requires TimesDiffer(table) && Admitted(table, op)
    ensures TimesDiffer(SqlNext(table, op))
  {
  }

  /** Operations other than deletion leave the deleted rows as they are. */
  lemma BinKept(bin: map<string, Entity>, table: Table, op: Op)
    requires Binned(bin, table) && !op.Delete?
    ensures Binned(bin, SqlNext(table, op))
  {
  }

  lemma BinGrows(bin: map<string, Entity>, table: Table, id: string, now: int)
    requires Binned(bin, table)
    ensures Binned(if LiveIn(table, id) then bin[id := table[id].entity] else bin, SqlNext(table, Op.Delete(id, now)))
  {
  }

  lemma DoInStep(r: Reference, table: Table, op: Op)
    requires InStep(r, table) && Admitted(table, op)
    ensures InStep(RefStep(r, Do(op)).0, SqlNext(table, op))
  {
    hide Simulates, TimesDiffer, Binned, Admitted, MemStep, SqlNext, Get;
    NextSimulates(r.live, table, op);
    TimesAfter(table, op);
    if op.Delete? {
      BinGrows(r.bin, table, op.id, op.now);
      if LiveIn(table, op.id) {
        var _ := PositionOf(r.live, table, op.id);
      } else {
        NotLive(r.live, table, op.id);
      }
    } else {
      BinKept(r.bin, table, op);
    }
  }

  lemma CommandAgrees(r: Reference, table: Table, c: Command, answer: Answer)
    requires InStep(r, table) && AdmittedCommand(table, c)
    ensures InStep(RefStep(r, c).0, SqlAfter(table, c))
    ensures SqlReplies(table, c, answer) <==> answer == RefStep(r, c).1
  {
    hide Simulates, Binned, TimesDiffer, MemStep, SqlNext, SqlAnswers, Restored, HardDeleted;
    match c {
      case Do(op) =>
        DoInStep(r, table, op);
        AnswersAgree(r.live, table, op, answer);
      case Restore(id, now) => RestoreInStep(r, table, id, now);
      case HardDelete(id) => HardDeleteInStep(r, table, id);
    }
  }

  // ---------- whole runs ----------

  function RefRun(r: Reference, commands: seq<Command>): seq<Answer>
    decreases |commands|
  {
    if commands == [] then []
    else [RefStep(r, commands[0]).1] + RefRun(RefStep(r, commands[0]).0, commands[1..])
  }

  ghost predicate SqlRun(table: Table, commands: seq<Command>, answers: seq<Answer>)
    decreases |commands|
  {
    |answers| == |commands|
    && (commands != [] ==>
          && SqlReplies(table, commands[0], answers[0])
          && SqlRun(SqlAfter(table, commands[0]), commands[1..], answers[1..]))
  }

  /** Along the run on the table, identifiers are fresh and creation times increase. */
  ghost predicate FreshRun(table: Table, commands: seq<Command>)
    decreases |commands|
  {
    commands != [] ==>
      && (commands[0].Do? ==> FreshlyMade(table, commands[0].op))
      && FreshRun(SqlAfter(table, commands[0]), commands[1..])
  }

  /** Along the run on the table, no patch of a live row holds a null that would change it. */
  ghost predicate NullsIdle(table: Table, commands: seq<Command>)
    decreases |commands|
  {
    commands != [] ==>
      && (commands[0].Do? ==> NullsChangeNothing(table, commands[0].op))
      && NullsIdle(SqlAfter(table, commands[0]), commands[1..])
  }

  /**
    Any run of operations, restores and permanent removals gets exactly the reference's answers from
    the soft-deleting repository, however many operations lie between a delete and its restore.
   */
  lemma {:induction false} SameAnswers(r: Reference, table: Table, commands: seq<Command>, answers: seq<Answer>)
    requires InStep(r, table) && FreshRun(table, commands) && NullsIdle(table, commands)
    ensures SqlRun(table, commands, answers) <==> answers == RefRun(r, commands)
    decreases |commands|
  {
    hide InStep, SqlReplies, FreshlyMade, NullsChangeNothing, RefStep, SqlAfter;
    if commands != [] && answers != [] {
      CommandAgrees(r, table, commands[0], answers[0]);
      SameAnswers(RefStep(r, commands[0]).0, SqlAfter(table, commands[0]), commands[1..], answers[1..]);
      assert answers == [answers[0]] + answers[1..];
    }
  }

  /** A patch whose nulls would change the row is answered differently. */
  lemma NullsAreNoticed(r: Reference, table: Table, op: Op)
    requires InStep(r, table) && !NullsChangeNothing(table, op)
    ensures !SqlReplies(table, Do(op), RefStep(r, Do(op)).1)
  {
    hide Simulates, MemStep, SqlAnswers;
    UpdateAgreesIff(r.live, table, op.id, op.patch, op.now);
  }

  /** The reference's answers are the table's exactly when no patch of the run holds a null that changes its row. */
  lemma {:induction false} SameAnswersIff(r: Reference, table: Table, commands: seq<Command>)
    requires InStep(r, table) && FreshRun(table, commands)
    ensures SqlRun(table, commands, RefRun(r, commands)) <==> NullsIdle(table, commands)
    decreases |commands|
  {
    hide InStep, SqlReplies, FreshlyMade, NullsChangeNothing, RefStep, SqlAfter;
    if commands != [] {
      var c := commands[0];
      var (next, answer) := RefStep(r, c);
      if c.Do? && !NullsChangeNothing(table, c.op) {
        NullsAreNoticed(r, table, c.op);
      } else {
        CommandAgrees(r, table, c, answer);
        SameAnswersIff(next, SqlAfter(table, c), commands[1..]);
        assert RefRun(r, commands)[1..] == RefRun(next, commands[1..]);
      }
    }
  }

  function MemRun(store: Store, ops: seq<Op>): seq<Answer>
    decreases |ops|
  {
    if ops == [] then []
    else [MemStep(store, ops[0]).1] + MemRun(MemStep(store, ops[0]).0, ops[1..])
  }

  function Commands(ops: seq<Op>): seq<Command> {
    seq(|ops|, i requires 0 <= i < |ops| => Do(ops[i]))
  }

  /** On the contract's own operations the reference is the in-memory repository, whatever its bin holds. */
  lemma {:induction false} ReferenceIsMap(r: Reference, ops: seq<Op>)
    ensures RefRun(r, Commands(ops)) == MemRun(r.live, ops)
    decreases |ops|
  {
    hide MemStep;
    if ops != [] {
      assert Commands(ops)[1..] == Commands(ops[1..]);
      ReferenceIsMap(RefStep(r, Do(ops[0])).0, ops[1..]);
    }
  }

  /** Both repositories start out empty and in step. */
  lemma EmptyInStep()
    ensures InStep(Reference([], map[]), map[])
  {
  }

  /** Deleting and then restoring a row gives back the live view, the row at its old position, only stamped anew. */
  lemma RestoreUndoesDelete(store: Store, table: Table, i: nat, deleted: int, restored: int)
    requires Simulates(store, table) && i < |store|
    ensures var id := store[i].id;
            var gone := SqlNext(table, Op.Delete(id, deleted));
            && SqlAnswers(gone, Op.FindById(id), Found(None))
            && Simulates(store[i := store[i].(updatedAt := restored)], Restored(gone, id, restored))
  {
    var id := store[i].id;
    assert store[i] in store;
    var gone := SqlNext(table, Op.Delete(id, deleted));
    var e := store[i].(updatedAt := restored);
    ReplaceSimulates(store, table, i, e);
    assert Restored(gone, id, restored) == table[id := Row(e, None)];
  }

  /**
    A patch that holds null is where the two differ: the Map stores it, the table ignores it. They
    agree on an update exactly when every null in the patch falls on a field that is null already.
   */
  lemma UpdateAgreesIff(store: Store, table: Table, id: string, patch: map<string, Value>, now: int)
    requires Simulates(store, table) && LiveIn(table, id)
    ensures var e, op := table[id].entity, Op.Update(id, patch, now);
            SqlAnswers(table, op, MemStep(store, op).1)
            <==> forall f :: f in patch && patch[f] == Null ==> f in e.data && e.data[f] == Null
  {
    var i := PositionOf(store, table, id);
    var e := table[id].entity;
    hide NonNull;
    NullsIgnored(e.data, patch);
  }
}
