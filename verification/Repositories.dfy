/**
  The two implementations of the repository contract: the in-memory `Map` and the
  soft-deleting table, with their operations as functions on values.

  Identifiers and clock readings are parameters of the operations that take them.
 */
module RepositoryModel {
  import opened Numbers
  import opened Wrappers
  import opened Ordering

  /** `Null` stands for a field given as null or undefined. */
  datatype Value = Null | Text(text: string) | Num(n: int)

  datatype Entity = Entity(id: string, createdAt: int, updatedAt: int, data: map<string, Value>)

  datatype Op =
    | Create(id: string, data: map<string, Value>, now: int)
    | Update(id: string, patch: map<string, Value>, now: int)
    | Delete(id: string, now: int)
    | FindById(id: string)
    | FindAll
    | Count

  /** The contract's operations, and the two only the soft-deleting repository has. */
  datatype Command = Do(op: Op) | Restore(id: string, now: int) | HardDelete(id: string)

  datatype ErrorCode = Duplicate | Unknown

  datatype Answer =
    | Found(entity: Option<Entity>)
    | All(entities: seq<Entity>)
    | Done(ok: bool)
    | Total(n: nat)
    | Failed(code: ErrorCode)

  // ---------- the in-memory Map, in insertion order ----------

  type Store = seq<Entity>

  ghost predicate UniqueIds(store: Store) {
    forall i, j :: 0 <= i < j < |store| ==> store[i].id != store[j].id
  }

  function Get(store: Store, id: string): Option<Entity> {
    if store == [] then None
    else if store[0].id == id then Some(store[0])
    else Get(store[1..], id)
  }

  /** `Map.set`: an existing key keeps its place, a new one goes last. */
  function Set(store: Store, e: Entity): Store {
    if store == [] then [e]
    else if store[0].id == e.id then [e] + store[1..]
    else [store[0]] + Set(store[1..], e)
  }

  function Remove(store: Store, id: string): Store {
    if store == [] then []
    else if store[0].id == id then store[1..]
    else [store[0]] + Remove(store[1..], id)
  }

  function MemUpdated(e: Entity, patch: map<string, Value>, now: int): Entity {
    e.(data := e.data + patch, updatedAt := now)
  }

  function MemStep(store: Store, op: Op): (Store, Answer) {
    match op
    case Create(id, data, now) =>
      var e := Entity(id, now, now, data);
      (Set(store, e), Found(Some(e)))
    case Update(id, patch, now) =>
      (match Get(store, id)
       case None => (store, Found(None))
       case Some(e) => (Set(store, MemUpdated(e, patch, now)), Found(Some(MemUpdated(e, patch, now)))))
    case Delete(id, _) => (Remove(store, id), Done(Get(store, id).Some?))
    case FindById(id) => (store, Found(Get(store, id)))
    case FindAll => (store, All(store))
    case Count => (store, Total(|store|))
  }

  // ---------- the table with soft deletion ----------

  datatype Row = Row(entity: Entity, deletedAt: Option<int>)

  /** Rows by primary key; a table has no order of its own. */
  type Table = map<string, Row>

  ghost predicate Keyed(table: Table) {
    forall id :: id in table ==> table[id].entity.id == id
  }

  predicate LiveIn(table: Table, id: string) {
    id in table && table[id].deletedAt.None?
  }

  const IS_LIVE := (r: Row) => r.deletedAt.None?

  function Matching(table: Table, keep: Row -> bool): set<Row> {
    set id | id in table && keep(table[id]) :: table[id]
  }

  const BY_CREATED_AT := (a: Row, b: Row) => a.entity.createdAt <= b.entity.createdAt

  function EntitiesOf(rows: seq<Row>): seq<Entity> {
    seq(|rows|, i requires 0 <= i < |rows| => rows[i].entity)
  }

  /** Null and undefined patch values are dropped before they reach the database. */
  function NonNull(patch: map<string, Value>): map<string, Value> {
    map f | f in patch && patch[f] != Null :: patch[f]
  }

  function SqlUpdated(e: Entity, patch: map<string, Value>, now: int): Entity {
    e.(data := e.data + NonNull(patch), updatedAt := now)
  }

  /** An update sets each field the patch gives, and the time; the table's ignores fields given as null. */
  lemma UpdatedFields(e: Entity, patch: map<string, Value>, now: int, f: string)
    ensures var mem, sql := MemUpdated(e, patch, now), SqlUpdated(e, patch, now);
            && mem.id == sql.id == e.id && mem.createdAt == sql.createdAt == e.createdAt
            && mem.updatedAt == sql.updatedAt == now
            && (f in patch ==> f in mem.data && mem.data[f] == patch[f])
            && (f in patch && patch[f] != Null ==> f in sql.data && sql.data[f] == patch[f])
            && (f !in patch ==> (f in mem.data <==> f in e.data) && (f in e.data ==> mem.data[f] == e.data[f]))
            && (f !in patch || patch[f] == Null ==>
                  (f in sql.data <==> f in e.data) && (f in e.data ==> sql.data[f] == e.data[f]))
  {
  }

  function SqlNext(table: Table, op: Op): Table {
    match op
    case Create(id, data, now) =>
      if id in table then table else table[id := Row(Entity(id, now, now, data), None)]
    case Update(id, patch, now) =>
      if LiveIn(table, id) then table[id := table[id].(entity := SqlUpdated(table[id].entity, patch, now))] else table
    case Delete(id, now) =>
      if LiveIn(table, id) then table[id := Row(table[id].entity.(updatedAt := now), Some(now))] else table
    case _ => table
  }

  /** `answer` is one the database may give: rows whose sort keys tie may come in any order. */
  ghost predicate SqlAnswers(table: Table, op: Op, answer: Answer) {
    match op
    case Create(id, data, now) =>
      answer == if id in table then Failed(Duplicate) else Found(Some(Entity(id, now, now, data)))
    case Update(id, patch, now) =>
      answer == Found(if LiveIn(table, id) then Some(SqlUpdated(table[id].entity, patch, now)) else None)
    case Delete(id, _) => answer == Done(LiveIn(table, id))
    case FindById(id) => answer == Found(if LiveIn(table, id) then Some(table[id].entity) else None)
    case FindAll =>
      exists rows :: Listing(Matching(table, IS_LIVE), BY_CREATED_AT, rows) && answer == All(EntitiesOf(rows))
    case Count => answer == Total(|Matching(table, IS_LIVE)|)
  }

  function Restored(table: Table, id: string, now: int): Table {
    if id in table then table[id := Row(table[id].entity.(updatedAt := now), None)] else table
  }

  function HardDeleted(table: Table, id: string): Table {
    table - {id}
  }

  function SqlAfter(table: Table, c: Command): Table {
    match c
    case Do(op) => SqlNext(table, op)
    case Restore(id, now) => Restored(table, id, now)
    case HardDelete(id) => HardDeleted(table, id)
  }

  ghost predicate SqlReplies(table: Table, c: Command, answer: Answer) {
    match c
    case Do(op) => SqlAnswers(table, op, answer)
    case Restore(id, now) =>
      answer == if id in table then Found(Some(table[id].entity.(updatedAt := now))) else Failed(Unknown)
    case HardDelete(id) => answer == Done(id in table)
  }

  // ---------- paginated queries ----------

  const DEFAULT_PAGE_SIZE := 20
  const MAX_PAGE_SIZE := 100

  /** `rank` orders the values of the sort field. */
  datatype SortBy = SortBy(rank: Entity -> int, descending: bool)

  /** A filter value; an undefined one is no condition at all. */
  datatype Filter = Undefined | Is(value: Value)

  datatype QueryOptions = QueryOptions(
    page: Option<int>, pageSize: Option<int>, where: map<string, Filter>, sort: Option<SortBy>, includeDeleted: bool)

  datatype Page = Page(
    items: seq<Entity>, total: nat, page: int, pageSize: int, totalPages: int, hasNext: bool, hasPrevious: bool)

  function PageNumber(q: QueryOptions): (page: nat)
    ensures page >= 1
  {
    MaxInt(1, if q.page.Some? then q.page.value else 1)
  }

  function PageSize(q: QueryOptions): (size: nat)
    ensures 1 <= size <= MAX_PAGE_SIZE
  {
    MinInt(MaxInt(1, if q.pageSize.Some? then q.pageSize.value else DEFAULT_PAGE_SIZE), MAX_PAGE_SIZE)
  }

  /** The caller's equality filter; the soft-delete condition is spread over it last. */
  function Keep(where: map<string, Filter>, includeDeleted: bool): Row -> bool {
    (r: Row) =>
      && (forall f <- where :: where[f].Is? ==> f in r.entity.data && r.entity.data[f] == where[f].value)
      && (includeDeleted || r.deletedAt.None?)
  }

  /** The rows a query ranges over. */
  function Members(table: Table, q: QueryOptions): set<Row> {
    Matching(table, Keep(q.where, q.includeDeleted))
  }

  function OrderOf(sort: Option<SortBy>): (Row, Row) -> bool {
    match sort
    case None => (a: Row, b: Row) => b.entity.createdAt <= a.entity.createdAt
    case Some(SortBy(rank, true)) => (a: Row, b: Row) => rank(b.entity) <= rank(a.entity)
    case Some(SortBy(rank, false)) => (a: Row, b: Row) => rank(a.entity) <= rank(b.entity)
  }

  lemma OrderIsTotal(sort: Option<SortBy>)
    ensures TotalPreorder(OrderOf(sort))
  {
  }

  /** `skip` and `take` of a query. */
  function Window<T>(rows: seq<T>, skip: nat, take: Option<nat>): seq<T> {
    if skip >= |rows| then []
    else if take.None? || skip + take.value >= |rows| then rows[skip..]
    else rows[skip..skip + take.value]
  }

  function TotalPages(total: nat, size: nat): (pages: nat)
    requires size > 0
    ensures pages >= 1
  {
    MaxInt(1, (total + size - 1) / size)
  }

  /** The page cut from one listing of the matching rows. */
  function PageOf(q: QueryOptions, all: seq<Row>): Page {
    var page, size := PageNumber(q), PageSize(q);
    var pages := TotalPages(|all|, size);
    Page(EntitiesOf(Window(all, (page - 1) * size, Some(size))), |all|, page, size, pages, page < pages, page > 1)
  }

  /** `result` is one the database may give for `q`. */
  ghost predicate PageAnswer(table: Table, q: QueryOptions, result: Page) {
    exists all :: Listing(Members(table, q), OrderOf(q.sort), all) && result == PageOf(q, all)
  }
}

/** The classes behind the contract, each method tied to the model's step. */
module Repositories {
  import opened Wrappers
  import opened Ordering
  import opened RepositoryModel

  class MemoryRepository {
    var store: Store

    constructor (seed: seq<Entity>)
      ensures Seeded(seed, store)
    {
      store := [];
      new;
      hide UniqueIds, Ids, FirstSeen, LastItem, Set;
      SeededEmpty();
      for i := 0 to |seed|
        invariant Seeded(seed[..i], store)
      {
        OneMoreSeed(seed[..i], seed[i], store);
        assert seed[..i + 1] == seed[..i] + [seed[i]];
        store := Set(store, seed[i]);
      }
      assert seed[..|seed|] == seed;
    }

    method FindAll() returns (entities: seq<Entity>)
      ensures All(entities) == MemStep(store, Op.FindAll).1
    {
      entities := store;
    }

    method FindById(id: string) returns (entity: Option<Entity>)
      ensures Found(entity) == MemStep(store, Op.FindById(id)).1
    {
      entity := Get(store, id);
    }

    method Create(id: string, data: map<string, Value>, now: int) returns (entity: Entity)
      modifies this
      ensures (store, Found(Some(entity))) == MemStep(old(store), Op.Create(id, data, now))
    {
      entity := Entity(id, now, now, data);
      store := Set(store, entity);
    }

    method Update(id: string, patch: map<string, Value>, now: int) returns (entity: Option<Entity>)
      modifies this
      ensures (store, Found(entity)) == MemStep(old(store), Op.Update(id, patch, now))
    {
      var existing := Get(store, id);
      if existing.None? {
        return None;
      }
      var updated := Entity(existing.value.id, existing.value.createdAt, now, existing.value.data + patch);
      store := Set(store, updated);
      return Some(updated);
    }

    method Delete(id: string, now: int) returns (ok: bool)
      modifies this
      ensures (store, Done(ok)) == MemStep(old(store), Op.Delete(id, now))
    {
      ok := Get(store, id).Some?;
      store := Remove(store, id);
    }

    method Count() returns (n: nat)
      ensures Total(n) == MemStep(store, Op.Count).1
    {
      n := |store|;
    }
  }

  function Ids(store: Store): seq<string> {
    seq(|store|, i requires 0 <= i < |store| => store[i].id)
  }

  /** The identifiers of a seed in the order they first appear. */
  function FirstSeen(seed: seq<Entity>): seq<string> {
    if seed == [] then []
    else
      var before, id := FirstSeen(seed[..|seed| - 1]), seed[|seed| - 1].id;
      if id in before then before else before + [id]
  }

  /** The last item of a seed with an identifier. */
  function LastItem(seed: seq<Entity>, id: string): (e: Option<Entity>)
    ensures e.Some? ==> e.value in seed && e.value.id == id
  {
    if seed == [] then None
    else if seed[|seed| - 1].id == id then Some(seed[|seed| - 1])
    else LastItem(seed[..|seed| - 1], id)
  }

  /** The store holds the last item of each identifier of the seed, in the order the identifiers first appear. */
  ghost predicate Seeded(seed: seq<Entity>, store: Store) {
    && UniqueIds(store) && Ids(store) == FirstSeen(seed)
    && forall e :: e in store <==> LastItem(seed, e.id) == Some(e)
  }

  lemma SeededEmpty()
    ensures Seeded([], [])
  {
  }

  lemma OneMoreSeed(seed: seq<Entity>, e: Entity, store: Store)
    requires Seeded(seed, store)
    ensures Seeded(seed + [e], Set(store, e))
  {
    hide UniqueIds, Ids, Set, LastItem;
    SetKeepsUnique(store, e);
    SetKeepsPlace(store, e);
    LastWins(seed, e, store);
    assert (seed + [e])[..|seed|] == seed;
  }

  lemma {:induction false} SetKeepsPlace(store: Store, e: Entity)
    ensures Ids(Set(store, e)) == if e.id in Ids(store) then Ids(store) else Ids(store) + [e.id]
  {
    if store != [] {
      assert Ids(store) == [store[0].id] + Ids(store[1..]);
      if store[0].id != e.id {
        SetKeepsPlace(store[1..], e);
        assert Ids(Set(store, e)) == [store[0].id] + Ids(Set(store[1..], e));
      } else {
        assert Ids([e] + store[1..]) == Ids(store);
      }
    }
  }

  /** One more seed item takes over from the one it shares its identifier with. */
  lemma LastWins(seed: seq<Entity>, e: Entity, store: Store)
    requires UniqueIds(store) && forall x :: x in store <==> LastItem(seed, x.id) == Some(x)
    ensures forall x :: x in Set(store, e) <==> LastItem(seed + [e], x.id) == Some(x)
  {
    hide UniqueIds, Set;
    SetContents(store, e);
    assert (seed + [e])[..|seed|] == seed;
  }

  lemma {:induction false} SetContents(store: Store, e: Entity)
    requires UniqueIds(store)
    ensures forall x :: x in Set(store, e) <==> x == e || (x in store && x.id != e.id)
    ensures (forall x :: x in store ==> x.id != e.id) ==> Set(store, e) == store + [e]
  {
    if store != [] {
      assert forall x :: x in store <==> x == store[0] || x in store[1..];
      if store[0].id != e.id {
        SetContents(store[1..], e);
      } else {
        assert forall x :: x in store[1..] ==> x.id != e.id;
      }
    }
  }

  lemma {:induction false} SetKeepsUnique(store: Store, e: Entity)
    requires UniqueIds(store)
    ensures UniqueIds(Set(store, e))
    ensures forall x :: x in Set(store, e) <==> x == e || (x in store && x.id != e.id)
    ensures (forall x :: x in store ==> x.id != e.id) ==> Set(store, e) == store + [e]
  {
    SetContents(store, e);
    if store != [] {
      var rest := store[1..];
      assert UniqueIds(rest) && forall x :: x in rest ==> x.id != store[0].id;
      hide UniqueIds;
      if store[0].id == e.id {
        ConsUnique(e, rest);
      } else {
        SetKeepsUnique(rest, e);
        ConsUnique(store[0], Set(rest, e));
      }
    }
  }

  lemma ConsUnique(e: Entity, store: Store)
    requires UniqueIds(store) && forall x :: x in store ==> x.id != e.id
    ensures UniqueIds([e] + store)
  {
  }

  /** The Prisma-backed repository over one model delegate, whose rows are `table`. */
  class PrismaRepository {
    var table: Table

    constructor ()
      ensures table == map[]
    {
      table := map[];
    }

    /** `delegate.findMany`: the matching rows in the requested order, then the window. */
    method FindMany(keep: Row -> bool, order: (Row, Row) -> bool, skip: nat, take: Option<nat>)
      returns (rows: seq<Row>)
      requires TotalPreorder(order)
      ensures exists all :: Listing(Matching(table, keep), order, all) && rows == Window(all, skip, take)
    {
      var all := ListMembers(Matching(table, keep), order);
      rows := Window(all, skip, take);
    }

    method FindAll() returns (entities: seq<Entity>)
      ensures SqlAnswers(table, Op.FindAll, All(entities))
    {
      var rows := FindMany(IS_LIVE, BY_CREATED_AT, 0, None);
      entities := EntitiesOf(rows);
    }

    method FindById(id: string) returns (entity: Option<Entity>)
      ensures SqlAnswers(table, Op.FindById(id), Found(entity))
    {
      entity := if LiveIn(table, id) then Some(table[id].entity) else None;
    }

    method Create(id: string, data: map<string, Value>, now: int) returns (r: Result<Entity, ErrorCode>)
      modifies this
      ensures table == SqlNext(old(table), Op.Create(id, data, now))
      ensures SqlAnswers(old(table), Op.Create(id, data, now),
                         if r.Success? then Found(Some(r.value)) else Failed(r.error))
    {
      if id in table {
        return Failure(Duplicate);
      }
      var entity := Entity(id, now, now, data);
      table := table[id := Row(entity, None)];
      return Success(entity);
    }

    method Update(id: string, patch: map<string, Value>, now: int) returns (entity: Option<Entity>)
      modifies this
      ensures table == SqlNext(old(table), Op.Update(id, patch, now))
      ensures SqlAnswers(old(table), Op.Update(id, patch, now), Found(entity))
    {
      var existing := FindById(id);
      if existing.None? {
        return None;
      }
      var updated := SqlUpdated(table[id].entity, patch, now);
      table := table[id := table[id].(entity := updated)];
      return Some(updated);
    }

    method Delete(id: string, now: int) returns (ok: bool)
      modifies this
      ensures table == SqlNext(old(table), Op.Delete(id, now))
      ensures SqlAnswers(old(table), Op.Delete(id, now), Done(ok))
    {
      var existing := FindById(id);
      if existing.None? {
        return false;
      }
      table := table[id := Row(table[id].entity.(updatedAt := now), Some(now))];
      return true;
    }

    method HardDelete(id: string) returns (ok: bool)
      modifies this
      ensures table == SqlAfter(old(table), Command.HardDelete(id))
      ensures SqlReplies(old(table), Command.HardDelete(id), Done(ok))
    {
      ok := id in table;
      table := table - {id};
    }

    method Restore(id: string, now: int) returns (r: Result<Entity, ErrorCode>)
      modifies this
      ensures table == SqlAfter(old(table), Command.Restore(id, now))
      ensures SqlReplies(old(table), Command.Restore(id, now),
                         if r.Success? then Found(Some(r.value)) else Failed(r.error))
    {
      if id !in table {
        return Failure(Unknown);
      }
      table := table[id := Row(table[id].entity.(updatedAt := now), None)];
      return Success(table[id].entity);
    }

    method Count() returns (n: nat)
      ensures SqlAnswers(table, Op.Count, Total(n))
    {
      n := |Matching(table, IS_LIVE)|;
    }

    method Query(q: QueryOptions) returns (result: Page)
      ensures PageAnswer(table, q, result)
    {
      hide Listing, Keep, OrderOf, Matching, Window, TotalPages, PageNumber, PageSize;
      var page, pageSize := PageNumber(q), PageSize(q);
      OrderIsTotal(q.sort);
      var keep, orderBy := Keep(q.where, q.includeDeleted), OrderOf(q.sort);
      var skip := (page - 1) * pageSize;
      var rows := FindMany(keep, orderBy, skip, Some(pageSize));
      ghost var all :| Listing(Matching(table, keep), orderBy, all) && rows == Window(all, skip, Some(pageSize));
      var total := |Matching(table, keep)|;
      ListingLength(Matching(table, keep), orderBy, all);
      var totalPages := TotalPages(total, pageSize);
      result := Page(EntitiesOf(rows), total, page, pageSize, totalPages, page < totalPages, page > 1);
      assert Listing(Members(table, q), orderBy, all) && result == PageOf(q, all);
    }
  }
}
