/**
  `searchSimilar`: a parameter record is compiled into a parameterised query over chunks, joined
  with their knowledge rows when scopes are given, and the database runs it.

  Conditions are kept as trees instead of text; columns may be NULL and conditions may be unknown.
 */
module VectorQuery {
  import opened Wrappers
  import opened Ordering

  type Embedding = seq<real>

  datatype Chunk = Chunk(
    id: string, knowledgeId: string, userId: string, content: string, chunkIndex: int,
    embedding: Option<Embedding>, deletedAt: Option<int>)

  datatype Knowledge = Knowledge(
    id: string, userId: string, scope: string, visibility: string, lifecycleStatus: Option<string>,
    supersededById: Option<string>, expiresAt: Option<int>, deletedAt: Option<int>)

  /** A row of the FROM clause; `k` is only read by the joined query. */
  datatype Joined = Joined(c: Chunk, k: Option<Knowledge>)

  datatype ChunkColumn = ChunkDeletedAt | ChunkEmbedding | ChunkKnowledgeId | ChunkUserId

  datatype KnowledgeColumn =
    | KnowDeletedAt | KnowSupersededById | KnowExpiresAt | KnowScope | KnowVisibility | KnowLifecycle | KnowUserId

  datatype Column = Kc(chunk: ChunkColumn) | K(knowledge: KnowledgeColumn)

  datatype Datum = Null | Text(s: string) | Time(t: int) | Vector(v: Embedding)

  /** A bound argument: one value, or an array of texts. */
  datatype Arg = One(d: Datum) | Many(texts: seq<string>)

  datatype Term = Col(c: Column) | Placeholder(n: nat) | Literal(s: string) | Now

  datatype Cond =
    | IsNull(c: Column)
    | IsNotNull(c: Column)
    | Equals(a: Term, b: Term)
    | After(a: Term, b: Term)
    | AnyOf(c: Column, n: nat)
    | And(l: Cond, r: Cond)
    | Or(l: Cond, r: Cond)

  /** SELECT … FROM chunks [JOIN knowledge] WHERE … ORDER BY distance to `$1` LIMIT … */
  datatype Query = Query(joined: bool, where: seq<Cond>, limit: nat)

  datatype Compiled = Compiled(query: Query, args: seq<Arg>)

  // ---------- three-valued evaluation ----------

  datatype Truth = True | False | Unknown

  function TruthOf(b: bool): Truth {
    if b then True else False
  }

  function AndT(a: Truth, b: Truth): Truth {
    if a.False? || b.False? then False else if a.True? && b.True? then True else Unknown
  }

  function OrT(a: Truth, b: Truth): Truth {
    if a.True? || b.True? then True else if a.False? && b.False? then False else Unknown
  }

  /** False, unknown, true: conjunction takes the lower, disjunction the higher. */
  function Rank(a: Truth): int {
    match a case False => 0 case Unknown => 1 case True => 2
  }

  lemma TruthsByRank(a: Truth, b: Truth)
    ensures Rank(AndT(a, b)) == (if Rank(a) <= Rank(b) then Rank(a) else Rank(b))
    ensures Rank(OrT(a, b)) == (if Rank(a) <= Rank(b) then Rank(b) else Rank(a))
  {
  }

  function OptText(o: Option<string>): Datum {
    match o case None => Null case Some(s) => Text(s)
  }

  function OptTime(o: Option<int>): Datum {
    match o case None => Null case Some(t) => Time(t)
  }

  function ReadChunk(c: Chunk, column: ChunkColumn): Datum {
    match column
    case ChunkDeletedAt => OptTime(c.deletedAt)
    case ChunkEmbedding => if c.embedding.None? then Null else Vector(c.embedding.value)
    case ChunkKnowledgeId => Text(c.knowledgeId)
    case ChunkUserId => Text(c.userId)
  }

  function ReadKnowledge(k: Knowledge, column: KnowledgeColumn): Datum {
    match column
    case KnowDeletedAt => OptTime(k.deletedAt)
    case KnowSupersededById => OptText(k.supersededById)
    case KnowExpiresAt => OptTime(k.expiresAt)
    case KnowScope => Text(k.scope)
    case KnowVisibility => Text(k.visibility)
    case KnowLifecycle => OptText(k.lifecycleStatus)
    case KnowUserId => Text(k.userId)
  }

  function Read(row: Joined, c: Column): Datum {
    match c
    case Kc(column) => ReadChunk(row.c, column)
    case K(column) => if row.k.Some? then ReadKnowledge(row.k.value, column) else Null
  }

  /** A placeholder not bound to a single value has no meaning; it reads as NULL here. */
  function EvalTerm(t: Term, row: Joined, args: seq<Arg>, now: int): Datum {
    match t
    case Col(c) => Read(row, c)
    case Placeholder(n) => if 1 <= n <= |args| && args[n - 1].One? then args[n - 1].d else Null
    case Literal(s) => Text(s)
    case Now => Time(now)
  }

  function Eval(cond: Cond, row: Joined, args: seq<Arg>, now: int): Truth {
    match cond
    case IsNull(c) => TruthOf(Read(row, c).Null?)
    case IsNotNull(c) => TruthOf(!Read(row, c).Null?)
    case Equals(a, b) =>
      var x, y := EvalTerm(a, row, args, now), EvalTerm(b, row, args, now);
      if x.Null? || y.Null? then Unknown else TruthOf(x == y)
    case After(a, b) =>
      var x, y := EvalTerm(a, row, args, now), EvalTerm(b, row, args, now);
      if x.Time? && y.Time? then TruthOf(x.t > y.t) else Unknown
    case AnyOf(c, n) =>
      var x := Read(row, c);
      if x.Null? || !(1 <= n <= |args| && args[n - 1].Many?) then Unknown
      else TruthOf(x.Text? && x.s in args[n - 1].texts)
    case And(l, r) => AndT(Eval(l, row, args, now), Eval(r, row, args, now))
    case Or(l, r) => OrT(Eval(l, row, args, now), Eval(r, row, args, now))
  }

  predicate Holds(cond: Cond, row: Joined, args: seq<Arg>, now: int) {
    Eval(cond, row, args, now) == True
  }

  predicate AllHold(where: seq<Cond>, row: Joined, args: seq<Arg>, now: int) {
    forall cond <- where :: Holds(cond, row, args, now)
  }

  /** The WHERE clause keeps a row only when all its conditions are true; unknown is not enough. */
  predicate Accepts(compiled: Compiled, row: Joined, now: int) {
    AllHold(compiled.query.where, row, compiled.args, now)
  }

  function TermPlaceholders(t: Term): set<nat> {
    if t.Placeholder? then {t.n} else {}
  }

  function Placeholders(cond: Cond): set<nat> {
    match cond
    case IsNull(_) | IsNotNull(_) => {}
    case Equals(a, b) => TermPlaceholders(a) + TermPlaceholders(b)
    case After(a, b) => TermPlaceholders(a) + TermPlaceholders(b)
    case AnyOf(_, n) => {n}
    case And(l, r) => Placeholders(l) + Placeholders(r)
    case Or(l, r) => Placeholders(l) + Placeholders(r)
  }

  /** `$1` is the query vector, used in SELECT and ORDER BY. */
  function UsedPlaceholders(where: seq<Cond>): set<nat> {
    if where == [] then {1} else UsedPlaceholders(where[..|where| - 1]) + Placeholders(where[|where| - 1])
  }

  /** Every bound argument is used by some placeholder, and every placeholder is bound. */
  ghost predicate WellBound(where: seq<Cond>, args: seq<Arg>) {
    forall n: nat :: n in UsedPlaceholders(where) <==> 1 <= n <= |args|
  }

  /** Binding further arguments does not change what a bound condition means. */
  lemma {:induction false} EvalStable(cond: Cond, row: Joined, args: seq<Arg>, more: seq<Arg>, now: int)
    requires forall n <- Placeholders(cond) :: n <= |args|
    ensures Eval(cond, row, args + more, now) == Eval(cond, row, args, now)
  {
    match cond {
      case And(l, r) =>
        assert forall n :: n in Placeholders(l) || n in Placeholders(r) ==> n in Placeholders(cond);
        EvalStable(l, row, args, more, now);
        EvalStable(r, row, args, more, now);
      case Or(l, r) =>
        assert forall n :: n in Placeholders(l) || n in Placeholders(r) ==> n in Placeholders(cond);
        EvalStable(l, row, args, more, now);
        EvalStable(r, row, args, more, now);
      case Equals(a, b) =>
        assert forall n :: n in TermPlaceholders(a) || n in TermPlaceholders(b) ==> n in Placeholders(cond);
        TermStable(a, row, args, more, now);
        TermStable(b, row, args, more, now);
      case After(a, b) =>
        assert forall n :: n in TermPlaceholders(a) || n in TermPlaceholders(b) ==> n in Placeholders(cond);
        TermStable(a, row, args, more, now);
        TermStable(b, row, args, more, now);
      case AnyOf(_, n) =>
        assert n in Placeholders(cond);
      case _ =>
    }
  }

  lemma TermStable(t: Term, row: Joined, args: seq<Arg>, more: seq<Arg>, now: int)
    requires forall n <- TermPlaceholders(t) :: n <= |args|
    ensures EvalTerm(t, row, args + more, now) == EvalTerm(t, row, args, now)
  {
    if t.Placeholder? {
      assert t.n in TermPlaceholders(t);
    }
  }

  lemma {:induction false} PlaceholdersInside(where: seq<Cond>, cond: Cond)
    requires cond in where
    ensures Placeholders(cond) <= UsedPlaceholders(where)
  {
    if where[|where| - 1] != cond {
      PlaceholdersInside(where[..|where| - 1], cond);
    }
  }

  /** Adding one condition, together with the arguments its placeholders denote, in order. */
  lemma AddCondition(where: seq<Cond>, args: seq<Arg>, cond: Cond, more: seq<Arg>)
    requires WellBound(where, args)
    requires forall n: nat :: n in Placeholders(cond) <==> |args| < n <= |args| + |more|
    ensures WellBound(where + [cond], args + more)
    ensures forall row, now :: AllHold(where + [cond], row, args + more, now)
                          <==> AllHold(where, row, args, now) && Holds(cond, row, args + more, now)
  {
    assert (where + [cond])[..|where|] == where;
    forall row, now
      ensures AllHold(where + [cond], row, args + more, now)
         <==> AllHold(where, row, args, now) && Holds(cond, row, args + more, now)
    {
      forall c | c in where
        ensures Holds(c, row, args + more, now) == Holds(c, row, args, now)
      {
        PlaceholdersInside(where, c);
        EvalStable(c, row, args, more, now);
      }
      assert forall c :: c in where + [cond] <==> c in where || c == cond;
    }
  }

  // ---------- running a query ----------

  datatype Database = Database(chunks: set<Chunk>, knowledge: map<string, Knowledge>)

  function RowsOf(db: Database, joined: bool): set<Joined> {
    if joined then
      set c | c in db.chunks && c.knowledgeId in db.knowledge :: Joined(c, Some(db.knowledge[c.knowledgeId]))
    else set c | c in db.chunks :: Joined(c, None)
  }

  /** Without a join every chunk is a row; with it those whose knowledge row exists, next to that row. */
  lemma RowsAre(db: Database, joined: bool, row: Joined)
    ensures row in RowsOf(db, joined)
       <==> && row.c in db.chunks
            && if joined then row.c.knowledgeId in db.knowledge && row.k == Some(db.knowledge[row.c.knowledgeId])
               else row.k == None
  {
  }

  function Selected(compiled: Compiled, db: Database, now: int): set<Joined> {
    set row | row in RowsOf(db, compiled.query.joined) && Accepts(compiled, row, now)
  }

  /** Cosine distance stays abstract; a row without an embedding is never ranked. */
  function Distance(dist: (Embedding, Embedding) -> real, compiled: Compiled, row: Joined): real {
    if row.c.embedding.Some? && compiled.args != [] && compiled.args[0].One? && compiled.args[0].d.Vector? then
      dist(row.c.embedding.value, compiled.args[0].d.v)
    else 0.0
  }

  function ByDistance(dist: (Embedding, Embedding) -> real, compiled: Compiled): (Joined, Joined) -> bool {
    (a: Joined, b: Joined) => Distance(dist, compiled, a) <= Distance(dist, compiled, b)
  }

  function Limited<T>(rows: seq<T>, limit: nat): seq<T> {
    if |rows| <= limit then rows else rows[..limit]
  }

  /** `rows` is an answer the database may give: equally distant rows may come in any order. */
  ghost predicate Answers(
    db: Database, dist: (Embedding, Embedding) -> real, compiled: Compiled, now: int, rows: seq<Joined>)
  {
    exists all ::
      && Listing(Selected(compiled, db, now), ByDistance(dist, compiled), all)
      && rows == Limited(all, compiled.query.limit)
  }
}

/** The repository method: validation, compilation, and what the answer means. */
module VectorSearch {
  import opened Numbers
  import opened Wrappers
  import opened Ordering
  import opened VectorQuery

  const EMBEDDING_DIMENSIONS := 768
  const MAX_TOP_K := 100

  datatype Params = Params(
    embedding: Embedding, topK: real, knowledgeId: Option<string>, userId: Option<string>,
    scopes: Option<seq<string>>, visibilities: Option<seq<string>>,
    includeUserScope: bool, callerUserId: Option<string>)

  datatype SearchError = BadEmbedding | BadTopK | BadId(field: string)

  datatype SearchResult = SearchResult(
    chunkId: string, knowledgeId: string, userId: string, content: string, chunkIndex: int, similarity: real)

  /** ECMAScript white space and line terminators, as `trim` removes them. */
  predicate IsSpace(c: char) {
    || c in {'\t', '\n', '\r', ' '}
    || c as int in {0x0B, 0x0C, 0xA0, 0x1680, 0x2028, 0x2029, 0x202F, 0x205F, 0x3000, 0xFEFF}
    || 0x2000 <= c as int <= 0x200A
  }

  predicate IsBlank(s: string) {
    forall c <- s :: IsSpace(c)
  }

  function TrimStart(s: string): string {
    if s != "" && IsSpace(s[0]) then TrimStart(s[1..]) else s
  }

  function TrimEnd(s: string): string {
    if s != "" && IsSpace(s[|s| - 1]) then TrimEnd(s[..|s| - 1]) else s
  }

  /** An identifier is refused exactly when nothing is left of it after trimming both ends. */
  lemma {:induction false} BlankIffTrimsAway(s: string)
    ensures IsBlank(s) <==> TrimEnd(TrimStart(s)) == ""
  {
    if s != "" {
      assert forall c :: c in s <==> c == s[0] || c in s[1..];
      if IsSpace(s[0]) {
        BlankIffTrimsAway(s[1..]);
      } else {
        TrimEndKeepsHead(s);
      }
    }
  }

  lemma {:induction false} TrimEndKeepsHead(s: string)
    requires s != "" && !IsSpace(s[0])
    ensures TrimEnd(s) != ""
  {
    if |s| > 1 {
      TrimEndKeepsHead(s[..|s| - 1]);
    }
  }

  /** White space by code point, as section 11.2 and 11.3 of ECMA-262 list it. */
  lemma SpaceCodes(c: char)
    ensures var code := c as int;
            IsSpace(c) <==> code in {32, 160, 5760, 8232, 8233, 8239, 8287, 12288, 65279}
                            || 9 <= code <= 13 || 8192 <= code <= 8202
  {
  }

  predicate BlankId(id: Option<string>) {
    id.Some? && IsBlank(id.value)
  }

  predicate SomeBlank(ids: seq<string>) {
    exists id <- ids :: IsBlank(id)
  }

  /** The vector path is scoped when a non-empty scope list is given. */
  predicate Scoped(p: Params) {
    p.scopes.Some? && p.scopes.value != []
  }

  function Visibilities(p: Params): seq<string> {
    if p.visibilities.Some? then p.visibilities.value else []
  }

  predicate OwnRowsAsked(p: Params) {
    p.includeUserScope && p.callerUserId.Some? && p.callerUserId.value != ""
  }

  // ---------- the documented eligibility rule ----------

  predicate LiveChunk(c: Chunk) {
    c.deletedAt.None? && c.embedding.Some?
  }

  /** Verified knowledge: active, in scope, and visible when visibilities are restricted. */
  predicate Verified(p: Params, k: Knowledge)
    requires Scoped(p)
  {
    && k.scope in p.scopes.value && k.lifecycleStatus == Some("active")
    && (Visibilities(p) != [] ==> k.visibility in Visibilities(p))
  }

  /** The caller's own private knowledge, legacy rows without a lifecycle included. */
  predicate Own(p: Params, k: Knowledge) {
    && OwnRowsAsked(p) && k.scope == "user" && k.userId == p.callerUserId.value
    && (k.lifecycleStatus.None? || k.lifecycleStatus.value == "active")
  }

  predicate CurrentKnowledge(k: Knowledge, now: int) {
    && k.deletedAt.None? && k.supersededById.None?
    && (k.expiresAt.None? || k.expiresAt.value > now)
  }

  predicate Eligible(p: Params, row: Joined, now: int) {
    && LiveChunk(row.c)
    && (p.knowledgeId.Some? ==> row.c.knowledgeId == p.knowledgeId.value)
    && if Scoped(p) then
         row.k.Some? && CurrentKnowledge(row.k.value, now) && (Verified(p, row.k.value) || Own(p, row.k.value))
       else p.userId.Some? ==> row.c.userId == p.userId.value
  }

  /** Absent or equal to the given text. */
  predicate NoneOr(o: Option<string>, text: string) {
    o.Some? ==> o.value == text
  }

  predicate Present(o: Option<string>, text: string) {
    o.Some? && o.value == text
  }

  /** The whole rule in one formula over the stored columns and the parameters as given. */
  lemma EligibilityRule(p: Params, c: Chunk, k: Option<Knowledge>, now: int)
    ensures Eligible(p, Joined(c, k), now)
       <==> && c.deletedAt.None? && c.embedding.Some? && NoneOr(p.knowledgeId, c.knowledgeId)
            && if p.scopes.None? || p.scopes.value == [] then NoneOr(p.userId, c.userId)
               else
                 && k.Some? && k.value.deletedAt.None? && k.value.supersededById.None?
                 && (k.value.expiresAt.Some? ==> now < k.value.expiresAt.value)
                 && (|| (&& k.value.scope in p.scopes.value && Present(k.value.lifecycleStatus, "active")
                         && (p.visibilities.Some? && p.visibilities.value != [] ==>
                               k.value.visibility in p.visibilities.value))
                     || (&& p.includeUserScope && k.value.scope == "user"
                         && Present(p.callerUserId, k.value.userId) && k.value.userId != ""
                         && NoneOr(k.value.lifecycleStatus, "active")))
  {
  }

  // ---------- compilation ----------

  /** What a compiled query owes its parameters. */
  ghost predicate Faithful(p: Params, compiled: Compiled) {
    && compiled.query.joined == Scoped(p)
    && compiled.args != [] && compiled.args[0] == One(Vector(p.embedding))
    && WellBound(compiled.query.where, compiled.args)
    && forall row: Joined, now: int :: row.k.Some? == Scoped(p) ==>
         (Accepts(compiled, row, now) <==> Eligible(p, row, now))
  }

  lemma ChunkConditions(where: seq<Cond>, args: seq<Arg>)
    requires where == [IsNull(Kc(ChunkDeletedAt)), IsNotNull(Kc(ChunkEmbedding))] && |args| == 1
    ensures WellBound(where, args)
    ensures forall row, now :: AllHold(where, row, args, now) <==> LiveChunk(row.c)
  {
    assert UsedPlaceholders(where[..1]) == {1} by {
      assert where[..1][..0] == [];
    }
    assert where[..|where| - 1] == where[..1];
    forall row, now
      ensures AllHold(where, row, args, now) <==> LiveChunk(row.c)
    {
      assert AllHold(where, row, args, now) <==> Holds(where[0], row, args, now) && Holds(where[1], row, args, now);
    }
  }

  /** Pushing `column = $n` with its text keeps exactly the rows whose column holds that text. */
  lemma AddEquality(where: seq<Cond>, args: seq<Arg>, column: Column, text: string)
    requires WellBound(where, args)
    ensures var cond, args' := Equals(Col(column), Placeholder(|args| + 1)), args + [One(Text(text))];
            && WellBound(where + [cond], args')
            && forall row, now :: AllHold(where + [cond], row, args', now)
                             <==> AllHold(where, row, args, now) && Read(row, column) == Text(text)
  {
    AddCondition(where, args, Equals(Col(column), Placeholder(|args| + 1)), [One(Text(text))]);
  }

  method CompileUnscoped(p: Params, limit: nat) returns (r: Result<Compiled, SearchError>)
    requires !Scoped(p)
    ensures r.Success? <==> !BlankId(p.knowledgeId) && !BlankId(p.userId)
    ensures r.Failure? ==> r.error == BadId(if BlankId(p.knowledgeId) then "knowledgeId" else "userId")
    ensures r.Success? ==> Faithful(p, r.value) && r.value.query.limit == limit
  {
    var args: seq<Arg> := [One(Vector(p.embedding))];
    var conditions := [IsNull(Kc(ChunkDeletedAt)), IsNotNull(Kc(ChunkEmbedding))];
    var n := 2;
    ChunkConditions(conditions, args);
    if p.knowledgeId.Some? {
      if IsBlank(p.knowledgeId.value) {
        return Failure(BadId("knowledgeId"));
      }
      AddEquality(conditions, args, Kc(ChunkKnowledgeId), p.knowledgeId.value);
      conditions := conditions + [Equals(Col(Kc(ChunkKnowledgeId)), Placeholder(n))];
      args := args + [One(Text(p.knowledgeId.value))];
      n := n + 1;
    }
    if p.userId.Some? {
      if IsBlank(p.userId.value) {
        return Failure(BadId("userId"));
      }
      AddEquality(conditions, args, Kc(ChunkUserId), p.userId.value);
      conditions := conditions + [Equals(Col(Kc(ChunkUserId)), Placeholder(n))];
      args := args + [One(Text(p.userId.value))];
      n := n + 1;
    }
    r := Success(Compiled(Query(false, conditions, limit), args));
  }

  lemma KnowledgeConditions(where: seq<Cond>, args: seq<Arg>)
    requires |args| == 1
    requires where == [IsNull(Kc(ChunkDeletedAt)), IsNotNull(Kc(ChunkEmbedding)), IsNull(K(KnowDeletedAt)),
                       IsNull(K(KnowSupersededById)), Or(IsNull(K(KnowExpiresAt)), After(Col(K(KnowExpiresAt)), Now))]
    ensures WellBound(where, args)
    ensures forall row: Joined, now :: row.k.Some? ==>
              (AllHold(where, row, args, now) <==> LiveChunk(row.c) && CurrentKnowledge(row.k.value, now))
  {
    var live := where[..2];
    ChunkConditions(live, args);
    AddCondition(live, args, where[2], []);
    AddCondition(live + [where[2]], args, where[3], []);
    AddCondition(live + [where[2]] + [where[3]], args, where[4], []);
    assert where == live + [where[2]] + [where[3]] + [where[4]];
    assert args + [] == args;
    forall row: Joined, now | row.k.Some?
      ensures AllHold(where, row, args, now) <==> LiveChunk(row.c) && CurrentKnowledge(row.k.value, now)
    {
      var k := row.k.value;
      assert Eval(IsNull(K(KnowExpiresAt)), row, args, now) == TruthOf(k.expiresAt.None?);
      assert Eval(After(Col(K(KnowExpiresAt)), Now), row, args, now)
          == if k.expiresAt.None? then Unknown else TruthOf(k.expiresAt.value > now);
    }
  }

  function VerifiedCond(restricted: bool): Cond {
    var active := And(AnyOf(K(KnowScope), 2), Equals(Col(K(KnowLifecycle)), Literal("active")));
    if restricted then And(active, AnyOf(K(KnowVisibility), 3)) else active
  }

  function OwnCond(n: nat): Cond {
    And(And(Equals(Col(K(KnowScope)), Literal("user")), Equals(Col(K(KnowUserId)), Placeholder(n))),
        Or(IsNull(K(KnowLifecycle)), Equals(Col(K(KnowLifecycle)), Literal("active"))))
  }

  lemma VerifiedMeaning(p: Params, args: seq<Arg>, row: Joined, now: int)
    requires Scoped(p) && row.k.Some? && |args| >= 2 && args[1] == Many(p.scopes.value)
    requires Visibilities(p) != [] ==> |args| >= 3 && args[2] == Many(Visibilities(p))
    ensures Holds(VerifiedCond(Visibilities(p) != []), row, args, now) <==> Verified(p, row.k.value)
  {
    var active := And(AnyOf(K(KnowScope), 2), Equals(Col(K(KnowLifecycle)), Literal("active")));
    assert Eval(active, row, args, now) == True
      <==> row.k.value.scope in p.scopes.value && row.k.value.lifecycleStatus == Some("active");
    var visible := AnyOf(K(KnowVisibility), 3);
    if Visibilities(p) != [] {
      assert Eval(visible, row, args, now) == TruthOf(row.k.value.visibility in Visibilities(p));
      assert Eval(And(active, visible), row, args, now)
          == AndT(Eval(active, row, args, now), Eval(visible, row, args, now));
    }
  }

  lemma OwnMeaning(p: Params, args: seq<Arg>, n: nat, row: Joined, now: int)
    requires OwnRowsAsked(p) && row.k.Some? && 1 <= n <= |args| && args[n - 1] == One(Text(p.callerUserId.value))
    ensures Holds(OwnCond(n), row, args, now) <==> Own(p, row.k.value)
  {
    var mine := And(Equals(Col(K(KnowScope)), Literal("user")), Equals(Col(K(KnowUserId)), Placeholder(n)));
    var usable := Or(IsNull(K(KnowLifecycle)), Equals(Col(K(KnowLifecycle)), Literal("active")));
    assert Eval(mine, row, args, now) == True
      <==> row.k.value.scope == "user" && row.k.value.userId == p.callerUserId.value;
    assert Eval(usable, row, args, now) == True <==> row.k.value.lifecycleStatus in {None, Some("active")};
  }

  /** The eligibility filter as built: the verified branch, or either branch when own rows are asked for too. */
  function BranchesOf(restricted: bool, own: bool, n: nat): Cond {
    if own then Or(VerifiedCond(restricted), OwnCond(n)) else VerifiedCond(restricted)
  }

  lemma BranchPlaceholders(restricted: bool, own: bool, n: nat)
    requires n == 2 + (if restricted then 1 else 0) + (if own then 1 else 0)
    ensures forall m: nat :: m in Placeholders(BranchesOf(restricted, own, n)) <==> 1 < m <= n
  {
    var active := And(AnyOf(K(KnowScope), 2), Equals(Col(K(KnowLifecycle)), Literal("active")));
    assert Placeholders(active) == {2};
    assert Placeholders(VerifiedCond(restricted)) == if restricted then {2, 3} else {2};
    if own {
      var mine := And(Equals(Col(K(KnowScope)), Literal("user")), Equals(Col(K(KnowUserId)), Placeholder(n)));
      assert Placeholders(mine) == {n};
      assert Placeholders(OwnCond(n)) == {n};
    }
  }

  /** The two branches of the eligibility filter, over the arguments pushed for them. */
  lemma BranchMeaning(p: Params, args: seq<Arg>, branches: Cond)
    requires Scoped(p)
    requires var restricted, own := Visibilities(p) != [], OwnRowsAsked(p);
             && |args| == 2 + (if restricted then 1 else 0) + (if own then 1 else 0)
             && args[1] == Many(p.scopes.value)
             && (restricted ==> args[2] == Many(Visibilities(p)))
             && (own ==> args[|args| - 1] == One(Text(p.callerUserId.value)))
             && branches == BranchesOf(restricted, own, |args|)
    ensures forall n: nat :: n in Placeholders(branches) <==> 1 < n <= |args|
    ensures forall row: Joined, now :: row.k.Some? ==>
              (Holds(branches, row, args, now) <==> Verified(p, row.k.value) || Own(p, row.k.value))
  {
    hide Placeholders, VerifiedCond, OwnCond, Verified;
    BranchPlaceholders(Visibilities(p) != [], OwnRowsAsked(p), |args|);
    forall row: Joined, now | row.k.Some?
      ensures Holds(branches, row, args, now) <==> Verified(p, row.k.value) || Own(p, row.k.value)
    {
      VerifiedMeaning(p, args, row, now);
      if OwnRowsAsked(p) {
        OwnMeaning(p, args, |args|, row, now);
      }
    }
  }

  method CompileScoped(p: Params, limit: nat) returns (r: Result<Compiled, SearchError>)
    requires Scoped(p)
    ensures r.Success? <==> && !SomeBlank(p.scopes.value) && !SomeBlank(Visibilities(p))
                            && !(OwnRowsAsked(p) && IsBlank(p.callerUserId.value)) && !BlankId(p.knowledgeId)
    ensures r.Failure? ==>
              r.error == BadId(if SomeBlank(p.scopes.value) then "scope"
                               else if SomeBlank(Visibilities(p)) then "visibility"
                               else if OwnRowsAsked(p) && IsBlank(p.callerUserId.value) then "callerUserId"
                               else "knowledgeId")
    ensures r.Success? ==> Faithful(p, r.value) && r.value.query.limit == limit
  {
    hide Eval, UsedPlaceholders, Placeholders, Verified, Own, AllHold, Holds;
    if SomeBlank(p.scopes.value) {
      return Failure(BadId("scope"));
    }
    var visibilities := Visibilities(p);
    if SomeBlank(visibilities) {
      return Failure(BadId("visibility"));
    }
    var args: seq<Arg> := [One(Vector(p.embedding))];
    var conditions := [
      IsNull(Kc(ChunkDeletedAt)),
      IsNotNull(Kc(ChunkEmbedding)),
      IsNull(K(KnowDeletedAt)),
      IsNull(K(KnowSupersededById)),
      Or(IsNull(K(KnowExpiresAt)), After(Col(K(KnowExpiresAt)), Now))];
    var n := 2;
    KnowledgeConditions(conditions, args);
    ghost var base := args;

    var scopesParam := n;
    args := args + [Many(p.scopes.value)];
    n := n + 1;
    var verifiedBranch := And(AnyOf(K(KnowScope), scopesParam), Equals(Col(K(KnowLifecycle)), Literal("active")));
    if visibilities != [] {
      verifiedBranch := And(verifiedBranch, AnyOf(K(KnowVisibility), n));
      args := args + [Many(visibilities)];
      n := n + 1;
    }
    var branches := verifiedBranch;
    if OwnRowsAsked(p) {
      if IsBlank(p.callerUserId.value) {
        return Failure(BadId("callerUserId"));
      }
      var ownBranch :=
        And(And(Equals(Col(K(KnowScope)), Literal("user")), Equals(Col(K(KnowUserId)), Placeholder(n))),
            Or(IsNull(K(KnowLifecycle)), Equals(Col(K(KnowLifecycle)), Literal("active"))));
      branches := Or(verifiedBranch, ownBranch);
      args := args + [One(Text(p.callerUserId.value))];
      n := n + 1;
    }
    BranchMeaning(p, args, branches);
    assert args == base + args[1..];
    AddCondition(conditions, base, branches, args[1..]);
    conditions := conditions + [branches];

    if p.knowledgeId.Some? {
      if IsBlank(p.knowledgeId.value) {
        return Failure(BadId("knowledgeId"));
      }
      AddEquality(conditions, args, Kc(ChunkKnowledgeId), p.knowledgeId.value);
      conditions := conditions + [Equals(Col(Kc(ChunkKnowledgeId)), Placeholder(n))];
      args := args + [One(Text(p.knowledgeId.value))];
      n := n + 1;
    }
    r := Success(Compiled(Query(true, conditions, limit), args));
  }

  // ---------- the operation ----------

  predicate ValidTopK(topK: real) {
    topK >= 1.0 && topK == topK.Floor as real
  }

  /** The identifiers the chosen path reads are not blank; `userId` is read only without scopes. */
  predicate ValidIds(p: Params) {
    && !BlankId(p.knowledgeId)
    && if Scoped(p) then
         && !SomeBlank(p.scopes.value) && !SomeBlank(Visibilities(p))
         && (OwnRowsAsked(p) ==> !IsBlank(p.callerUserId.value))
       else !BlankId(p.userId)
  }

  /** Which identifiers are read on which path, and all of a list's. */
  lemma IdsRule(p: Params)
    ensures ValidIds(p)
       <==> && (p.knowledgeId.Some? ==> !IsBlank(p.knowledgeId.value))
            && if p.scopes.None? || p.scopes.value == [] then p.userId.Some? ==> !IsBlank(p.userId.value)
               else
                 && (forall s <- p.scopes.value :: !IsBlank(s))
                 && (p.visibilities.Some? ==> forall v <- p.visibilities.value :: !IsBlank(v))
                 && (p.includeUserScope && p.callerUserId.Some? && p.callerUserId.value != "" ==>
                       !IsBlank(p.callerUserId.value))
  {
  }

  /** The first identifier refused, in the order the chosen path reads them. */
  function BadField(p: Params): string
    requires !ValidIds(p)
  {
    if Scoped(p) then
      if SomeBlank(p.scopes.value) then "scope"
      else if SomeBlank(Visibilities(p)) then "visibility"
      else if OwnRowsAsked(p) && IsBlank(p.callerUserId.value) then "callerUserId"
      else "knowledgeId"
    else if BlankId(p.knowledgeId) then "knowledgeId"
    else "userId"
  }

  function EligibleRows(p: Params, db: Database, now: int): set<Joined> {
    set row | row in RowsOf(db, Scoped(p)) && Eligible(p, row, now)
  }

  /** 1 minus the cosine distance; only rows with an embedding are ever compared. */
  function Similarity(p: Params, dist: (Embedding, Embedding) -> real, row: Joined): real {
    if row.c.embedding.Some? then 1.0 - dist(row.c.embedding.value, p.embedding) else 0.0
  }

  /** `rows` are the `limit` most similar eligible rows, best first, each once, with no better row omitted. */
  ghost predicate TopEligible(
    p: Params, db: Database, dist: (Embedding, Embedding) -> real, now: int, limit: nat, rows: seq<Joined>)
  {
    var eligible := EligibleRows(p, db, now);
    && |rows| == MinInt(limit, |eligible|) && Distinct(rows)
    && (forall x :: x in rows ==> x in eligible)
    && (forall i, j :: 0 <= i < j < |rows| ==> Similarity(p, dist, rows[i]) >= Similarity(p, dist, rows[j]))
    && (forall x, y :: x in rows && y in eligible && y !in rows ==> Similarity(p, dist, x) >= Similarity(p, dist, y))
  }

  function ResultsOf(p: Params, dist: (Embedding, Embedding) -> real, rows: seq<Joined>): seq<SearchResult> {
    seq(|rows|, i requires 0 <= i < |rows| =>
      var c := rows[i].c;
      SearchResult(c.id, c.knowledgeId, c.userId, c.content, c.chunkIndex, Similarity(p, dist, rows[i])))
  }

  /** Whatever order the database gives tied rows, a faithfully compiled query answers with the top eligible rows. */
  lemma AnswersAreTopEligible(
    p: Params, compiled: Compiled, db: Database, dist: (Embedding, Embedding) -> real, now: int, rows: seq<Joined>)
    requires Faithful(p, compiled) && Answers(db, dist, compiled, now, rows)
    ensures TopEligible(p, db, dist, now, compiled.query.limit, rows)
  {
    hide Eligible, Accepts, WellBound;
    var selected, order := Selected(compiled, db, now), ByDistance(dist, compiled);
    forall row | row in RowsOf(db, Scoped(p))
      ensures row.k.Some? == Scoped(p)
    {
    }
    assert selected == EligibleRows(p, db, now);
    forall row | row in selected
      ensures row.c.embedding.Some? && Distance(dist, compiled, row) == 1.0 - Similarity(p, dist, row)
    {
      EligibleHasEmbedding(p, row, now);
    }
    var all :| Listing(selected, order, all) && rows == Limited(all, compiled.query.limit);
    FirstOfListing(selected, order, all, MinInt(compiled.query.limit, |all|));
    assert all[..|all|] == all;
    assert forall i :: 0 <= i < |rows| ==> rows[i] in rows;
  }

  lemma EligibleHasEmbedding(p: Params, row: Joined, now: int)
    requires Eligible(p, row, now)
    ensures row.c.embedding.Some?
  {
  }

  /** `r` shows chunk `c`, and how similar it is to the query vector. */
  predicate Shows(p: Params, dist: (Embedding, Embedding) -> real, r: SearchResult, c: Chunk) {
    && r.chunkId == c.id && r.knowledgeId == c.knowledgeId && r.userId == c.userId
    && r.content == c.content && r.chunkIndex == c.chunkIndex
    && c.embedding.Some? && r.similarity + dist(c.embedding.value, p.embedding) == 1.0
  }

  /** The chunk is eligible, next to its own knowledge row when scopes are given. */
  predicate Admissible(p: Params, db: Database, c: Chunk, now: int) {
    if p.scopes.None? || p.scopes.value == [] then Eligible(p, Joined(c, None), now)
    else c.knowledgeId in db.knowledge && Eligible(p, Joined(c, Some(db.knowledge[c.knowledgeId])), now)
  }

  /**
    The results are eligible chunks of the database with their own columns, of the document and,
    without scopes, of the user asked for, the most similar first.
   */
  ghost predicate AnswersFrom(
    p: Params, db: Database, dist: (Embedding, Embedding) -> real, now: int, results: seq<SearchResult>)
  {
    && (forall r <- results :: exists c <- db.chunks :: Shows(p, dist, r, c) && Admissible(p, db, c, now))
    && (p.knowledgeId.Some? ==> forall r <- results :: r.knowledgeId == p.knowledgeId.value)
    && ((p.scopes.None? || p.scopes.value == []) && p.userId.Some? ==>
          forall r <- results :: r.userId == p.userId.value)
    && (forall i, j :: 0 <= i < j < |results| ==> results[i].similarity >= results[j].similarity)
  }

  /** What the rows become in the answer. */
  lemma ResultsShowRows(
    p: Params, db: Database, dist: (Embedding, Embedding) -> real, now: int, limit: nat, rows: seq<Joined>)
    requires TopEligible(p, db, dist, now, limit, rows)
    ensures var results := ResultsOf(p, dist, rows);
            && |results| == |rows| && (forall i :: 0 <= i < |rows| ==> Shows(p, dist, results[i], rows[i].c))
            && AnswersFrom(p, db, dist, now, results)
  {
    hide Eligible, EligibleRows, TopEligible, Admissible;
    var results := ResultsOf(p, dist, rows);
    forall i | 0 <= i < |rows|
      ensures Shows(p, dist, results[i], rows[i].c) && rows[i].c in db.chunks && Admissible(p, db, rows[i].c, now)
      ensures p.knowledgeId.Some? ==> results[i].knowledgeId == p.knowledgeId.value
      ensures (p.scopes.None? || p.scopes.value == []) && p.userId.Some? ==> results[i].userId == p.userId.value
    {
      TopIsEligible(p, db, dist, now, limit, rows, i);
      EligibilityRule(p, rows[i].c, rows[i].k, now);
    }
    forall i, j | 0 <= i < j < |results|
      ensures results[i].similarity >= results[j].similarity
    {
      TopIsSorted(p, db, dist, now, limit, rows, i, j);
    }
    forall r | r in results
      ensures exists c <- db.chunks :: Shows(p, dist, r, c) && Admissible(p, db, c, now)
    {
      var i :| 0 <= i < |results| && results[i] == r;
      assert Shows(p, dist, r, rows[i].c);
    }
  }

  lemma TopIsEligible(
    p: Params, db: Database, dist: (Embedding, Embedding) -> real, now: int, limit: nat, rows: seq<Joined>, i: nat)
    requires TopEligible(p, db, dist, now, limit, rows) && i < |rows|
    ensures rows[i].c in db.chunks && Eligible(p, Joined(rows[i].c, rows[i].k), now)
    ensures Admissible(p, db, rows[i].c, now)
  {
    hide Eligible, RowsOf;
    assert rows[i] in rows;
    RowsAre(db, Scoped(p), rows[i]);
    assert Joined(rows[i].c, rows[i].k) == rows[i];
  }

  lemma TopIsSorted(
    p: Params, db: Database, dist: (Embedding, Embedding) -> real, now: int, limit: nat, rows: seq<Joined>,
    i: nat, j: nat)
    requires TopEligible(p, db, dist, now, limit, rows) && i < j < |rows|
    ensures Similarity(p, dist, rows[i]) >= Similarity(p, dist, rows[j])
  {
    hide Eligible, Similarity;
  }

  method SearchSimilar(p: Params, db: Database, dist: (Embedding, Embedding) -> real, now: int)
    returns (r: Result<seq<SearchResult>, SearchError>)
    ensures |p.embedding| != 768 ==> r == Failure(BadEmbedding)
    ensures |p.embedding| == 768 && !(p.topK.Floor as real == p.topK >= 1.0) ==> r == Failure(BadTopK)
    ensures |p.embedding| == 768 && p.topK.Floor as real == p.topK >= 1.0 && !ValidIds(p) ==>
              r == Failure(BadId(BadField(p)))
    ensures r.Success? <==> |p.embedding| == 768 && p.topK.Floor as real == p.topK >= 1.0 && ValidIds(p)
    ensures r.Success? ==>
              exists rows ::
                TopEligible(p, db, dist, now, MinInt(p.topK.Floor, 100), rows) && r.value == ResultsOf(p, dist, rows)
    ensures r.Success? ==> AnswersFrom(p, db, dist, now, r.value)
  {
    hide Faithful, Answers, TopEligible, AnswersFrom;
    if |p.embedding| != EMBEDDING_DIMENSIONS {
      return Failure(BadEmbedding);
    }
    if !ValidTopK(p.topK) {
      return Failure(BadTopK);
    }
    var limit := MinInt(p.topK.Floor, MAX_TOP_K);
    var compiled: Result<Compiled, SearchError>;
    if !Scoped(p) {
      compiled := CompileUnscoped(p, limit);
    } else {
      compiled := CompileScoped(p, limit);
    }
    if compiled.Failure? {
      return Failure(compiled.error);
    }
    var rows := RunQuery(compiled.value, db, dist, now);
    AnswersAreTopEligible(p, compiled.value, db, dist, now, rows);
    ResultsShowRows(p, db, dist, now, limit, rows);
    return Success(ResultsOf(p, dist, rows));
  }

  /** The database's part: select, sort, cut. */
  method RunQuery(compiled: Compiled, db: Database, dist: (Embedding, Embedding) -> real, now: int)
    returns (rows: seq<Joined>)
    ensures Answers(db, dist, compiled, now, rows)
  {
    var all := ListMembers(Selected(compiled, db, now), ByDistance(dist, compiled));
    rows := Limited(all, compiled.query.limit);
  }

  // ---------- agreement with the re-check, and ownership ----------

  /** `isEligible`, the live re-check applied when hits are hydrated; an empty successor id counts as none. */
  predicate Recheck(k: Knowledge, now: int) {
    && k.deletedAt.None?
    && (k.expiresAt.None? || k.expiresAt.value > now)
    && (k.supersededById.None? || k.supersededById.value == "")
    && if k.scope == "user" then k.lifecycleStatus.None? || k.lifecycleStatus.value == "active"
       else k.lifecycleStatus == Some("active")
  }

  /** What the re-check asks of a row, status by status. */
  lemma RecheckRule(k: Knowledge, now: int)
    ensures Recheck(k, now)
       <==> && k.deletedAt.None? && NoneOr(k.supersededById, "")
            && (k.expiresAt.Some? ==> now < k.expiresAt.value)
            && (Present(k.lifecycleStatus, "active") || (k.lifecycleStatus.None? && k.scope == "user"))
  {
  }

  /** The re-check never drops a row the query let through at the same instant. */
  lemma SelectedRowsPassRecheck(p: Params, row: Joined, now: int)
    requires Scoped(p) && Eligible(p, row, now)
    ensures row.k.Some? && Recheck(row.k.value, now)
  {
  }

  /** The embedding column holds vectors of the fixed dimension only. */
  predicate Storable(c: Chunk) {
    c.embedding.Some? ==> |c.embedding.value| == EMBEDDING_DIMENSIONS
  }

  /**
    A private row reaches only its owner exactly when the caller did not list `user` among the
    verified scopes: the verified branch looks at scope and status, never at the owner.
   */
  lemma PrivateRowsStayPrivateIff(p: Params)
    requires Scoped(p)
    ensures (forall row: Joined, now: int :: Storable(row.c) && Eligible(p, row, now) && row.k.value.scope == "user" ==>
               p.callerUserId == Some(row.k.value.userId))
       <==> "user" !in p.scopes.value
  {
    if "user" in p.scopes.value {
      var owner := if p.callerUserId.Some? then p.callerUserId.value + "'" else "";
      var visibility := if Visibilities(p) != [] then Visibilities(p)[0] else "";
      var pin := if p.knowledgeId.Some? then p.knowledgeId.value else "";
      var embedding: Embedding := seq(EMBEDDING_DIMENSIONS, _ => 1.0);
      var row := Joined(
        Chunk("", pin, "", "", 0, Some(embedding), None),
        Some(Knowledge(pin, owner, "user", visibility, Some("active"), None, None, None)));
      assert Storable(row.c) && Eligible(p, row, 0);
    }
  }
}
