/** A terminal Characterize: three queries over one event relation, each row marked as inside the segment or not. */
module Profile {
  import opened Sequences
  import opened Values
  import opened Ast
  import opened Sql
  import opened Compiler
  import opened Denotation
  import opened CompilerProof
  import opened Binding
  import opened Derive

  /** WITH segment AS (...), ev AS (SELECT ..., (s.user_id IS NOT NULL) AS in_seg FROM event e LEFT JOIN segment s
      ON s.user_id = e.user_id WHERE where) SELECT columns ... */
  datatype ProfileQuery = ProfileQuery(segment: Query, event: Table, columns: seq<string>, where: Cond,
                                       params: seq<Value>, sources: seq<Dataset>)

  datatype ProfileQueries = ProfileQueries(metrics: ProfileQuery, recency: ProfileQuery, categories: ProfileQuery)

  function ProfileHoles(p: ProfileQuery): nat {
    QueryHoles(p.segment) + Holes(p.where)
  }

  function StripLast(q: SegmentQuery): SegmentQuery {
    q.(ops := if q.ops == [] then [] else q.ops[..|q.ops| - 1])
  }

  /** The engine passes no survivor count on this path. */
  function CompileCharacterize(q: SegmentQuery, opts: Options): Result<ProfileQueries, CompileError>
    requires opts.deriveLimit.None?
  {
    if q.ops == [] || !q.ops[|q.ops| - 1].Characterize? then Err(NotACharacterize)
    else
      var op := q.ops[|q.ops| - 1];
      var c :- CompileSpec(StripLast(q), 0, opts);
      NoLimitIsKeys(StripLast(q), 0, opts, c);
      Ok(ProfileQueries(
           OneQuery(c, op.event, op.monetaryColumn, opts.tenant),
           OneQuery(c, op.event, op.tsColumn, opts.tenant),
           OneQuery(c, op.event, op.categoryColumn, opts.tenant)))
  }

  function OneQuery(c: Compiled, event: Dataset, column: string, tenant: string): ProfileQuery
    requires c.sql.Keys?
  {
    ProfileQuery(c.sql.query, Raw(event), [column], TenantEq(E), c.params + [Text(tenant)], c.sources + [event])
  }

  // ----- the event relation -----

  /** The column a key query projects: a set operation takes its left side's name. */
  function OutputColumn(q: Query): string {
    match q
    case SelectKeys(_, key, _, _) => key
    case Combine(_, l, _) => OutputColumn(l)
  }

  /** One row of `ev`: the user, the selected columns, and whether a segment row joined. */
  datatype Ev = Ev(user: Value, cells: seq<Value>, inSegment: bool)

  function SegmentJoin(eng: Engine, e: Row): Value -> bool {
    v => Compare3(eng, SymEq, v, Cell(e, "user_id")) == True
  }

  function EvRow(columns: seq<string>, inSegment: bool, e: Row): Ev {
    Ev(Cell(e, "user_id"), seq(|columns|, i requires 0 <= i < |columns| => Cell(e, columns[i])), inSegment)
  }

  /** LEFT JOIN: one row per joining segment key, or one unmarked row when none joins. */
  function LeftJoin(eng: Engine, keys: seq<Value>, columns: seq<string>, events: seq<Row>): seq<Ev> {
    if events == [] then []
    else
      var matches := Filter(SegmentJoin(eng, events[0]), keys);
      (if matches == [] then [EvRow(columns, false, events[0])]
        else seq(|matches|, _ => EvRow(columns, true, events[0])))
      + LeftJoin(eng, keys, columns, events[1..])
  }

  /** `None` where the engine cannot bind `s.user_id`; else the segment's size and the relation `ev`. */
  function EvalProfile(eng: Engine, db: Db, p: ProfileQuery): Option<(nat, seq<Ev>)>
    requires |p.params| == ProfileHoles(p)
  {
    if OutputColumn(p.segment) != "user_id" then None
    else
      var n := QueryHoles(p.segment);
      var keys := EvalQuery(eng, db, p.segment, p.params[..n]);
      var events := Filter(Satisfies(eng, db, map[], E, p.where, p.params[n..]), Relation(db, p.event));
      Some((|keys|, LeftJoin(eng, keys, p.columns, events)))
  }

  // ----- what it means -----

  ghost function Marked(columns: seq<string>, segment: set<Value>): Row -> Ev {
    e => EvRow(columns, ByUser(segment)(e), e)
  }

  /** The tenant's event rows, each once, each marked by whether its user is in the segment. */
  ghost function DenoteProfile(eng: Engine, slice: Slice, rules: SuppressionRules, q: SegmentQuery,
                               columns: seq<string>): (nat, seq<Ev>)
    requires q.ops != [] && q.ops[|q.ops| - 1].Characterize?
  {
    var segment := Denote(eng, slice, rules, StripLast(q));
    (|segment|, Map(Marked(columns, segment), SliceRows(slice, q.ops[|q.ops| - 1].event)))
  }

  // ----- proof -----

  lemma JoinMatches(eng: Engine, keys: seq<Value>, e: Row)
    requires NoDup(keys) && TextOrNull(Cell(e, "user_id")) && forall v :: v in keys ==> TextOrNull(v)
    ensures |Filter(SegmentJoin(eng, e), keys)| == if ByUser(Elements(keys))(e) then 1 else 0
  {
    var p := SegmentJoin(eng, e);
    assert forall v :: v in keys ==> (p(v) <==> v == Cell(e, "user_id") && !v.Null?);
    FilterNoDup(p, keys);
    FilterHas(p, keys);
    hide SegmentJoin, Filter;
    AtMostOne(Filter(p, keys), Cell(e, "user_id"));
  }

  lemma {:induction false} LeftJoinIs(eng: Engine, keys: seq<Value>, columns: seq<string>, events: seq<Row>)
    requires NoDup(keys) && forall v :: v in keys ==> TextOrNull(v)
    requires forall e :: e in events ==> TypedRaw(e)
    ensures LeftJoin(eng, keys, columns, events) == Map(Marked(columns, Elements(keys)), events)
  {
    if events == [] {
      return;
    }
    RawTyped(events[0]);
    JoinMatches(eng, keys, events[0]);
    LeftJoinIs(eng, keys, columns, events[1..]);
    hide EvRow, ByUser, SegmentJoin, Filter, TypedRaw, NoDup;
    var n := |Filter(SegmentJoin(eng, events[0]), keys)|;
    assert seq(n, _ => EvRow(columns, true, events[0])) == if n == 0 then [] else [EvRow(columns, true, events[0])];
  }

  lemma {:induction false} LeftmostKey(q: SegmentQuery, i: nat, acc: Acc, depth: nat, opts: Options, c: Compiled)
    requires i <= |q.ops| && acc.conjuncts != [] && CompileFrom(q, i, acc, depth, opts) == Ok(c) && c.sql.Keys?
    ensures OutputColumn(c.sql.query) == q.key
    decreases |q.ops| - i
  {
    if i < |q.ops| && !q.ops[i].SetOp? {
      hide NarrowFrag;
      LeftmostKey(q, i + 1, Extend(acc, q.ops[i], NarrowFrag(q.ops[i], q, opts).value), depth, opts, c);
    }
  }

  lemma EventsOfTenant(eng: Engine, db: Db, event: Dataset, tenant: string)
    requires Typed(db)
    ensures Holes(TenantEq(E)) == 1
    ensures Filter(Satisfies(eng, db, map[], E, TenantEq(E), [Text(tenant)]), RawRows(db, event))
            == TenantRows(RawRows(db, event), tenant)
  {
    forall e | e in RawRows(db, event)
      ensures Satisfies(eng, db, map[], E, TenantEq(E), [Text(tenant)])(e) == OfTenant(tenant)(e)
    {
      RawCellTyped(db, event, e, "tenant_id");
      assert map[][E := e] == map[E := e];
      TenantEqTrue(eng, db, map[E := e], E, tenant);
    }
    FilterCong(Satisfies(eng, db, map[], E, TenantEq(E), [Text(tenant)]), OfTenant(tenant), RawRows(db, event));
  }

  lemma DenoteTyped(eng: Engine, db: Db, q: SegmentQuery, opts: Options)
    requires Typed(db)
    ensures forall v :: v in Denote(eng, SliceOf(db, opts.tenant), opts.rules, q) ==> TextOrNull(v)
    decreases q
  {
    SliceRowsAre(db, opts.tenant, q.source);
    TenantRowsHave(RawRows(db, q.source), opts.tenant);
    forall r | r in RawRows(db, q.source)
      ensures TextOrNull(Cell(r, q.key))
    {
      RawCellTyped(db, q.source, r, q.key);
    }
    if q.ops != [] && q.ops[|q.ops| - 1].SetOp? {
      DenoteTyped(eng, db, q.ops[|q.ops| - 1].other, opts);
    }
    hide HoldsUpTo, SliceOf, SliceRows, RawRows, Typed, TextOrNull;
  }

  lemma OneProfile(eng: Engine, db: Db, q: SegmentQuery, opts: Options, c: Compiled, column: string)
    requires Context(eng, db, opts) && NoShadow(q) && opts.deriveLimit.None?
    requires q.ops != [] && q.ops[|q.ops| - 1].Characterize? && CompileSpec(StripLast(q), 0, opts) == Ok(c)
             && c.sql.Keys?
    ensures var p := OneQuery(c, q.ops[|q.ops| - 1].event, column, opts.tenant);
            && |p.params| == ProfileHoles(p)
            && EvalProfile(eng, db, p)
               == if q.key == "user_id" then Some(DenoteProfile(eng, SliceOf(db, opts.tenant), opts.rules, q, [column]))
                 else None
  {
    var event := q.ops[|q.ops| - 1].event;
    var narrowing := StripLast(q);
    assert NoShadow(narrowing);
    CompileCorrect(eng, db, narrowing, 0, opts, c);
    var keys := EvalQuery(eng, db, c.sql.query, c.params);
    NoDupSize(keys);
    DenoteTyped(eng, db, narrowing, opts);
    assert forall v :: v in keys ==> v in Elements(keys);
    EventsOfTenant(eng, db, event, opts.tenant);
    SliceRowsAre(db, opts.tenant, event);
    TenantRowsHave(RawRows(db, event), opts.tenant);
    RawRowsTyped(db, event);
    LeftmostKey(narrowing, 0, Start(narrowing, opts.tenant), 0, opts, c);
    var n := |c.params|;
    assert (c.params + [Text(opts.tenant)])[..n] == c.params
           && (c.params + [Text(opts.tenant)])[n..] == [Text(opts.tenant)];
    hide EvalQuery, EvalCond, Denote, CompileSpec, SliceOf, SliceRows, RawRows, Context, NoShadow, Satisfies, TypedRaw,
         TextOrNull, Marked, TenantRows,
         Map, LeftJoin, TenantEq;
    LeftJoinIs(eng, keys, [column], Filter(Satisfies(eng, db, map[], E, TenantEq(E), [Text(opts.tenant)]),
               RawRows(db, event)));
  }

  /** Each profile query reads exactly the tenant's events, each row once; it binds only when the segment's key is
      `user_id`. */
  lemma ProfileCorrect(eng: Engine, db: Db, q: SegmentQuery, opts: Options, ps: ProfileQueries)
    requires Context(eng, db, opts) && NoShadow(q) && opts.deriveLimit.None?
    requires CompileCharacterize(q, opts) == Ok(ps)
    ensures var op := q.ops[|q.ops| - 1];
            && |ps.metrics.params| == ProfileHoles(ps.metrics)
            && |ps.recency.params| == ProfileHoles(ps.recency)
            && |ps.categories.params| == ProfileHoles(ps.categories)
    ensures var op, slice := q.ops[|q.ops| - 1], SliceOf(db, opts.tenant);
            if q.key == "user_id" then
              && EvalProfile(eng, db, ps.metrics) == Some(DenoteProfile(eng, slice, opts.rules, q, [op.monetaryColumn]))
              && EvalProfile(eng, db, ps.recency) == Some(DenoteProfile(eng, slice, opts.rules, q, [op.tsColumn]))
              && EvalProfile(eng, db, ps.categories)
                == Some(DenoteProfile(eng, slice, opts.rules, q, [op.categoryColumn]))
            else
              EvalProfile(eng, db, ps.metrics) == EvalProfile(eng, db, ps.recency)
                          == EvalProfile(eng, db, ps.categories) == None
  {
    var op := q.ops[|q.ops| - 1];
    var c := CompileSpec(StripLast(q), 0, opts).value;
    NoLimitIsKeys(StripLast(q), 0, opts, c);
    OneProfile(eng, db, q, opts, c, op.monetaryColumn);
    OneProfile(eng, db, q, opts, c, op.tsColumn);
    OneProfile(eng, db, q, opts, c, op.categoryColumn);
    hide EvalProfile, DenoteProfile, CompileSpec, SliceOf, ProfileHoles, Context, NoShadow, StripLast;
  }
}
