/** A terminal Derive: the engine measures the survivors, refuses too many, and injects the count as a LIMIT. */
module Derive {
  import opened Sequences
  import opened Values
  import opened Ast
  import opened Sql
  import opened Compiler
  import opened Denotation
  import opened CompilerProof
  import opened Binding

  datatype EngineError = InvalidDsl(cause: CompileError) | SurvivorUnbounded

  predicate HasDerive(q: SegmentQuery) {
    exists i :: 0 <= i < |q.ops| && q.ops[i].Derive?
  }

  function NotDerive(): Op -> bool {
    (op: Op) => !op.Derive?
  }

  function StripDerive(q: SegmentQuery): SegmentQuery {
    q.(ops := Filter(NotDerive(), q.ops))
  }

  function EvalKeys(eng: Engine, db: Db, c: Compiled): seq<Value>
    requires c.sql.Keys? && |c.params| == StatementHoles(c.sql)
  {
    EvalQuery(eng, db, c.sql.query, c.params)
  }

  function Lifted(r: Result<Compiled, CompileError>): Result<Compiled, EngineError> {
    if r.Ok? then Ok(r.value) else Err(InvalidDsl(r.error))
  }

  /** The measured number of survivors: `SELECT count(*)` over the segment without its Derive. */
  function SurvivorLimit(eng: Engine, db: Db, q: SegmentQuery, opts: Options, cap: nat): Result<nat, EngineError> {
    var c :- Lifted(CompileSpec(StripDerive(q), 0, opts.(deriveLimit := None)));
    CompiledHoles(StripDerive(q), 0, opts.(deriveLimit := None), c);
    NoLimitIsKeys(StripDerive(q), 0, opts.(deriveLimit := None), c);
    var count := |EvalKeys(eng, db, c)|;
    if count > cap then Err(SurvivorUnbounded) else Ok(count)
  }

  function CompileAndCheck(eng: Engine, db: Db, q: SegmentQuery, opts: Options,
                           cap: nat): Result<Compiled, EngineError> {
    if HasDerive(q) then
      var limit :- SurvivorLimit(eng, db, q, opts, cap);
      Lifted(CompileSpec(q, 0, opts.(deriveLimit := Some(limit))))
    else
      Lifted(CompileSpec(q, 0, opts.(deriveLimit := None)))
  }

  lemma NoLimitFromIsKeys(q: SegmentQuery, i: nat, acc: Acc, depth: nat, opts: Options, c: Compiled)
    requires i <= |q.ops| && acc.conjuncts != [] && opts.deriveLimit.None?
             && CompileFrom(q, i, acc, depth, opts) == Ok(c)
    ensures c.sql.Keys?
    decreases q, |q.ops| - i
  {
    if i < |q.ops| {
      if q.ops[i].SetOp? {
        NoLimitIsKeys(q.ops[i].other, depth + 1, opts, CompileSpec(q.ops[i].other, depth + 1, opts).value);
      } else {
        hide NarrowFrag;
        NoLimitFromIsKeys(q, i + 1, Extend(acc, q.ops[i], NarrowFrag(q.ops[i], q, opts).value), depth, opts, c);
      }
    }
  }

  /** Without a survivor count, whatever compiles is a key query. */
  lemma NoLimitIsKeys(q: SegmentQuery, depth: nat, opts: Options, c: Compiled)
    requires opts.deriveLimit.None? && CompileSpec(q, depth, opts) == Ok(c)
    ensures c.sql.Keys?
    decreases q, |q.ops| + 1
  {
    NoLimitFromIsKeys(q, 0, Start(q, opts.tenant), depth, opts, c);
  }

  // ----- what a Derive means -----

  ghost function ByUser(keys: set<Value>): Row -> bool {
    e => !Cell(e, "user_id").Null? && Cell(e, "user_id") in keys
  }

  /** A validated Derive: it is last, and what precedes it narrows. */
  ghost predicate EndsInDerive(q: SegmentQuery) {
    && q.ops != []
    && q.ops[|q.ops| - 1].Derive?
    && forall i :: 0 <= i < |q.ops| - 1 ==> IsNarrowing(q.ops[i])
  }

  ghost function Narrowing(q: SegmentQuery): SegmentQuery
    requires q.ops != []
  {
    q.(ops := q.ops[..|q.ops| - 1])
  }

  /** The metric of the tenant's event rows whose user survives the narrowing, each row counted once. */
  ghost function DenoteMetric(eng: Engine, slice: Slice, rules: SuppressionRules, q: SegmentQuery): (Value, Value)
    requires EndsInDerive(q)
  {
    var op := q.ops[|q.ops| - 1];
    var survivors := Denote(eng, slice, rules, Narrowing(q));
    (Text(op.metricName), Aggregated(eng, MetricAggregate(op.metric),
      Filter(ByUser(survivors), SliceRows(slice, op.metric.event))))
  }

  // ----- the stripped segment compiles to the survivors' conjuncts -----

  function AccFrom(q: SegmentQuery, i: nat, n: nat, acc: Acc, opts: Options): Result<Acc, CompileError>
    requires i <= n <= |q.ops| && acc.conjuncts != []
    requires forall j :: i <= j < n ==> IsNarrowing(q.ops[j])
    ensures AccFrom(q, i, n, acc, opts).Ok? ==> AccFrom(q, i, n, acc, opts).value.conjuncts != []
    decreases n - i
  {
    if i == n then Ok(acc)
    else
      var f :- NarrowFrag(q.ops[i], q, opts);
      AccFrom(q, i + 1, n, Extend(acc, q.ops[i], f), opts)
  }

  lemma {:induction false} CompileThrough(q: SegmentQuery, i: nat, n: nat, acc: Acc, depth: nat, opts: Options)
    requires i <= n <= |q.ops| && acc.conjuncts != []
    requires forall j :: i <= j < n ==> IsNarrowing(q.ops[j])
    ensures CompileFrom(q, i, acc, depth, opts)
            == var a := AccFrom(q, i, n, acc, opts);
               if a.Ok? then CompileFrom(q, n, a.value, depth, opts) else Err(a.error)
    decreases n - i
  {
    if i < n {
      var f := NarrowFrag(q.ops[i], q, opts);
      hide NarrowFrag;
      if f.Ok? {
        CompileThrough(q, i + 1, n, Extend(acc, q.ops[i], f.value), depth, opts);
      }
    }
  }

  lemma {:induction false} SameNarrowing(q: SegmentQuery, r: SegmentQuery, i: nat, n: nat, acc: Acc, o1: Options,
                                         o2: Options)
    requires i <= n <= |q.ops| && n <= |r.ops| && q.ops[..n] == r.ops[..n] && acc.conjuncts != []
    requires q.key == r.key && q.asOf == r.asOf && o1.rules == o2.rules && o1.tenant == o2.tenant
    requires forall j :: i <= j < n ==> IsNarrowing(q.ops[j])
    ensures forall j :: i <= j < n ==> IsNarrowing(r.ops[j])
    ensures AccFrom(q, i, n, acc, o1) == AccFrom(r, i, n, acc, o2)
    decreases n - i
  {
    assert forall j :: 0 <= j < n ==> q.ops[j] == q.ops[..n][j] == r.ops[j];
    if i < n {
      assert NarrowFrag(q.ops[i], q, o1) == NarrowFrag(r.ops[i], r, o2);
      var f := NarrowFrag(q.ops[i], q, o1);
      hide NarrowFrag;
      if f.Ok? {
        SameNarrowing(q, r, i + 1, n, Extend(acc, q.ops[i], f.value), o1, o2);
      }
    }
  }

  lemma StripIsNarrowing(q: SegmentQuery)
    requires EndsInDerive(q)
    ensures StripDerive(q) == Narrowing(q)
  {
    FilterKeepsAllButLast(NotDerive(), q.ops);
  }

  function StrippedQuery(q: SegmentQuery, acc: Acc): Compiled
    requires acc.conjuncts != []
  {
    Compiled(Keys(BaseSelect(q, acc.conjuncts)), acc.params, acc.sources)
  }

  function MetricQuery(q: SegmentQuery, acc: Acc, tenant: string, limit: nat): Compiled
    requires acc.conjuncts != [] && q.ops != [] && q.ops[|q.ops| - 1].Derive?
  {
    var op := q.ops[|q.ops| - 1];
    Compiled(Metric(SurvivorCte(q, acc.conjuncts, limit), MetricAggregate(op.metric), Raw(op.metric.event),
             SurvivorJoin()),
             acc.params + [Text(op.metricName), Text(tenant)], acc.sources + [op.metric.event])
  }

  /** The survivor CTE and the counting query have the same conjuncts, parameters and source. */
  lemma SameConjuncts(q: SegmentQuery, opts: Options, limit: nat, acc: Result<Acc, CompileError>)
    requires EndsInDerive(q) && acc == AccFrom(q, 0, |q.ops| - 1, Start(q, opts.tenant), opts)
    ensures acc.Err? ==>
              && CompileSpec(StripDerive(q), 0, opts.(deriveLimit := None)) == Err(acc.error)
              && CompileSpec(q, 0, opts.(deriveLimit := Some(limit))) == Err(acc.error)
    ensures acc.Ok? ==>
              && CompileSpec(StripDerive(q), 0, opts.(deriveLimit := None)) == Ok(StrippedQuery(q, acc.value))
              && CompileSpec(q, 0, opts.(deriveLimit := Some(limit)))
                == Ok(MetricQuery(q, acc.value, opts.tenant, limit))
  {
    var n := |q.ops| - 1;
    StripIsNarrowing(q);
    var r, none, some := Narrowing(q), opts.(deriveLimit := None), opts.(deriveLimit := Some(limit));
    assert r.ops[..n] == q.ops[..n];
    hide NarrowFrag;
    SameNarrowing(q, r, 0, n, Start(q, opts.tenant), opts, none);
    SameNarrowing(q, q, 0, n, Start(q, opts.tenant), opts, some);
    CompileThrough(r, 0, n, Start(q, opts.tenant), 0, none);
    CompileThrough(q, 0, n, Start(q, opts.tenant), 0, some);
  }

  /** A LIMIT at the measured count truncates nothing; a smaller one would. */
  lemma LimitExact(eng: Engine, db: Db, q: SegmentQuery, conjuncts: seq<Cond>, ps: seq<Value>, limit: nat)
    requires conjuncts != [] && |ps| == Holes(Conj(conjuncts))
    ensures EvalQuery(eng, db, SurvivorCte(q, conjuncts, limit), ps) == EvalQuery(eng, db, BaseSelect(q, conjuncts), ps)
            <==> |EvalQuery(eng, db, BaseSelect(q, conjuncts), ps)| <= limit
  {
    hide Conj, EvalCond, Filter, Distinct, Map, Satisfies;
  }

  // ----- the join -----

  lemma UserJoinTrue(eng: Engine, db: Db, scope: Scope)
    requires E in scope && S in scope && TextOrNull(Cell(scope[E], "user_id")) && TextOrNull(Cell(scope[S], "user_id"))
    ensures EvalCond(eng, db, scope, UserJoin(), []) == True
            <==> Cell(scope[S], "user_id") == Cell(scope[E], "user_id") && !Cell(scope[S], "user_id").Null?
  {
  }

  lemma JoinsTrue(eng: Engine, db: Db, e: Row, v: Value, tenant: string)
    requires TypedRaw(e) && TextOrNull(v)
    ensures Holes(SurvivorJoin()) == 1
    ensures Joins(eng, db, e, SurvivorJoin(), [Text(tenant)])(v)
            <==> OfTenant(tenant)(e) && v == Cell(e, "user_id") && !v.Null?
  {
    RawTyped(e);
    var scope := map[E := e, S := KeyRow(v)];
    TenantEqTrue(eng, db, scope, E, tenant);
    UserJoinTrue(eng, db, scope);
    AndTrue(eng, db, scope, UserJoin(), TenantEq(E), [], [Text(tenant)]);
    hide EvalCond, OfTenant, TenantEq;
    assert [] + [Text(tenant)] == [Text(tenant)];
  }

  lemma RawTyped(r: Row)
    requires TypedRaw(r)
    ensures forall c :: TextOrNull(Cell(r, c))
  {
    forall c
      ensures TextOrNull(Cell(r, c))
    {
      assert c in r ==> TextOrNull(r[c]);
    }
  }

  lemma AtMostOne(s: seq<Value>, v: Value)
    requires NoDup(s) && forall x :: x in s ==> x == v
    ensures |s| == if v in s then 1 else 0
  {
    if s != [] {
      assert s[0] in s && s[|s| - 1] in s;
    }
  }

  /** Survivors are distinct, so each of their event rows joins exactly once. */
  lemma JoinOne(eng: Engine, db: Db, keys: seq<Value>, e: Row, tenant: string)
    requires NoDup(keys) && TypedRaw(e) && forall v :: v in keys ==> TextOrNull(v)
    ensures Holes(SurvivorJoin()) == 1
    ensures |Filter(Joins(eng, db, e, SurvivorJoin(), [Text(tenant)]), keys)|
            == if OfTenant(tenant)(e) && ByUser(Elements(keys))(e) then 1 else 0
  {
    JoinsTrue(eng, db, e, Null, tenant);
    var p := Joins(eng, db, e, SurvivorJoin(), [Text(tenant)]);
    forall v | v in keys
      ensures p(v) <==> OfTenant(tenant)(e) && v == Cell(e, "user_id") && !v.Null?
    {
      JoinsTrue(eng, db, e, v, tenant);
    }
    FilterNoDup(p, keys);
    FilterHas(p, keys);
    hide Joins, OfTenant, Filter, SurvivorJoin, EvalCond;
    AtMostOne(Filter(p, keys), Cell(e, "user_id"));
  }

  lemma {:induction false} JoinIsFilter(eng: Engine, db: Db, keys: seq<Value>, events: seq<Row>, tenant: string)
    requires NoDup(keys) && forall v :: v in keys ==> TextOrNull(v)
    requires forall e :: e in events ==> TypedRaw(e)
    ensures Holes(SurvivorJoin()) == 1
    ensures JoinRows(eng, db, keys, events, SurvivorJoin(), [Text(tenant)])
            == Filter(ByUser(Elements(keys)), TenantRows(events, tenant))
  {
    JoinOne(eng, db, keys, map[], tenant);
    if events == [] {
      return;
    }
    hide *;
    var e, rest := events[0], events[1..];
    HeadTail(events);
    JoinOne(eng, db, keys, e, tenant);
    JoinIsFilter(eng, db, keys, rest, tenant);
    JoinRowsCons(eng, db, keys, e, rest, tenant);
    TenantFilterCons(ByUser(Elements(keys)), e, rest, tenant);
  }

  lemma TenantFilterCons(p: Row -> bool, e: Row, rest: seq<Row>, tenant: string)
    ensures Filter(p, TenantRows([e] + rest, tenant))
            == if OfTenant(tenant)(e) && p(e) then [e] + Filter(p, TenantRows(rest, tenant))
              else Filter(p, TenantRows(rest, tenant))
  {
    var events := [e] + rest;
    assert events[0] == e && events[1..] == rest;
    FilterFilter(p, OfTenant(tenant), events);
    FilterFilter(p, OfTenant(tenant), rest);
    assert Filter(Both(OfTenant(tenant), p), events)
           == (if OfTenant(tenant)(e) && p(e) then [e] else []) + Filter(Both(OfTenant(tenant), p), rest);
  }

  lemma JoinRowsCons(eng: Engine, db: Db, keys: seq<Value>, e: Row, rest: seq<Row>, tenant: string)
    requires Holes(SurvivorJoin()) == 1
    ensures var n := |Filter(Joins(eng, db, e, SurvivorJoin(), [Text(tenant)]), keys)|;
            var tail := JoinRows(eng, db, keys, rest, SurvivorJoin(), [Text(tenant)]);
            && (n == 0 ==> JoinRows(eng, db, keys, [e] + rest, SurvivorJoin(), [Text(tenant)]) == tail)
            && (n == 1 ==> JoinRows(eng, db, keys, [e] + rest, SurvivorJoin(), [Text(tenant)]) == [e] + tail)
  {
    var events := [e] + rest;
    assert events[0] == e && events[1..] == rest;
    hide Joins, SurvivorJoin, Filter;
    var n := |Filter(Joins(eng, db, e, SurvivorJoin(), [Text(tenant)]), keys)|;
    assert n == 1 ==> seq(n, _ => e) == [e];
    assert n == 0 ==> seq(n, _ => e) == [];
  }

  // ----- exactness -----

  lemma KeysTyped(eng: Engine, db: Db, q: SegmentQuery, acc: Acc, i: nat, opts: Options)
    requires i <= |q.ops| && Typed(db) && AccMeans(eng, db, q, acc, i, opts)
    ensures forall v :: v in EvalQuery(eng, db, BaseSelect(q, acc.conjuncts), acc.params) ==> TextOrNull(v)
  {
    SelectedKeys(eng, db, q, acc, i, opts);
    SliceRowsAre(db, opts.tenant, q.source);
    TenantRowsHave(RawRows(db, q.source), opts.tenant);
    forall r | r in RawRows(db, q.source)
      ensures TextOrNull(Cell(r, q.key))
    {
      RawCellTyped(db, q.source, r, q.key);
    }
    hide EvalQuery, AccMeans, HoldsUpTo, SliceOf, Typed, RawRows, Conj;
    var keys := EvalQuery(eng, db, BaseSelect(q, acc.conjuncts), acc.params);
    assert forall v :: v in keys ==> v in Elements(keys);
  }

  lemma {:induction false} AccFromMeans(eng: Engine, db: Db, q: SegmentQuery, i: nat, n: nat, acc: Acc, opts: Options)
    requires i <= n <= |q.ops| && Context(eng, db, opts) && NoShadow(q)
    requires forall j :: i <= j < n ==> IsNarrowing(q.ops[j])
    requires AccMeans(eng, db, q, acc, i, opts) && AccFrom(q, i, n, acc, opts).Ok?
    ensures AccMeans(eng, db, q, AccFrom(q, i, n, acc, opts).value, n, opts)
    decreases n - i
  {
    if i < n {
      hide NarrowFrag, AccMeans, Context;
      var f := NarrowFrag(q.ops[i], q, opts).value;
      ExtendMeans(eng, db, q, acc, i, opts, f);
      AccFromMeans(eng, db, q, i + 1, n, Extend(acc, q.ops[i], f), opts);
    }
  }

  lemma MetricParts(eng: Engine, db: Db, survivor: Query, agg: Aggregate, event: Dataset, on: Cond, ps: seq<Value>,
                    name: Value, pt: seq<Value>)
    requires |ps| == QueryHoles(survivor) && |pt| == Holes(on)
    ensures var s := Metric(survivor, agg, Raw(event), on);
            && |ps + [name] + pt| == StatementHoles(s)
            && EvalMetric(eng, db, s, ps + [name] + pt)
               == (name, Aggregated(eng, agg, JoinRows(eng, db, EvalQuery(eng, db, survivor, ps), RawRows(db, event),
                 on, pt)))
  {
    var all := ps + [name] + pt;
    assert all[..|ps|] == ps && all[|ps|] == name && all[|ps| + 1..] == pt;
  }

  lemma RawRowsTyped(db: Db, d: Dataset)
    requires Typed(db)
    ensures forall r :: r in RawRows(db, d) ==> TypedRaw(r)
  {
    forall r | r in RawRows(db, d)
      ensures TypedRaw(r)
    {
      RawRowTyped(db, d, r);
    }
  }

  lemma MetricEvaluates(eng: Engine, db: Db, q: SegmentQuery, acc: Acc, opts: Options, limit: nat)
    requires EndsInDerive(q) && Typed(db) && AccMeans(eng, db, q, acc, |q.ops| - 1, opts)
    requires |EvalQuery(eng, db, BaseSelect(q, acc.conjuncts), acc.params)| <= limit
    ensures var m := MetricQuery(q, acc, opts.tenant, limit);
            var op := q.ops[|q.ops| - 1];
            var survivors := KeysUpTo(eng, SliceOf(db, opts.tenant), opts.rules, q, |q.ops| - 1);
            && |m.params| == StatementHoles(m.sql)
            && EvalMetric(eng, db, m.sql, m.params)
               == (Text(op.metricName),
                   Aggregated(eng, MetricAggregate(op.metric),
                              Filter(ByUser(survivors), SliceRows(SliceOf(db, opts.tenant), op.metric.event))))
  {
    var op := q.ops[|q.ops| - 1];
    var keys := EvalQuery(eng, db, BaseSelect(q, acc.conjuncts), acc.params);
    assert acc.params + [Text(op.metricName), Text(opts.tenant)]
           == acc.params + [Text(op.metricName)] + [Text(opts.tenant)];
    hide EvalQuery, EvalMetric, EvalCond, Conj, KeysUpTo, SliceOf, SliceRows, Typed, Filter, ByUser, Aggregated,
         SurvivorJoin, JoinRows, RawRows,
         TenantRows, HoldsUpTo, TextOrNull, TypedRaw;
    LimitExact(eng, db, q, acc.conjuncts, acc.params, limit);
    SelectedKeys(eng, db, q, acc, |q.ops| - 1, opts);
    KeysTyped(eng, db, q, acc, |q.ops| - 1, opts);
    RawRowsTyped(db, op.metric.event);
    JoinIsFilter(eng, db, keys, RawRows(db, op.metric.event), opts.tenant);
    SliceRowsAre(db, opts.tenant, op.metric.event);
    MetricParts(eng, db, SurvivorCte(q, acc.conjuncts, limit), MetricAggregate(op.metric), op.metric.event,
                SurvivorJoin(),
                acc.params, Text(op.metricName), [Text(opts.tenant)]);
  }

  lemma KeysUpToNarrowing(eng: Engine, slice: Slice, rules: SuppressionRules, q: SegmentQuery)
    requires EndsInDerive(q)
    ensures Denote(eng, slice, rules, Narrowing(q)) == KeysUpTo(eng, slice, rules, q, |q.ops| - 1)
  {
    var r, n := Narrowing(q), |q.ops| - 1;
    forall row
      ensures HoldsUpTo(eng, slice, rules, r, n, row) <==> HoldsUpTo(eng, slice, rules, q, n, row)
    {
      assert forall j :: 0 <= j < n ==> (Holds(eng, slice, rules, r, r.ops[j], row)
             <==> Holds(eng, slice, rules, q, q.ops[j], row));
      hide Holds;
    }
    hide HoldsUpTo;
  }

  /** A Derive that the engine lets through returns exactly its metric, over at most `cap` survivors. */
  lemma DeriveExact(eng: Engine, db: Db, q: SegmentQuery, opts: Options, cap: nat, c: Compiled)
    requires Context(eng, db, opts) && NoShadow(q) && EndsInDerive(q)
    requires CompileAndCheck(eng, db, q, opts, cap) == Ok(c)
    ensures c.sql.Metric? && |c.params| == StatementHoles(c.sql)
    ensures EvalMetric(eng, db, c.sql, c.params) == DenoteMetric(eng, SliceOf(db, opts.tenant), opts.rules, q)
    ensures |Denote(eng, SliceOf(db, opts.tenant), opts.rules, Narrowing(q))| <= cap
  {
    var n := |q.ops| - 1;
    var acc := AccFrom(q, 0, n, Start(q, opts.tenant), opts);
    var limit := SurvivorLimit(eng, db, q, opts, cap).value;
    SameConjuncts(q, opts, limit, acc);
    StartMeans(eng, db, q, opts);
    AccFromMeans(eng, db, q, 0, n, Start(q, opts.tenant), opts);
    SelectedKeys(eng, db, q, acc.value, n, opts);
    MetricEvaluates(eng, db, q, acc.value, opts, limit);
    KeysUpToNarrowing(eng, SliceOf(db, opts.tenant), opts.rules, q);
    NoDupSize(EvalQuery(eng, db, BaseSelect(q, acc.value.conjuncts), acc.value.params));
    hide EvalQuery, EvalMetric, Denote, KeysUpTo, AccMeans, CompileSpec, Aggregated, SliceOf, Context, Filter, NoShadow;
  }

  /** It is refused exactly when the survivors exceed the cap. */
  lemma DeriveRefused(eng: Engine, db: Db, q: SegmentQuery, opts: Options, cap: nat)
    requires Context(eng, db, opts) && NoShadow(q) && EndsInDerive(q)
    requires CompileSpec(StripDerive(q), 0, opts.(deriveLimit := None)).Ok?
    ensures CompileAndCheck(eng, db, q, opts, cap) == Err(SurvivorUnbounded)
            <==> |Denote(eng, SliceOf(db, opts.tenant), opts.rules, Narrowing(q))| > cap
  {
    var n := |q.ops| - 1;
    var acc := AccFrom(q, 0, n, Start(q, opts.tenant), opts);
    SameConjuncts(q, opts, 0, acc);
    StartMeans(eng, db, q, opts);
    AccFromMeans(eng, db, q, 0, n, Start(q, opts.tenant), opts);
    var count := |EvalQuery(eng, db, BaseSelect(q, acc.value.conjuncts), acc.value.params)|;
    SameConjuncts(q, opts, count, acc);
    SelectedKeys(eng, db, q, acc.value, n, opts);
    KeysUpToNarrowing(eng, SliceOf(db, opts.tenant), opts.rules, q);
    NoDupSize(EvalQuery(eng, db, BaseSelect(q, acc.value.conjuncts), acc.value.params));
    hide EvalQuery, Denote, KeysUpTo, AccMeans, CompileSpec, SliceOf, Context, Filter, NoShadow;
  }
}
