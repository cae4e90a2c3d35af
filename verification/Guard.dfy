/** The catalogue guard: what it checks covers what the SQL reads. */
module Guard {
  import opened Sequences
  import opened Values
  import opened Ast
  import opened Sql
  import opened Compiler
  import opened CompilerProof
  import opened Binding

  datatype ColumnRef = ColumnRef(dataset: Dataset, column: string)

  // ----- what a segment refers to -----

  function PredicateColumn(d: Dataset, p: Option<Predicate>): seq<ColumnRef> {
    if p.Some? then [ColumnRef(d, p.value.column)] else []
  }

  function OpColumns(q: SegmentQuery, op: Op): seq<ColumnRef>
    decreases op, 0
  {
    match op
    case FilterOp(p) => [ColumnRef(q.source, p.column)]
    case Recency(m) => [ColumnRef(m.event, m.userKey), ColumnRef(m.event, m.tsColumn)]
        + PredicateColumn(m.event, m.pred)
    case Lapsed(m) => [ColumnRef(m.event, m.userKey), ColumnRef(m.event, m.tsColumn)] + PredicateColumn(m.event, m.pred)
    case SetOp(_, other) => ReferencedColumns(other)
    case Derive(_, metric) =>
      [ColumnRef(metric.event, "user_id")]
      + (if MetricColumn(metric).Some? then [ColumnRef(metric.event, MetricColumn(metric).value)] else [])
    case Characterize(event, ts, monetary, category) =>
      [ColumnRef(event, "user_id"), ColumnRef(event, ts), ColumnRef(event, monetary), ColumnRef(event, category)]
    case _ => []
  }

  function ColumnsUpTo(q: SegmentQuery, n: nat): seq<ColumnRef>
    requires n <= |q.ops|
    decreases q, 0, n
  {
    if n == 0 then [ColumnRef(q.source, q.key)] else ColumnsUpTo(q, n - 1) + OpColumns(q, q.ops[n - 1])
  }

  function ReferencedColumns(q: SegmentQuery): seq<ColumnRef>
    decreases q, 1
  {
    ColumnsUpTo(q, |q.ops|)
  }

  function OpFeatures(op: Op): seq<string>
    decreases op, 0
  {
    match op
    case Feature(name, _, _) => [name]
    case SetOp(_, other) => ReferencedFeatures(other)
    case _ => []
  }

  function FeaturesUpTo(q: SegmentQuery, n: nat): seq<string>
    requires n <= |q.ops|
    decreases q, 0, n
  {
    if n == 0 then [] else FeaturesUpTo(q, n - 1) + OpFeatures(q.ops[n - 1])
  }

  function ReferencedFeatures(q: SegmentQuery): seq<string>
    decreases q, 1
  {
    FeaturesUpTo(q, |q.ops|)
  }

  class ColumnVec {
    var items: seq<ColumnRef>

    constructor ()
      ensures items == []
    {
      items := [];
    }
  }

  /** `collect_columns` as it runs: recursion that pushes into one vector. */
  method CollectColumns(q: SegmentQuery, out: ColumnVec)
    modifies out
    ensures out.items == old(out.items) + ReferencedColumns(q)
    decreases q
  {
    out.items := out.items + [ColumnRef(q.source, q.key)];
    var i := 0;
    while i < |q.ops|
      invariant 0 <= i <= |q.ops|
      invariant out.items == old(out.items) + ColumnsUpTo(q, i)
    {
      var op := q.ops[i];
      Assoc(old(out.items), ColumnsUpTo(q, i), OpColumns(q, op));
      if op.SetOp? {
        CollectColumns(op.other, out);
      } else {
        out.items := out.items + OpColumns(q, op);
      }
      hide ColumnsUpTo;
      i := i + 1;
    }
  }

  // ----- what a statement reads -----

  type Tables = map<Alias, Table>

  function ScalarColumns(tables: Tables, e: Scalar): set<ColumnRef> {
    match e
    case Column(a, name) => if a in tables && tables[a].Raw? then {ColumnRef(tables[a].dataset, name)} else {}
    case Timestamp(arg) => ScalarColumns(tables, arg)
    case _ => {}
  }

  function GroupColumns(table: Table, h: Having): set<ColumnRef> {
    if table.Raw? && !h.NoGroup? then set c | c in h.cols :: ColumnRef(table.dataset, c) else {}
  }

  /** The raw columns a condition mentions, aliases resolved. */
  function CondColumns(tables: Tables, c: Cond): set<ColumnRef>
    decreases c
  {
    match c
    case Compare(_, l, r) => ScalarColumns(tables, l) + ScalarColumns(tables, r)
    case InHoles(_, subject, _) => ScalarColumns(tables, subject)
    case InLiterals(subject, _) => ScalarColumns(tables, subject)
    case And(a, b) => CondColumns(tables, a) + CondColumns(tables, b)
    case Exists(_, table, alias, where, having) => CondColumns(tables[alias := table], where)
        + GroupColumns(table, having)
    case _ => {}
  }

  function CondTables(c: Cond): set<Dataset> {
    match c
    case And(a, b) => CondTables(a) + CondTables(b)
    case Exists(_, table, _, where, _) => TableSet(table) + CondTables(where)
    case _ => {}
  }

  function TableSet(table: Table): set<Dataset> {
    if table.Raw? then {table.dataset} else {}
  }

  function QueryColumns(q: Query): set<ColumnRef> {
    match q
    case SelectKeys(table, key, where, _) =>
      (if table.Raw? then {ColumnRef(table.dataset, key)} else {}) + CondColumns(map[Base := table], where)
    case Combine(_, l, r) => QueryColumns(l) + QueryColumns(r)
  }

  function QueryTables(q: Query): set<Dataset> {
    match q
    case SelectKeys(table, _, where, _) => TableSet(table) + CondTables(where)
    case Combine(_, l, r) => QueryTables(l) + QueryTables(r)
  }

  function AggregateColumns(agg: Aggregate, event: Table): set<ColumnRef> {
    if agg.CountRows? || !event.Raw? then {} else {ColumnRef(event.dataset, agg.column)}
  }

  function StatementColumns(s: Statement): set<ColumnRef> {
    match s
    case Keys(q) => QueryColumns(q)
    case Metric(survivor, agg, event, on) =>
      QueryColumns(survivor) + AggregateColumns(agg, event) + CondColumns(map[E := event], on)
    case Mismatched(_, l, r) => QueryColumns(l) + StatementColumns(r)
  }

  function StatementTables(s: Statement): set<Dataset> {
    match s
    case Keys(q) => QueryTables(q)
    case Metric(survivor, _, event, on) => QueryTables(survivor) + TableSet(event) + CondTables(on)
    case Mismatched(_, l, r) => QueryTables(l) + StatementTables(r)
  }

  // ----- coverage -----

  /** Every column is one the segment refers to, or the tenant column the compiler adds. */
  ghost predicate Covered(columns: set<ColumnRef>, refs: seq<ColumnRef>) {
    forall c :: c in columns ==> c.column == "tenant_id" || c in refs
  }

  lemma ConjColumns3(t: Tables, a: Cond, b: Cond, c: Cond)
    ensures CondColumns(t, Conj([a, b, c])) == CondColumns(t, a) + CondColumns(t, b) + CondColumns(t, c)
    ensures CondTables(Conj([a, b, c])) == CondTables(a) + CondTables(b) + CondTables(c)
  {
    Conj3(a, b, c);
    assert CondColumns(t, And(And(a, b), c)) == CondColumns(t, And(a, b)) + CondColumns(t, c);
  }

  lemma ConjColumns4(t: Tables, a: Cond, b: Cond, c: Cond, d: Cond)
    ensures CondColumns(t, Conj([a, b, c, d])) == CondColumns(t, a) + CondColumns(t, b) + CondColumns(t, c)
            + CondColumns(t, d)
    ensures CondTables(Conj([a, b, c, d])) == CondTables(a) + CondTables(b) + CondTables(c) + CondTables(d)
  {
    Conj4IsAnd(a, b, c, d);
    hide Conj;
    ConjColumns3(t, a, b, c);
  }

  lemma PredicateColumns(t: Tables, alias: Alias, p: Predicate, f: Frag)
    requires PredicateFrag(alias, p) == Ok(f)
    ensures CondColumns(t, f.cond) <= ScalarColumns(t, Column(alias, p.column))
    ensures CondTables(f.cond) == {}
  {
  }

  /** The columns an event subquery may read: the event's own, and the base key. */
  function EventRefs(q: SegmentQuery, m: EventMatch): seq<ColumnRef> {
    [ColumnRef(q.source, q.key), ColumnRef(m.event, m.userKey), ColumnRef(m.event, m.tsColumn)]
      + PredicateColumn(m.event, m.pred)
  }

  lemma EventColumns(q: SegmentQuery, m: EventMatch, sym: Symbol, tenant: string, f: Frag)
    requires EventFrag(m, q.key, sym, tenant) == Ok(f)
    ensures Covered(CondColumns(map[Base := Raw(q.source), E := Raw(m.event)], f.cond), EventRefs(q, m))
    ensures CondTables(f.cond) == {}
  {
    var t: Tables := map[Base := Raw(q.source), E := Raw(m.event)];
    var key, w := EventKeyEq(m, q.key), WindowCond(m, sym);
    assert CondColumns(t, key) == {ColumnRef(m.event, m.userKey), ColumnRef(q.source, q.key)};
    WindowColumns(t, m, sym);
    assert CondColumns(t, TenantEq(E)) == {ColumnRef(m.event, "tenant_id")};
    if m.pred.None? {
      ConjColumns3(t, key, TenantEq(E), w);
    } else {
      var p := PredicateFrag(E, m.pred.value).value;
      PredicateColumns(t, E, m.pred.value, p);
      ConjColumns4(t, key, TenantEq(E), p.cond, w);
    }
    hide Conj, CondColumns, PredicateFrag, WindowCond, EventKeyEq;
  }

  lemma WindowColumns(t: Tables, m: EventMatch, sym: Symbol)
    requires E in t && t[E] == Raw(m.event)
    ensures CondColumns(t, WindowCond(m, sym)) == {ColumnRef(m.event, m.tsColumn)}
            && CondTables(WindowCond(m, sym)) == {}
  {
    assert ScalarColumns(t, Column(E, m.tsColumn)) == {ColumnRef(m.event, m.tsColumn)};
    assert ScalarColumns(t, Timestamp(Column(E, m.tsColumn))) == {ColumnRef(m.event, m.tsColumn)};
  }

  lemma EventExistsColumns(q: SegmentQuery, m: EventMatch, sym: Symbol, tenant: string, negated: bool, f: Frag)
    requires EventFrag(m, q.key, sym, tenant) == Ok(f)
    ensures var c := Exists(negated, Raw(m.event), E, f.cond, NoGroup);
            Covered(CondColumns(map[Base := Raw(q.source)], c), EventRefs(q, m)) && CondTables(c) == {m.event}
  {
    EventColumns(q, m, sym, tenant, f);
    assert map[Base := Raw(q.source)][E := Raw(m.event)] == map[Base := Raw(q.source), E := Raw(m.event)];
    hide EventFrag, EventRefs;
  }

  // A condition over a table that is not raw mentions no raw column but the base key.

  lemma NoRepeatColumns(q: SegmentQuery)
    ensures CondColumns(map[Base := Raw(q.source)], NoRepeatCond(q.key)) <= {ColumnRef(q.source, q.key)}
    ensures CondTables(NoRepeatCond(q.key)) == {}
  {
    var t: Tables := map[Base := Raw(q.source)][S := Suppression];
    var key, c := SuppressionKeyEq(q.key), Compare(SymEq, Column(S, "campaign_id"), Hole);
    var a := InLiterals(Column(S, "action"), [Text("targeted"), Text("delivered")]);
    ConjColumns4(t, key, TenantEq(S), c, a);
    assert CondColumns(t, key) <= {ColumnRef(q.source, q.key)};
    assert CondColumns(t, TenantEq(S)) == CondColumns(t, c) == CondColumns(t, a) == {};
    hide Conj;
  }

  lemma FrequencyColumns(q: SegmentQuery, days: nat)
    ensures CondColumns(map[Base := Raw(q.source)], FrequencyCond(q.key, days)) <= {ColumnRef(q.source, q.key)}
    ensures CondTables(FrequencyCond(q.key, days)) == {}
  {
    var t: Tables := map[Base := Raw(q.source)][S := Suppression];
    var key, a := SuppressionKeyEq(q.key), Compare(SymEq, Column(S, "action"), Literal(Text("targeted")));
    var w := Compare(SymGe, Column(S, "occurred_ts"), NowMinusDays(days));
    ConjColumns4(t, key, TenantEq(S), a, w);
    assert CondColumns(t, key) <= {ColumnRef(q.source, q.key)};
    assert CondColumns(t, TenantEq(S)) == CondColumns(t, a) == CondColumns(t, w) == {};
    hide Conj;
  }

  lemma ExcludeColumns(q: SegmentQuery, campaignId: string, opts: Options)
    ensures var c := ExcludeFrag(campaignId, q.key, opts).cond;
            Covered(CondColumns(map[Base := Raw(q.source)], c), [ColumnRef(q.source, q.key)]) && CondTables(c) == {}
  {
    NoRepeatColumns(q);
    if opts.rules.frequencyCap.Some? {
      FrequencyColumns(q, opts.rules.frequencyCap.value.windowDays);
    }
    hide NoRepeatCond, FrequencyCond;
  }

  lemma PointInTimeColumns(q: SegmentQuery, sym: Symbol)
    ensures CondColumns(map[Base := Raw(q.source)], PointInTimeCond(q.key, sym)) <= {ColumnRef(q.source, q.key)}
    ensures CondTables(PointInTimeCond(q.key, sym)) == {}
  {
    var t: Tables := map[Base := Raw(q.source)][F := FeatureStore];
    var key, n := FeatureKeyEq(q.key), Compare(SymEq, Column(F, "feature_name"), Hole);
    var w := Compare(SymLe, Column(F, "as_of_ts"), Timestamp(Hole));
    ConjColumns4(t, key, TenantEq(F), n, w);
    assert CondColumns(t, key) <= {ColumnRef(q.source, q.key)};
    assert ScalarColumns(t, Hole) == {} && ScalarColumns(t, Timestamp(Hole)) == {};
    assert CondColumns(t, TenantEq(F)) == CondColumns(t, n) == CondColumns(t, w) == {};
    hide Conj;
  }

  lemma WideColumns(q: SegmentQuery, family: string, short: string, sym: Symbol)
    ensures CondColumns(map[Base := Raw(q.source)], WideCond(q.key, family, short, sym)) <= {ColumnRef(q.source, q.key)}
    ensures CondTables(WideCond(q.key, family, short, sym)) == {}
  {
    var t: Tables := map[Base := Raw(q.source)][F := FeatureWide(family)];
    var key, c := FeatureKeyEq(q.key), Compare(sym, Column(F, short), Hole);
    ConjColumns3(t, key, TenantEq(F), c);
    assert CondColumns(t, key) <= {ColumnRef(q.source, q.key)};
    assert CondColumns(t, TenantEq(F)) == CondColumns(t, c) == {};
    hide Conj;
  }

  lemma FeatureColumns(q: SegmentQuery, name: string, op: Cmp, value: real, tenant: string, f: Frag)
    requires FeatureFrag(name, op, value, q.key, tenant, q.asOf) == Ok(f)
    ensures Covered(CondColumns(map[Base := Raw(q.source)], f.cond), [ColumnRef(q.source, q.key)])
            && CondTables(f.cond) == {}
  {
    var (family, short) := SplitFeatureName(name).value;
    PointInTimeColumns(q, FeatureSymbol(op).value);
    WideColumns(q, family, short, FeatureSymbol(op).value);
    hide PointInTimeCond, WideCond;
  }

  lemma NarrowColumns(q: SegmentQuery, op: Op, opts: Options, f: Frag)
    requires IsNarrowing(op) && NarrowFrag(op, q, opts) == Ok(f)
    ensures Covered(CondColumns(map[Base := Raw(q.source)], f.cond), [ColumnRef(q.source, q.key)] + OpColumns(q, op))
    ensures CondTables(f.cond) == Elements(OpSources(op))
  {
    match op
    case FilterOp(p) =>
      PredicateColumns(map[Base := Raw(q.source)], Base, p, f);
    case Recency(m) =>
      EventExistsColumns(q, m, SymGe, opts.tenant, false, EventFrag(m, q.key, SymGe, opts.tenant).value);
      hide EventFrag, CondColumns;
    case Lapsed(m) =>
      var before, recent := EventFrag(m, q.key, SymLt, opts.tenant).value,
          EventFrag(m, q.key, SymGe, opts.tenant).value;
      EventExistsColumns(q, m, SymLt, opts.tenant, false, before);
      EventExistsColumns(q, m, SymGe, opts.tenant, true, recent);
      hide EventFrag;
    case Feature(name, cmp, value) =>
      FeatureColumns(q, name, cmp, value, opts.tenant, f);
      hide FeatureFrag, CondColumns;
    case Exclude(campaignId) =>
      ExcludeColumns(q, campaignId, opts);
      hide ExcludeFrag, CondColumns;
  }

  /** The columns and tables read so far are covered by the ops compiled so far. */
  ghost predicate AccCovered(q: SegmentQuery, acc: Acc, i: nat)
    requires i <= |q.ops|
  {
    && acc.conjuncts != []
    && Covered(CondColumns(map[Base := Raw(q.source)], Conj(acc.conjuncts)), ColumnsUpTo(q, i))
    && CondTables(Conj(acc.conjuncts)) + {q.source} == Elements(acc.sources)
  }

  lemma {:induction false} KeyReferenced(q: SegmentQuery, i: nat)
    requires i <= |q.ops|
    ensures ColumnRef(q.source, q.key) in ColumnsUpTo(q, i)
  {
    if i > 0 {
      KeyReferenced(q, i - 1);
    }
  }

  lemma ExtendCovered(q: SegmentQuery, acc: Acc, i: nat, opts: Options, f: Frag)
    requires i < |q.ops| && AccCovered(q, acc, i) && IsNarrowing(q.ops[i]) && NarrowFrag(q.ops[i], q, opts) == Ok(f)
    ensures AccCovered(q, Extend(acc, q.ops[i], f), i + 1)
  {
    NarrowColumns(q, q.ops[i], opts, f);
    KeyReferenced(q, i);
    hide NarrowFrag;
    assert (acc.conjuncts + [f.cond])[..|acc.conjuncts|] == acc.conjuncts;
    assert Conj(acc.conjuncts + [f.cond]) == And(Conj(acc.conjuncts), f.cond);
    assert ColumnsUpTo(q, i + 1) == ColumnsUpTo(q, i) + OpColumns(q, q.ops[i]);
    assert Elements(acc.sources + OpSources(q.ops[i])) == Elements(acc.sources) + Elements(OpSources(q.ops[i]));
  }

  lemma StartCovered(q: SegmentQuery, tenant: string)
    ensures AccCovered(q, Start(q, tenant), 0)
  {
    assert Conj([TenantEq(Base)]) == TenantEq(Base);
    assert CondColumns(map[Base := Raw(q.source)], TenantEq(Base)) == {ColumnRef(q.source, "tenant_id")};
  }

  lemma UpToSubset(q: SegmentQuery, i: nat, n: nat)
    requires i <= n <= |q.ops|
    ensures forall c :: c in ColumnsUpTo(q, i) ==> c in ColumnsUpTo(q, n)
    decreases n
  {
    if i < n {
      UpToSubset(q, i, n - 1);
    }
  }

  /** Coverage of one compiled statement: columns are referenced, and sources are exactly the raw tables read. */
  ghost predicate Guarded(q: SegmentQuery, c: Compiled) {
    Covered(StatementColumns(c.sql), ReferencedColumns(q)) && StatementTables(c.sql) == Elements(c.sources)
  }

  lemma BaseCovered(q: SegmentQuery, acc: Acc, i: nat, limit: Option<nat>)
    requires i <= |q.ops| && AccCovered(q, acc, i)
    ensures var s := SelectKeys(Raw(q.source), q.key, Conj(acc.conjuncts), limit);
            Covered(QueryColumns(s), ReferencedColumns(q)) && QueryTables(s) == Elements(acc.sources)
  {
    KeyReferenced(q, |q.ops|);
    UpToSubset(q, i, |q.ops|);
    hide Conj, ColumnsUpTo, CondColumns;
  }

  lemma DeriveCovered(q: SegmentQuery, acc: Acc, i: nat, tenant: string, limit: nat)
    requires i < |q.ops| && AccCovered(q, acc, i) && q.ops[i].Derive?
    ensures var op := q.ops[i];
            Guarded(q, Compiled(Metric(SurvivorCte(q, acc.conjuncts, limit), MetricAggregate(op.metric),
                    Raw(op.metric.event), SurvivorJoin()),
                                acc.params + [Text(op.metricName), Text(tenant)], acc.sources + [op.metric.event]))
  {
    var op := q.ops[i];
    BaseCovered(q, acc, i, Some(limit));
    UpToSubset(q, i + 1, |q.ops|);
    var t: Tables := map[E := Raw(op.metric.event)];
    assert CondColumns(t, UserJoin()) == {ColumnRef(op.metric.event, "user_id")};
    assert CondColumns(t, TenantEq(E)) == {ColumnRef(op.metric.event, "tenant_id")};
    assert CondColumns(t, SurvivorJoin()) == {ColumnRef(op.metric.event, "user_id"),
           ColumnRef(op.metric.event, "tenant_id")};
    assert ColumnsUpTo(q, i + 1) == ColumnsUpTo(q, i) + OpColumns(q, op);
    assert ColumnRef(op.metric.event, "user_id") in OpColumns(q, op);
    assert forall c :: c in AggregateColumns(MetricAggregate(op.metric), Raw(op.metric.event))
            ==> c in OpColumns(q, op);
    assert CondTables(SurvivorJoin()) == {};
    assert Elements(acc.sources + [op.metric.event]) == Elements(acc.sources) + {op.metric.event};
    hide Conj, ColumnsUpTo, QueryColumns, SurvivorJoin, AggregateColumns, MetricAggregate, OpColumns, CondColumns,
         QueryTables;
  }

  lemma SetOpCovered(q: SegmentQuery, acc: Acc, i: nat, c: Compiled)
    requires i + 1 == |q.ops| && AccCovered(q, acc, i) && q.ops[i].SetOp? && Guarded(q.ops[i].other, c)
    ensures Guarded(q, Compiled(Combined(q.ops[i].kind, BaseSelect(q, acc.conjuncts), c.sql), acc.params + c.params,
            acc.sources + c.sources))
  {
    BaseCovered(q, acc, i, None);
    assert ColumnsUpTo(q, i + 1) == ColumnsUpTo(q, i) + OpColumns(q, q.ops[i]);
    assert OpColumns(q, q.ops[i]) == ReferencedColumns(q.ops[i].other);
    assert ReferencedColumns(q) == ColumnsUpTo(q, i) + ReferencedColumns(q.ops[i].other);
    assert Elements(acc.sources + c.sources) == Elements(acc.sources) + Elements(c.sources);
    hide ReferencedColumns, Conj, ColumnsUpTo, AccCovered;
  }

  lemma {:induction false} FromGuarded(q: SegmentQuery, i: nat, acc: Acc, depth: nat, opts: Options, c: Compiled)
    requires i <= |q.ops| && AccCovered(q, acc, i) && CompileFrom(q, i, acc, depth, opts) == Ok(c)
    ensures Guarded(q, c)
    decreases q, |q.ops| - i
  {
    hide AccCovered, Guarded, NarrowFrag, SurvivorJoin, MetricAggregate;
    if i == |q.ops| {
      BaseGuarded(q, acc);
    } else if q.ops[i].SetOp? {
      var inner := CompileSpec(q.ops[i].other, depth + 1, opts).value;
      CompileGuarded(q.ops[i].other, depth + 1, opts, inner);
      SetOpCovered(q, acc, i, inner);
    } else if q.ops[i].Derive? {
      DeriveCovered(q, acc, i, opts.tenant, opts.deriveLimit.value);
    } else {
      var f := NarrowFrag(q.ops[i], q, opts).value;
      ExtendCovered(q, acc, i, opts, f);
      FromGuarded(q, i + 1, Extend(acc, q.ops[i], f), depth, opts, c);
    }
  }

  lemma BaseGuarded(q: SegmentQuery, acc: Acc)
    requires AccCovered(q, acc, |q.ops|)
    ensures Guarded(q, Compiled(Keys(BaseSelect(q, acc.conjuncts)), acc.params, acc.sources))
  {
    BaseCovered(q, acc, |q.ops|, None);
    hide Conj, ReferencedColumns, AccCovered;
  }

  /** At every depth: no statement reads a raw column the guard did not check, and freshness sees every raw table
      read. */
  lemma {:induction false} CompileGuarded(q: SegmentQuery, depth: nat, opts: Options, c: Compiled)
    requires CompileSpec(q, depth, opts) == Ok(c)
    ensures Guarded(q, c)
    decreases q, |q.ops| + 1
  {
    StartCovered(q, opts.tenant);
    hide AccCovered, Guarded;
    FromGuarded(q, 0, Start(q, opts.tenant), depth, opts, c);
  }

  // ----- feature names -----

  /** The feature a comparison on alias `f` reads: a column of a wide view, or the name bound against `feature_name`. */
  function ColumnFeature(view: Option<string>, name: string, right: Scalar, ps: seq<Value>): set<Value> {
    if view.Some? then (if name in {"user_id", "tenant_id"} then {} else {Text(FeatureName(view.value, name))})
    else if name == "feature_name" && right == Hole && |ps| == 1 then {ps[0]}
    else {}
  }

  function CondFeatures(view: Option<string>, c: Cond, ps: seq<Value>): set<Value>
    requires |ps| == Holes(c)
    decreases c
  {
    match c
    case Compare(_, Column(F, name), right) => ColumnFeature(view, name, right, ps)
    case And(a, b) => CondFeatures(view, a, ps[..Holes(a)]) + CondFeatures(view, b, ps[Holes(a)..])
    case Exists(_, table, _, where, _) =>
      CondFeatures(if table.FeatureWide? then Some(table.family) else None, where, ps[..Holes(where)])
    case _ => {}
  }

  function QueryFeatures(q: Query, ps: seq<Value>): set<Value>
    requires |ps| == QueryHoles(q)
  {
    match q
    case SelectKeys(_, _, where, _) => CondFeatures(None, where, ps)
    case Combine(_, l, r) => QueryFeatures(l, ps[..QueryHoles(l)]) + QueryFeatures(r, ps[QueryHoles(l)..])
  }

  function StatementFeatures(s: Statement, ps: seq<Value>): set<Value>
    requires |ps| == StatementHoles(s)
  {
    match s
    case Keys(q) => QueryFeatures(q, ps)
    case Metric(survivor, _, _, _) => QueryFeatures(survivor, ps[..QueryHoles(survivor)])
    case Mismatched(_, l, r) => QueryFeatures(l, ps[..QueryHoles(l)]) + StatementFeatures(r, ps[QueryHoles(l)..])
  }

  ghost function Names(features: seq<string>): set<Value> {
    set n | n in features :: Text(n)
  }

  lemma AndFeatures(view: Option<string>, a: Cond, b: Cond, pa: seq<Value>, pb: seq<Value>)
    requires |pa| == Holes(a) && |pb| == Holes(b)
    ensures CondFeatures(view, And(a, b), pa + pb) == CondFeatures(view, a, pa) + CondFeatures(view, b, pb)
  {
    assert (pa + pb)[..|pa|] == pa && (pa + pb)[|pa|..] == pb;
  }

  lemma Conj3Features(view: Option<string>, a: Cond, b: Cond, c: Cond, pa: seq<Value>, pb: seq<Value>, pc: seq<Value>)
    requires |pa| == Holes(a) && |pb| == Holes(b) && |pc| == Holes(c)
    ensures Holes(Conj([a, b, c])) == |pa + pb + pc|
    ensures CondFeatures(view, Conj([a, b, c]), pa + pb + pc)
            == CondFeatures(view, a, pa) + CondFeatures(view, b, pb) + CondFeatures(view, c, pc)
  {
    Conj3(a, b, c);
    assert Holes(And(a, b)) == |pa + pb|;
    AndFeatures(view, a, b, pa, pb);
    AndFeatures(view, And(a, b), c, pa + pb, pc);
  }

  lemma Conj4IsAnd(a: Cond, b: Cond, c: Cond, d: Cond)
    ensures Conj([a, b, c, d]) == And(Conj([a, b, c]), d)
    ensures Holes(Conj([a, b, c, d])) == Holes(Conj([a, b, c])) + Holes(d)
  {
    Conj3(a, b, c);
    Conj4(a, b, c, d);
  }

  lemma Conj4Features(view: Option<string>, a: Cond, b: Cond, c: Cond, d: Cond, pa: seq<Value>, pb: seq<Value>,
                      pc: seq<Value>, pd: seq<Value>)
    requires |pa| == Holes(a) && |pb| == Holes(b) && |pc| == Holes(c) && |pd| == Holes(d)
    ensures Holes(Conj([a, b, c, d])) == |pa + pb + pc + pd|
    ensures CondFeatures(view, Conj([a, b, c, d]), pa + pb + pc + pd)
            == CondFeatures(view, a, pa) + CondFeatures(view, b, pb) + CondFeatures(view, c, pc)
              + CondFeatures(view, d, pd)
  {
    Conj4IsAnd(a, b, c, d);
    hide *;
    Conj3Features(view, a, b, c, pa, pb, pc);
    AndFeatures(view, Conj([a, b, c]), d, pa + pb + pc, pd);
  }

  lemma ExistsFeatures(negated: bool, table: Table, alias: Alias, where: Cond, having: Having, ps: seq<Value>,
                       last: seq<Value>)
    requires |ps| == Holes(where) && |last| == HavingHoles(having)
    ensures CondFeatures(None, Exists(negated, table, alias, where, having), ps + last)
            == CondFeatures(if table.FeatureWide? then Some(table.family) else None, where, ps)
  {
    assert (ps + last)[..|ps|] == ps;
  }

  lemma BareEventFeatures(m: EventMatch, baseKey: string, sym: Symbol, tenant: string, f: Frag)
    requires m.pred.None? && EventFrag(m, baseKey, sym, tenant) == Ok(f)
    ensures |f.params| == Holes(f.cond) && CondFeatures(None, f.cond, f.params) == {}
  {
    assert ScalarHoles(Column(E, m.tsColumn)) == 0 && ScalarHoles(Timestamp(Column(E, m.tsColumn))) == 0;
    Conj3Features(None, EventKeyEq(m, baseKey), TenantEq(E), WindowCond(m, sym), [], [Text(tenant)], []);
    assert [] + [Text(tenant)] + [] == [Text(tenant)];
  }

  lemma EventPartsFeatures(m: EventMatch, baseKey: string, sym: Symbol, tenant: Value)
    ensures Holes(EventKeyEq(m, baseKey)) == 0 && Holes(TenantEq(E)) == 1 && Holes(WindowCond(m, sym)) == 0
    ensures CondFeatures(None, EventKeyEq(m, baseKey), []) == {} && CondFeatures(None, TenantEq(E), [tenant]) == {}
    ensures CondFeatures(None, WindowCond(m, sym), []) == {}
  {
    assert ScalarHoles(Column(E, m.tsColumn)) == 0 && ScalarHoles(Timestamp(Column(E, m.tsColumn))) == 0;
  }

  lemma EventPredicateFeatures(p: Predicate, f: Frag)
    requires PredicateFrag(E, p) == Ok(f)
    ensures |f.params| == Holes(f.cond) && CondFeatures(None, f.cond, f.params) == {}
  {
    PredicateHoles(E, p, f);
  }

  lemma EventFragParts(m: EventMatch, baseKey: string, sym: Symbol, tenant: string, f: Frag)
    requires m.pred.Some? && EventFrag(m, baseKey, sym, tenant) == Ok(f)
    ensures PredicateFrag(E, m.pred.value).Ok?
    ensures var p := PredicateFrag(E, m.pred.value).value;
            f == Frag(Conj([EventKeyEq(m, baseKey), TenantEq(E), p.cond, WindowCond(m, sym)]),
              [Text(tenant)] + p.params)
  {
    hide Conj, PredicateFrag, EventKeyEq, WindowCond, TenantEq;
  }

  lemma MatchedEventFeatures(m: EventMatch, baseKey: string, sym: Symbol, tenant: string, f: Frag)
    requires m.pred.Some? && EventFrag(m, baseKey, sym, tenant) == Ok(f)
    ensures |f.params| == Holes(f.cond) && CondFeatures(None, f.cond, f.params) == {}
  {
    hide *;
    EventFragParts(m, baseKey, sym, tenant, f);
    var p := PredicateFrag(E, m.pred.value).value;
    EventPredicateFeatures(m.pred.value, p);
    EventPartsFeatures(m, baseKey, sym, Text(tenant));
    Conj4Features(None, EventKeyEq(m, baseKey), TenantEq(E), p.cond, WindowCond(m, sym), [], [Text(tenant)], p.params,
                  []);
    assert [] + [Text(tenant)] + p.params + [] == f.params;
  }

  lemma EventFeatures(m: EventMatch, baseKey: string, sym: Symbol, tenant: string, negated: bool, f: Frag)
    requires EventFrag(m, baseKey, sym, tenant) == Ok(f)
    ensures |f.params| == Holes(f.cond)
    ensures CondFeatures(None, Exists(negated, Raw(m.event), E, f.cond, NoGroup), f.params) == {}
  {
    assert HavingHoles(NoGroup) == 0;
    hide *;
    if m.pred.None? {
      BareEventFeatures(m, baseKey, sym, tenant, f);
    } else {
      MatchedEventFeatures(m, baseKey, sym, tenant, f);
    }
    ExistsFeatures(negated, Raw(m.event), E, f.cond, NoGroup, f.params, []);
    assert f.params + [] == f.params;
  }

  lemma PointInTimeFeatures(baseKey: string, sym: Symbol, tenant: Value, name: Value, asOf: Value, v: Value)
    ensures Holes(PointInTimeCond(baseKey, sym)) == 4
    ensures CondFeatures(None, PointInTimeCond(baseKey, sym), [tenant, name, asOf, v]) == {name}
  {
    PointInTimeHoles(baseKey, sym);
    var key, n := FeatureKeyEq(baseKey), Compare(SymEq, Column(F, "feature_name"), Hole);
    var w := Compare(SymLe, Column(F, "as_of_ts"), Timestamp(Hole));
    assert ScalarHoles(Hole) == 1 && ScalarHoles(Timestamp(Hole)) == 1;
    Conj4Features(None, key, TenantEq(F), n, w, [], [tenant], [name], [asOf]);
    assert [] + [tenant] + [name] + [asOf] == [tenant, name, asOf];
    assert CondFeatures(None, PointInTimeWhere(baseKey), [tenant, name, asOf]) == {name};
    hide PointInTimeWhere;
    ExistsFeatures(false, FeatureStore, F, PointInTimeWhere(baseKey), NewestCompares(["user_id", "feature_name"], sym),
                   [tenant, name, asOf], [v]);
    assert [tenant, name, asOf] + [v] == [tenant, name, asOf, v];
  }

  lemma WideFeatures(baseKey: string, family: string, short: string, sym: Symbol, tenant: Value, v: Value)
    ensures Holes(WideCond(baseKey, family, short, sym)) == 2
    ensures CondFeatures(None, WideCond(baseKey, family, short, sym), [tenant, v]) <= {Text(FeatureName(family, short))}
  {
    WideHoles(baseKey, family, short, sym);
    var key, c := FeatureKeyEq(baseKey), Compare(sym, Column(F, short), Hole);
    Conj3Features(Some(family), key, TenantEq(F), c, [], [tenant], [v]);
    assert [] + [tenant] + [v] == [tenant, v];
    assert CondFeatures(Some(family), WideWhere(baseKey, short, sym), [tenant, v])
           <= {Text(FeatureName(family, short))};
    hide WideWhere;
    ExistsFeatures(false, FeatureWide(family), F, WideWhere(baseKey, short, sym), NoGroup, [tenant, v], []);
    assert [tenant, v] + [] == [tenant, v];
  }

  lemma NoRepeatFeatures(baseKey: string, tenant: Value, campaign: Value)
    ensures Holes(NoRepeatCond(baseKey)) == 2
    ensures CondFeatures(None, NoRepeatCond(baseKey), [tenant, campaign]) == {}
  {
    NoRepeatHoles(baseKey);
    var key, c := SuppressionKeyEq(baseKey), Compare(SymEq, Column(S, "campaign_id"), Hole);
    var a := InLiterals(Column(S, "action"), [Text("targeted"), Text("delivered")]);
    Conj4Features(None, key, TenantEq(S), c, a, [], [tenant], [campaign], []);
    assert [] + [tenant] + [campaign] + [] == [tenant, campaign];
    assert CondFeatures(None, NoRepeatWhere(baseKey), [tenant, campaign]) == {};
    hide NoRepeatWhere;
    ExistsFeatures(true, Suppression, S, NoRepeatWhere(baseKey), NoGroup, [tenant, campaign], []);
    assert [tenant, campaign] + [] == [tenant, campaign];
  }

  lemma FrequencyFeatures(baseKey: string, days: nat, tenant: Value, n: Value)
    ensures Holes(FrequencyCond(baseKey, days)) == 2
    ensures CondFeatures(None, FrequencyCond(baseKey, days), [tenant, n]) == {}
  {
    FrequencyHoles(baseKey, days);
    var key, a := SuppressionKeyEq(baseKey), Compare(SymEq, Column(S, "action"), Literal(Text("targeted")));
    var w := Compare(SymGe, Column(S, "occurred_ts"), NowMinusDays(days));
    Conj4Features(None, key, TenantEq(S), a, w, [], [tenant], [], []);
    assert [] + [tenant] + [] + [] == [tenant];
    assert CondFeatures(None, FrequencyWhere(baseKey, days), [tenant]) == {};
    hide FrequencyWhere;
    ExistsFeatures(true, Suppression, S, FrequencyWhere(baseKey, days), CountAtLeast(["user_id"]), [tenant], [n]);
    assert [tenant] + [n] == [tenant, n];
  }

  lemma ExcludeFeatures(campaignId: string, baseKey: string, opts: Options)
    ensures var f := ExcludeFrag(campaignId, baseKey, opts);
            |f.params| == Holes(f.cond) && CondFeatures(None, f.cond, f.params) == {}
  {
    var t, c, cap := Text(opts.tenant), Text(campaignId), opts.rules.frequencyCap;
    NoRepeatFeatures(baseKey, t, c);
    if cap.Some? {
      FrequencyFeatures(baseKey, cap.value.windowDays, t, BigInt(cap.value.maxContacts));
      AndFeatures(None, NoRepeatCond(baseKey), FrequencyCond(baseKey, cap.value.windowDays), [t, c],
                  [t, BigInt(cap.value.maxContacts)]);
    }
    hide NoRepeatCond, FrequencyCond;
  }

  lemma NarrowFeatures(q: SegmentQuery, op: Op, opts: Options, f: Frag)
    requires IsNarrowing(op) && NarrowFrag(op, q, opts) == Ok(f)
    ensures |f.params| == Holes(f.cond)
    ensures CondFeatures(None, f.cond, f.params) <= Names(OpFeatures(op))
  {
    match op
    case FilterOp(p) => PredicateHoles(Base, p, f);
    case Recency(m) =>
      EventFeatures(m, q.key, SymGe, opts.tenant, false, EventFrag(m, q.key, SymGe, opts.tenant).value);
      hide EventFrag, CondFeatures;
    case Lapsed(m) =>
      var before, recent := EventFrag(m, q.key, SymLt, opts.tenant).value,
          EventFrag(m, q.key, SymGe, opts.tenant).value;
      EventFeatures(m, q.key, SymLt, opts.tenant, false, before);
      EventFeatures(m, q.key, SymGe, opts.tenant, true, recent);
      AndFeatures(None, Exists(false, Raw(m.event), E, before.cond, NoGroup),
                  Exists(true, Raw(m.event), E, recent.cond, NoGroup),
                  before.params, recent.params);
      hide EventFrag, CondFeatures;
    case Feature(name, cmp, value) =>
      var (family, short) := SplitFeatureName(name).value;
      var sym := FeatureSymbol(cmp).value;
      if q.asOf.Some? {
        PointInTimeFeatures(q.key, sym, Text(opts.tenant), Text(name), Text(q.asOf.value), Double(value));
      } else {
        WideFeatures(q.key, family, short, sym, Text(opts.tenant), Double(value));
      }
      hide PointInTimeCond, WideCond, CondFeatures;
    case Exclude(campaignId) =>
      ExcludeFeatures(campaignId, q.key, opts);
      hide ExcludeFrag, CondFeatures;
  }

  ghost predicate AccNames(q: SegmentQuery, acc: Acc, i: nat)
    requires i <= |q.ops|
  {
    AccFits(acc) && CondFeatures(None, Conj(acc.conjuncts), acc.params) <= Names(FeaturesUpTo(q, i))
  }

  lemma ExtendNames(q: SegmentQuery, acc: Acc, i: nat, opts: Options, f: Frag)
    requires i < |q.ops| && AccNames(q, acc, i) && IsNarrowing(q.ops[i]) && NarrowFrag(q.ops[i], q, opts) == Ok(f)
    ensures AccNames(q, Extend(acc, q.ops[i], f), i + 1)
  {
    ExtendFits(acc, q.ops[i], q, opts, f);
    NarrowFeatures(q, q.ops[i], opts, f);
    hide NarrowFrag;
    assert (acc.conjuncts + [f.cond])[..|acc.conjuncts|] == acc.conjuncts;
    assert Conj(acc.conjuncts + [f.cond]) == And(Conj(acc.conjuncts), f.cond);
    AndFeatures(None, Conj(acc.conjuncts), f.cond, acc.params, f.params);
    assert FeaturesUpTo(q, i + 1) == FeaturesUpTo(q, i) + OpFeatures(q.ops[i]);
    hide Conj, CondFeatures, FeaturesUpTo, OpFeatures;
    assert forall n :: n in OpFeatures(q.ops[i]) || n in FeaturesUpTo(q, i) ==> n in FeaturesUpTo(q, i + 1);
  }

  lemma UpToFeatures(q: SegmentQuery, i: nat, n: nat)
    requires i <= n <= |q.ops|
    ensures Names(FeaturesUpTo(q, i)) <= Names(FeaturesUpTo(q, n))
    decreases n
  {
    if i < n {
      UpToFeatures(q, i, n - 1);
    }
  }

  lemma SetOpNames(q: SegmentQuery, i: nat, acc: Acc, c: Compiled, inner: Compiled)
    requires i + 1 == |q.ops| && AccNames(q, acc, i) && q.ops[i].SetOp?
    requires |inner.params| == StatementHoles(inner.sql)
    requires StatementFeatures(inner.sql, inner.params) <= Names(ReferencedFeatures(q.ops[i].other))
    requires c.sql == Combined(q.ops[i].kind, BaseSelect(q, acc.conjuncts), inner.sql)
             && c.params == acc.params + inner.params
    ensures |c.params| == StatementHoles(c.sql)
    ensures StatementFeatures(c.sql, c.params) <= Names(ReferencedFeatures(q))
  {
    var n := |acc.params|;
    assert c.params[..n] == acc.params && c.params[n..] == inner.params;
    assert FeaturesUpTo(q, i + 1) == FeaturesUpTo(q, i) + OpFeatures(q.ops[i]);
    assert forall f :: f in FeaturesUpTo(q, i) || f in OpFeatures(q.ops[i]) ==> f in FeaturesUpTo(q, i + 1);
    hide Conj, CondFeatures, FeaturesUpTo;
    assert QueryHoles(BaseSelect(q, acc.conjuncts)) == n;
    assert QueryFeatures(BaseSelect(q, acc.conjuncts), acc.params)
           == CondFeatures(None, Conj(acc.conjuncts), acc.params);
    assert StatementFeatures(c.sql, c.params)
           == QueryFeatures(BaseSelect(q, acc.conjuncts), acc.params) + StatementFeatures(inner.sql, inner.params);
  }

  lemma {:induction false} FromNames(q: SegmentQuery, i: nat, acc: Acc, depth: nat, opts: Options, c: Compiled)
    requires i <= |q.ops| && AccNames(q, acc, i) && CompileFrom(q, i, acc, depth, opts) == Ok(c)
    ensures |c.params| == StatementHoles(c.sql)
    ensures StatementFeatures(c.sql, c.params) <= Names(ReferencedFeatures(q))
    decreases q, |q.ops| - i
  {
    FromHoles(q, i, acc, depth, opts, c);
    UpToFeatures(q, i, |q.ops|);
    if i < |q.ops| {
      hide NarrowFrag, SurvivorJoin, Conj;
      if q.ops[i].SetOp? {
        var inner := CompileSpec(q.ops[i].other, depth + 1, opts).value;
        CompileNames(q.ops[i].other, depth + 1, opts, inner);
        SetOpNames(q, i, acc, c, inner);
      } else if q.ops[i].Derive? {
        assert c.params[..|acc.params|] == acc.params;
      } else {
        var f := NarrowFrag(q.ops[i], q, opts).value;
        ExtendNames(q, acc, i, opts, f);
        FromNames(q, i + 1, Extend(acc, q.ops[i], f), depth, opts, c);
      }
    }
  }

  /** No statement reads a feature the guard did not look up. */
  lemma {:induction false} CompileNames(q: SegmentQuery, depth: nat, opts: Options, c: Compiled)
    requires CompileSpec(q, depth, opts) == Ok(c)
    ensures |c.params| == StatementHoles(c.sql)
    ensures StatementFeatures(c.sql, c.params) <= Names(ReferencedFeatures(q))
    decreases q, |q.ops| + 1
  {
    assert Conj([TenantEq(Base)]) == TenantEq(Base);
    FromNames(q, 0, Start(q, opts.tenant), depth, opts, c);
  }
}
