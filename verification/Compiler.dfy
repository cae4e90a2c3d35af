/** The DSL compiler. Each helper that pushes into the shared parameter vector is a method, proved against
    the function above it that says which condition it returns and which parameters it adds. */
module Compiler {
  import opened Sequences
  import opened Values
  import opened Ast
  import opened Sql

  datatype CompileError =
    | TooDeep
    | OpAfterSetOp
    | NeedsSurvivorCount
    | NotSupported
    | NeedsProfilePath
    | ArrayRequired
    | ScalarRequired
    | BadFeatureName
    | BadFeatureOp
    | NotACharacterize

  datatype Options = Options(rules: SuppressionRules, deriveLimit: Option<nat>, tenant: string)

  datatype Compiled = Compiled(sql: Statement, params: seq<Value>, sources: seq<Dataset>)

  const MAX_NESTING: nat := 8

  /** A condition together with the parameters for its holes. */
  datatype Frag = Frag(cond: Cond, params: seq<Value>)

  // ----- what each helper returns -----

  const I64_MIN := -0x8000_0000_0000_0000
  const I64_MAX := 0x7fff_ffff_ffff_ffff

  function ToValue(v: Json): Result<Value, CompileError> {
    match v
    case JNull => Ok(Null)
    case JBool(b) => Ok(Bool(b))
    case JInt(i) => if I64_MIN <= i <= I64_MAX then Ok(BigInt(i)) else Ok(Double(i as real))
    case JFloat(f) => Ok(Double(f))
    case JString(s) => Ok(Text(s))
    case _ => Err(ScalarRequired)
  }

  function ToValues(items: seq<Json>): (r: Result<seq<Value>, CompileError>)
    ensures r.Ok? ==> |r.value| == |items| && forall i :: 0 <= i < |items| ==> ToValue(items[i]) == Ok(r.value[i])
    ensures r.Err? ==> exists i :: 0 <= i < |items| && ToValue(items[i]).Err?
  {
    if items == [] then Ok([])
    else
      var front :- ToValues(items[..|items| - 1]);
      var last :- ToValue(items[|items| - 1]);
      Ok(front + [last])
  }

  function BinarySymbol(op: Cmp): Option<Symbol> {
    match op
    case Eq => Some(SymEq)
    case Ne => Some(SymNe)
    case Lt => Some(SymLt)
    case Le => Some(SymLe)
    case Gt => Some(SymGt)
    case Ge => Some(SymGe)
    case Like => Some(SymLike)
    case NotLike => Some(SymNotLike)
    case _ => None
  }

  function FeatureSymbol(op: Cmp): Result<Symbol, CompileError> {
    match op
    case Eq => Ok(SymEq)
    case Ne => Ok(SymNe)
    case Lt => Ok(SymLt)
    case Le => Ok(SymLe)
    case Gt => Ok(SymGt)
    case Ge => Ok(SymGe)
    case _ => Err(BadFeatureOp)
  }

  function TenantEq(alias: Alias): Cond {
    Compare(SymEq, Column(alias, "tenant_id"), Hole)
  }

  function InFrag(alias: Alias, p: Predicate): Result<Frag, CompileError>
    requires BinarySymbol(p.op).None?
  {
    if !p.value.JArray? then Err(ArrayRequired)
    else if p.value.items == [] then Ok(Frag(if p.op.NotIn? then Always else Never, []))
    else
      var values :- ToValues(p.value.items);
      Ok(Frag(InHoles(p.op.NotIn?, Column(alias, p.column), |values|), values))
  }

  function PredicateFrag(alias: Alias, p: Predicate): Result<Frag, CompileError> {
    var sym := BinarySymbol(p.op);
    if sym.Some? then
      var v :- ToValue(p.value);
      Ok(Frag(Compare(sym.value, Column(alias, p.column), Hole), [v]))
    else
      InFrag(alias, p)
  }

  /** The conditions joined by AND. */
  function Conj(cs: seq<Cond>): Cond
    requires cs != []
  {
    if |cs| == 1 then cs[0] else And(Conj(cs[..|cs| - 1]), cs[|cs| - 1])
  }

  function EventKeyEq(m: EventMatch, baseKey: string): Cond {
    Compare(SymEq, Column(E, m.userKey), Column(Base, baseKey))
  }

  function WindowCond(m: EventMatch, sym: Symbol): Cond {
    Compare(sym, Timestamp(Column(E, m.tsColumn)), NowMinusDays(m.withinDays))
  }

  /** The WHERE clause over event rows on one side of the window. */
  function EventFrag(m: EventMatch, baseKey: string, sym: Symbol, tenant: string): Result<Frag, CompileError> {
    if m.pred.None? then
      Ok(Frag(Conj([EventKeyEq(m, baseKey), TenantEq(E), WindowCond(m, sym)]), [Text(tenant)]))
    else
      var p :- PredicateFrag(E, m.pred.value);
      Ok(Frag(Conj([EventKeyEq(m, baseKey), TenantEq(E), p.cond, WindowCond(m, sym)]), [Text(tenant)] + p.params))
  }

  function RecencyFrag(m: EventMatch, baseKey: string, tenant: string): Result<Frag, CompileError> {
    var f :- EventFrag(m, baseKey, SymGe, tenant);
    Ok(Frag(Exists(false, Raw(m.event), E, f.cond, NoGroup), f.params))
  }

  function LapsedFrag(m: EventMatch, baseKey: string, tenant: string): Result<Frag, CompileError> {
    var before :- EventFrag(m, baseKey, SymLt, tenant);
    var recent :- EventFrag(m, baseKey, SymGe, tenant);
    Ok(Frag(And(Exists(false, Raw(m.event), E, before.cond, NoGroup),
       Exists(true, Raw(m.event), E, recent.cond, NoGroup)),
            before.params + recent.params))
  }

  function SuppressionKeyEq(baseKey: string): Cond {
    Compare(SymEq, Column(S, "user_id"), Column(Base, baseKey))
  }

  function NoRepeatWhere(baseKey: string): Cond {
    Conj([SuppressionKeyEq(baseKey), TenantEq(S), Compare(SymEq, Column(S, "campaign_id"), Hole),
          InLiterals(Column(S, "action"), [Text("targeted"), Text("delivered")])])
  }

  function NoRepeatCond(baseKey: string): Cond {
    Exists(true, Suppression, S, NoRepeatWhere(baseKey), NoGroup)
  }

  function FrequencyWhere(baseKey: string, windowDays: nat): Cond {
    Conj([SuppressionKeyEq(baseKey), TenantEq(S),
          Compare(SymEq, Column(S, "action"), Literal(Text("targeted"))),
          Compare(SymGe, Column(S, "occurred_ts"), NowMinusDays(windowDays))])
  }

  function FrequencyCond(baseKey: string, windowDays: nat): Cond {
    Exists(true, Suppression, S, FrequencyWhere(baseKey, windowDays), CountAtLeast(["user_id"]))
  }

  function ExcludeFrag(campaignId: string, baseKey: string, opts: Options): Frag {
    var cap := opts.rules.frequencyCap;
    var repeatParams := [Text(opts.tenant), Text(campaignId)];
    if opts.rules.perCampaignNoRepeat then
      if cap.Some? then
        Frag(And(NoRepeatCond(baseKey), FrequencyCond(baseKey, cap.value.windowDays)),
             repeatParams + [Text(opts.tenant), BigInt(cap.value.maxContacts)])
      else
        Frag(NoRepeatCond(baseKey), repeatParams)
    else if cap.Some? then
      Frag(FrequencyCond(baseKey, cap.value.windowDays), [Text(opts.tenant), BigInt(cap.value.maxContacts)])
    else
      Frag(Always, [])
  }

  function FeatureKeyEq(baseKey: string): Cond {
    Compare(SymEq, Column(F, "user_id"), Column(Base, baseKey))
  }

  function PointInTimeWhere(baseKey: string): Cond {
    Conj([FeatureKeyEq(baseKey), TenantEq(F), Compare(SymEq, Column(F, "feature_name"), Hole),
          Compare(SymLe, Column(F, "as_of_ts"), Timestamp(Hole))])
  }

  function PointInTimeCond(baseKey: string, sym: Symbol): Cond {
    Exists(false, FeatureStore, F, PointInTimeWhere(baseKey), NewestCompares(["user_id", "feature_name"], sym))
  }

  function WideWhere(baseKey: string, short: string, sym: Symbol): Cond {
    Conj([FeatureKeyEq(baseKey), TenantEq(F), Compare(sym, Column(F, short), Hole)])
  }

  function WideCond(baseKey: string, family: string, short: string, sym: Symbol): Cond {
    Exists(false, FeatureWide(family), F, WideWhere(baseKey, short, sym), NoGroup)
  }

  function FeatureFrag(name: string, op: Cmp, value: real, baseKey: string, tenant: string, asOf: Option<string>)
    : Result<Frag, CompileError>
  {
    var parts := SplitFeatureName(name);
    if parts.None? then Err(BadFeatureName)
    else
      var sym :- FeatureSymbol(op);
      match asOf
      case Some(t) => Ok(Frag(PointInTimeCond(baseKey, sym), [Text(tenant), Text(name), Text(t), Double(value)]))
      case None => Ok(Frag(WideCond(baseKey, parts.value.0, parts.value.1, sym), [Text(tenant), Double(value)]))
  }

  function MetricAggregate(m: JitMetric): Aggregate {
    match m
    case Count(_) => CountRows
    case Sum(_, c) => SumOf(c)
    case Avg(_, c) => AvgOf(c)
    case Min(_, c) => MinOf(c)
    case Max(_, c) => MaxOf(c)
  }

  function UserJoin(): Cond {
    Compare(SymEq, Column(E, "user_id"), Column(S, "user_id"))
  }

  function SurvivorJoin(): Cond {
    And(UserJoin(), TenantEq(E))
  }

  function BaseSelect(q: SegmentQuery, conjuncts: seq<Cond>): Query
    requires conjuncts != []
  {
    SelectKeys(Raw(q.source), q.key, Conj(conjuncts), None)
  }

  function SurvivorCte(q: SegmentQuery, conjuncts: seq<Cond>, limit: nat): Query
    requires conjuncts != []
  {
    SelectKeys(Raw(q.source), q.key, Conj(conjuncts), Some(limit))
  }

  /** The conjunct of an op that narrows the base rows. */
  function NarrowFrag(op: Op, q: SegmentQuery, opts: Options): Result<Frag, CompileError>
    requires IsNarrowing(op)
  {
    match op
    case FilterOp(p) => PredicateFrag(Base, p)
    case Recency(m) => RecencyFrag(m, q.key, opts.tenant)
    case Lapsed(m) => LapsedFrag(m, q.key, opts.tenant)
    case Feature(name, cmp, value) => FeatureFrag(name, cmp, value, q.key, opts.tenant, q.asOf)
    case Exclude(campaignId) => Ok(ExcludeFrag(campaignId, q.key, opts))
  }

  function OpSources(op: Op): seq<Dataset> {
    if op.Recency? || op.Lapsed? then [op.m.event] else []
  }

  function Combined(kind: SetOpKind, left: Query, right: Statement): Statement {
    if right.Keys? then Keys(Combine(kind, left, right.query)) else Mismatched(kind, left, right)
  }

  /** The state of the compile loop. */
  datatype Acc = Acc(conjuncts: seq<Cond>, params: seq<Value>, sources: seq<Dataset>)

  function Start(q: SegmentQuery, tenant: string): Acc {
    Acc([TenantEq(Base)], [Text(tenant)], [q.source])
  }

  function Extend(acc: Acc, op: Op, f: Frag): Acc {
    Acc(acc.conjuncts + [f.cond], acc.params + f.params, acc.sources + OpSources(op))
  }

  function CompileSpec(q: SegmentQuery, depth: nat, opts: Options): Result<Compiled, CompileError>
    decreases q, |q.ops| + 1
  {
    if depth > MAX_NESTING then Err(TooDeep) else CompileFrom(q, 0, Start(q, opts.tenant), depth, opts)
  }

  /** Compiling the ops from index `i` on, given what the earlier ones left behind. */
  function CompileFrom(q: SegmentQuery, i: nat, acc: Acc, depth: nat, opts: Options): Result<Compiled, CompileError>
    requires i <= |q.ops| && acc.conjuncts != []
    decreases q, |q.ops| - i
  {
    if i == |q.ops| then Ok(Compiled(Keys(BaseSelect(q, acc.conjuncts)), acc.params, acc.sources))
    else match q.ops[i]
         case SetOp(kind, other) =>
           if i + 1 < |q.ops| then Err(OpAfterSetOp)
           else
             var c :- CompileSpec(other, depth + 1, opts);
             Ok(Compiled(Combined(kind, BaseSelect(q, acc.conjuncts), c.sql), acc.params + c.params,
                acc.sources + c.sources))
         case Derive(name, metric) =>
           if opts.deriveLimit.None? then Err(NeedsSurvivorCount)
           else
             Ok(Compiled(Metric(SurvivorCte(q, acc.conjuncts, opts.deriveLimit.value), MetricAggregate(metric),
                                Raw(metric.event), SurvivorJoin()),
                         acc.params + [Text(name), Text(opts.tenant)], acc.sources + [metric.event]))
         case Similar => Err(NotSupported)
         case Characterize(_, _, _, _) => Err(NeedsProfilePath)
         case op =>
           var f :- NarrowFrag(op, q, opts);
           CompileFrom(q, i + 1, Extend(acc, op, f), depth, opts)
  }

  // ----- the helpers as they run: pushing into one vector -----

  class ParamVec {
    var items: seq<Value>

    constructor ()
      ensures items == []
    {
      items := [];
    }

    method Push(v: Value)
      modifies this
      ensures items == old(items) + [v]
    {
      items := items + [v];
    }
  }

  /** What a helper that returns a condition owes its caller. */
  ghost predicate Renders(spec: Result<Frag, CompileError>, r: Result<Cond, CompileError>, before: seq<Value>,
                          after: seq<Value>) {
    match spec
    case Ok(f) => r == Ok(f.cond) && after == before + f.params
    case Err(e) => r == Err(e)
  }

  method PushTenantEq(alias: Alias, params: ParamVec, tenant: string) returns (c: Cond)
    modifies params
    ensures c == TenantEq(alias) && params.items == old(params.items) + [Text(tenant)]
  {
    params.Push(Text(tenant));
    c := Compare(SymEq, Column(alias, "tenant_id"), Hole);
  }

  method CompileIn(alias: Alias, p: Predicate, params: ParamVec) returns (r: Result<Cond, CompileError>)
    requires BinarySymbol(p.op).None?
    modifies params
    ensures Renders(InFrag(alias, p), r, old(params.items), params.items)
  {
    if !p.value.JArray? {
      return Err(ArrayRequired);
    }
    var items := p.value.items;
    if items == [] {
      return Ok(if p.op.NotIn? then Always else Never);
    }
    var i := 0;
    while i < |items|
      invariant 0 <= i <= |items|
      invariant ToValues(items[..i]).Ok? && params.items == old(params.items) + ToValues(items[..i]).value
    {
      assert items[..i + 1][..i] == items[..i];
      var v := ToValue(items[i]);
      if v.Err? {
        FirstFailure(items, i);
        return Err(v.error);
      }
      params.Push(v.value);
      i := i + 1;
    }
    assert items[..i] == items;
    r := Ok(InHoles(p.op.NotIn?, Column(alias, p.column), |items|));
  }

  /** The conversion of a list reports its first bad item. */
  lemma {:induction false} FirstFailure(items: seq<Json>, i: nat)
    requires i < |items| && ToValues(items[..i]).Ok? && ToValue(items[i]).Err?
    ensures ToValues(items) == Err(ToValue(items[i]).error)
    decreases |items|
  {
    var front := items[..|items| - 1];
    if i < |front| {
      assert front[..i] == items[..i];
      FirstFailure(front, i);
    } else {
      assert front == items[..i];
    }
  }

  method CompilePredicate(alias: Alias, p: Predicate, params: ParamVec) returns (r: Result<Cond, CompileError>)
    modifies params
    ensures Renders(PredicateFrag(alias, p), r, old(params.items), params.items)
  {
    var sym := BinarySymbol(p.op);
    if sym.Some? {
      var v := ToValue(p.value);
      if v.Err? {
        return Err(v.error);
      }
      params.Push(v.value);
      return Ok(Compare(sym.value, Column(alias, p.column), Hole));
    }
    r := CompileIn(alias, p, params);
  }

  method CompileEvent(m: EventMatch, baseKey: string, sym: Symbol, params: ParamVec, tenant: string)
    returns (r: Result<Cond, CompileError>)
    modifies params
    ensures Renders(EventFrag(m, baseKey, sym, tenant), r, old(params.items), params.items)
  {
    var t := PushTenantEq(E, params, tenant);
    var parts := [EventKeyEq(m, baseKey), t];
    if m.pred.Some? {
      var p := CompilePredicate(E, m.pred.value, params);
      if p.Err? {
        return Err(p.error);
      }
      parts := parts + [p.value];
    }
    parts := parts + [WindowCond(m, sym)];
    assert m.pred.None? ==> parts == [EventKeyEq(m, baseKey), t, WindowCond(m, sym)];
    assert m.pred.Some? ==> parts == [EventKeyEq(m, baseKey), t, parts[2], WindowCond(m, sym)];
    r := Ok(Conj(parts));
  }

  method CompileRecency(m: EventMatch, baseKey: string, params: ParamVec, tenant: string)
    returns (r: Result<Cond, CompileError>)
    modifies params
    ensures Renders(RecencyFrag(m, baseKey, tenant), r, old(params.items), params.items)
  {
    var w := CompileEvent(m, baseKey, SymGe, params, tenant);
    if w.Err? {
      return Err(w.error);
    }
    r := Ok(Exists(false, Raw(m.event), E, w.value, NoGroup));
  }

  method CompileLapsed(m: EventMatch, baseKey: string, params: ParamVec, tenant: string)
    returns (r: Result<Cond, CompileError>)
    modifies params
    ensures Renders(LapsedFrag(m, baseKey, tenant), r, old(params.items), params.items)
  {
    var before := CompileEvent(m, baseKey, SymLt, params, tenant);
    if before.Err? {
      return Err(before.error);
    }
    var recent := CompileEvent(m, baseKey, SymGe, params, tenant);
    if recent.Err? {
      return Err(recent.error);
    }
    r := Ok(And(Exists(false, Raw(m.event), E, before.value, NoGroup),
      Exists(true, Raw(m.event), E, recent.value, NoGroup)));
  }

  method CompileExclude(campaignId: string, baseKey: string, opts: Options, params: ParamVec) returns (c: Cond)
    modifies params
    ensures c == ExcludeFrag(campaignId, baseKey, opts).cond
    ensures params.items == old(params.items) + ExcludeFrag(campaignId, baseKey, opts).params
  {
    var clauses := [];
    if opts.rules.perCampaignNoRepeat {
      var t := PushTenantEq(S, params, opts.tenant);
      params.Push(Text(campaignId));
      clauses := clauses + [NoRepeatCond(baseKey)];
    }
    if opts.rules.frequencyCap.Some? {
      var cap := opts.rules.frequencyCap.value;
      params.Push(Text(opts.tenant));
      params.Push(BigInt(cap.maxContacts));
      clauses := clauses + [FrequencyCond(baseKey, cap.windowDays)];
    }
    if |clauses| == 2 {
      assert Conj(clauses[..1]) == clauses[0];
      assert Conj(clauses) == And(clauses[0], clauses[1]);
    }
    c := if clauses == [] then Always else Conj(clauses);
  }

  method CompileFeature(name: string, op: Cmp, value: real, baseKey: string, params: ParamVec, tenant: string,
                        asOf: Option<string>)
    returns (r: Result<Cond, CompileError>)
    modifies params
    ensures Renders(FeatureFrag(name, op, value, baseKey, tenant, asOf), r, old(params.items), params.items)
  {
    var parts := SplitFeatureName(name);
    if parts.None? {
      return Err(BadFeatureName);
    }
    var sym := FeatureSymbol(op);
    if sym.Err? {
      return Err(sym.error);
    }
    var t := PushTenantEq(F, params, tenant);
    if asOf.Some? {
      params.Push(Text(name));
      params.Push(Text(asOf.value));
      params.Push(Double(value));
      return Ok(PointInTimeCond(baseKey, sym.value));
    }
    params.Push(Double(value));
    r := Ok(WideCond(baseKey, parts.value.0, parts.value.1, sym.value));
  }

  method CompileNarrowing(op: Op, q: SegmentQuery, opts: Options, params: ParamVec)
    returns (r: Result<Cond, CompileError>)
    requires IsNarrowing(op)
    modifies params
    ensures Renders(NarrowFrag(op, q, opts), r, old(params.items), params.items)
  {
    match op
    case FilterOp(p) => r := CompilePredicate(Base, p, params);
    case Recency(m) => r := CompileRecency(m, q.key, params, opts.tenant);
    case Lapsed(m) => r := CompileLapsed(m, q.key, params, opts.tenant);
    case Feature(name, cmp, value) => r := CompileFeature(name, cmp, value, q.key, params, opts.tenant, q.asOf);
    case Exclude(campaignId) =>
      var c := CompileExclude(campaignId, q.key, opts, params);
      r := Ok(c);
  }

  /** `compile_at`: one pass over the ops, with the vectors it grows. */
  method CompileAt(q: SegmentQuery, depth: nat, opts: Options) returns (r: Result<Compiled, CompileError>)
    ensures r == CompileSpec(q, depth, opts)
    decreases q
  {
    if depth > MAX_NESTING {
      return Err(TooDeep);
    }
    var params := new ParamVec();
    var sources := [q.source];
    var t := PushTenantEq(Base, params, opts.tenant);
    var conjuncts := [t];
    assert params.items == [Text(opts.tenant)];
    var setop: Option<(SetOpKind, SegmentQuery)> := None;
    var i := 0;
    while i < |q.ops|
      invariant 0 <= i <= |q.ops| && conjuncts != []
      invariant setop.None? ==>
                  CompileSpec(q, depth, opts) == CompileFrom(q, i, Acc(conjuncts, params.items, sources), depth, opts)
      invariant setop.Some? ==>
                  && 0 < i && q.ops[i - 1] == SetOp(setop.value.0, setop.value.1)
                  && CompileSpec(q, depth, opts) == CompileFrom(q, i - 1, Acc(conjuncts, params.items, sources), depth,
                    opts)
    {
      if setop.Some? {
        return Err(OpAfterSetOp);
      }
      var op := q.ops[i];
      if IsNarrowing(op) {
        var c := CompileNarrowing(op, q, opts, params);
        if c.Err? {
          return Err(c.error);
        }
        sources := sources + OpSources(op);
        conjuncts := conjuncts + [c.value];
      } else {
        match op {
          case SetOp(kind, other) =>
            setop := Some((kind, other));
          case Derive(name, metric) =>
            if opts.deriveLimit.None? {
              return Err(NeedsSurvivorCount);
            }
            sources := sources + [metric.event];
            ghost var before := params.items;
            params.Push(Text(name));
            var on := PushTenantEq(E, params, opts.tenant);
            assert params.items == before + [Text(name), Text(opts.tenant)];
            return Ok(Compiled(Metric(SurvivorCte(q, conjuncts, opts.deriveLimit.value), MetricAggregate(metric),
                                      Raw(metric.event), And(UserJoin(), on)),
                               params.items, sources));
          case Similar =>
            return Err(NotSupported);
          case Characterize(_, _, _, _) =>
            return Err(NeedsProfilePath);
        }
      }
      i := i + 1;
    }
    if setop.None? {
      return Ok(Compiled(Keys(BaseSelect(q, conjuncts)), params.items, sources));
    }
    var (kind, other) := setop.value;
    var c := CompileAt(other, depth + 1, opts);
    if c.Err? {
      return Err(c.error);
    }
    r := Ok(Compiled(Combined(kind, BaseSelect(q, conjuncts), c.value.sql), params.items + c.value.params,
                     sources + c.value.sources));
  }
}
