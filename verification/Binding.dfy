/** Every statement the compiler emits has exactly as many placeholders as parameters. */
module Binding {
  import opened Sequences
  import opened Values
  import opened Ast
  import opened Sql
  import opened Compiler
  import opened CompilerProof

  lemma PredicateHoles(alias: Alias, p: Predicate, f: Frag)
    requires PredicateFrag(alias, p) == Ok(f)
    ensures |f.params| == Holes(f.cond)
  {
  }

  lemma EventHoles(m: EventMatch, baseKey: string, sym: Symbol, tenant: string, f: Frag)
    requires EventFrag(m, baseKey, sym, tenant) == Ok(f)
    ensures |f.params| == Holes(f.cond)
  {
    var key, t, w := EventKeyEq(m, baseKey), TenantEq(E), WindowCond(m, sym);
    assert Holes(key) == 0 && Holes(t) == 1;
    assert ScalarHoles(Column(E, m.tsColumn)) == 0 && ScalarHoles(Timestamp(Column(E, m.tsColumn))) == 0;
    assert Holes(w) == 0;
    if m.pred.None? {
      Conj3(key, t, w);
    } else {
      var p := PredicateFrag(E, m.pred.value).value;
      PredicateHoles(E, m.pred.value, p);
      Conj4(key, t, p.cond, w);
      assert Holes(And(key, t)) == 1 && Holes(And(And(key, t), p.cond)) == 1 + |p.params|;
    }
  }

  lemma NoRepeatHoles(baseKey: string)
    ensures Holes(NoRepeatCond(baseKey)) == 2
  {
    var key, t, c := SuppressionKeyEq(baseKey), TenantEq(S), Compare(SymEq, Column(S, "campaign_id"), Hole);
    var a := InLiterals(Column(S, "action"), [Text("targeted"), Text("delivered")]);
    Conj4(key, t, c, a);
    assert Holes(And(key, t)) == 1;
    assert Holes(And(And(key, t), c)) == 2;
    assert Holes(NoRepeatWhere(baseKey)) == 2;
  }

  lemma FrequencyHoles(baseKey: string, days: nat)
    ensures Holes(FrequencyCond(baseKey, days)) == 2
  {
    var key, t := SuppressionKeyEq(baseKey), TenantEq(S);
    var a := Compare(SymEq, Column(S, "action"), Literal(Text("targeted")));
    var w := Compare(SymGe, Column(S, "occurred_ts"), NowMinusDays(days));
    Conj4(key, t, a, w);
    assert Holes(key) == 0 && Holes(t) == 1;
    assert Holes(a) == 0;
    assert Holes(w) == 0;
    assert Holes(And(key, t)) == 1;
    assert Holes(And(And(key, t), a)) == 1;
    assert Holes(FrequencyWhere(baseKey, days)) == 1;
  }

  lemma PointInTimeHoles(baseKey: string, sym: Symbol)
    ensures Holes(PointInTimeCond(baseKey, sym)) == 4
  {
    var key, t, n := FeatureKeyEq(baseKey), TenantEq(F), Compare(SymEq, Column(F, "feature_name"), Hole);
    var w := Compare(SymLe, Column(F, "as_of_ts"), Timestamp(Hole));
    Conj4(key, t, n, w);
    assert ScalarHoles(Hole) == 1 && ScalarHoles(Timestamp(Hole)) == 1;
    assert Holes(And(key, t)) == 1 && Holes(And(And(key, t), n)) == 2;
    assert Holes(PointInTimeWhere(baseKey)) == 3;
  }

  lemma WideHoles(baseKey: string, family: string, short: string, sym: Symbol)
    ensures Holes(WideCond(baseKey, family, short, sym)) == 2
  {
    var key, t, c := FeatureKeyEq(baseKey), TenantEq(F), Compare(sym, Column(F, short), Hole);
    Conj3(key, t, c);
    assert Holes(And(key, t)) == 1 && Holes(WideWhere(baseKey, short, sym)) == 2;
  }

  lemma NarrowHoles(op: Op, q: SegmentQuery, opts: Options, f: Frag)
    requires IsNarrowing(op) && NarrowFrag(op, q, opts) == Ok(f)
    ensures |f.params| == Holes(f.cond)
  {
    match op
    case FilterOp(p) => PredicateHoles(Base, p, f);
    case Recency(m) => EventHoles(m, q.key, SymGe, opts.tenant, EventFrag(m, q.key, SymGe, opts.tenant).value);
    case Lapsed(m) =>
      EventHoles(m, q.key, SymLt, opts.tenant, EventFrag(m, q.key, SymLt, opts.tenant).value);
      EventHoles(m, q.key, SymGe, opts.tenant, EventFrag(m, q.key, SymGe, opts.tenant).value);
      hide EventFrag;
    case Feature(name, cmp, value) =>
      var parts, sym := SplitFeatureName(name).value, FeatureSymbol(cmp).value;
      PointInTimeHoles(q.key, sym);
      WideHoles(q.key, parts.0, parts.1, sym);
      hide PointInTimeCond, WideCond;
    case Exclude(campaignId) =>
      NoRepeatHoles(q.key);
      if opts.rules.frequencyCap.Some? {
        FrequencyHoles(q.key, opts.rules.frequencyCap.value.windowDays);
      }
      hide NoRepeatCond, FrequencyCond;
  }

  ghost predicate AccFits(acc: Acc) {
    acc.conjuncts != [] && |acc.params| == Holes(Conj(acc.conjuncts))
  }

  lemma ExtendFits(acc: Acc, op: Op, q: SegmentQuery, opts: Options, f: Frag)
    requires AccFits(acc) && IsNarrowing(op) && NarrowFrag(op, q, opts) == Ok(f)
    ensures AccFits(Extend(acc, op, f))
  {
    NarrowHoles(op, q, opts, f);
    hide NarrowFrag;
    assert (acc.conjuncts + [f.cond])[..|acc.conjuncts|] == acc.conjuncts;
    assert Conj(acc.conjuncts + [f.cond]) == And(Conj(acc.conjuncts), f.cond);
  }

  lemma FromHoles(q: SegmentQuery, i: nat, acc: Acc, depth: nat, opts: Options, c: Compiled)
    requires i <= |q.ops| && AccFits(acc) && CompileFrom(q, i, acc, depth, opts) == Ok(c)
    ensures |c.params| == StatementHoles(c.sql)
    decreases q, |q.ops| - i
  {
    if i < |q.ops| {
      if q.ops[i].SetOp? {
        var inner := CompileSpec(q.ops[i].other, depth + 1, opts).value;
        CompiledHoles(q.ops[i].other, depth + 1, opts, inner);
        assert QueryHoles(BaseSelect(q, acc.conjuncts)) == |acc.params|;
        if inner.sql.Keys? {
          assert QueryHoles(inner.sql.query) == |inner.params|;
        }
      } else if q.ops[i].Derive? {
        assert Holes(SurvivorJoin()) == 1;
      } else {
        var f := NarrowFrag(q.ops[i], q, opts).value;
        ExtendFits(acc, q.ops[i], q, opts, f);
        hide NarrowFrag, AccFits;
        FromHoles(q, i + 1, Extend(acc, q.ops[i], f), depth, opts, c);
      }
    }
  }

  /** Placeholder count equals parameter count, at any nesting, for key queries and for metrics. */
  lemma CompiledHoles(q: SegmentQuery, depth: nat, opts: Options, c: Compiled)
    requires CompileSpec(q, depth, opts) == Ok(c)
    ensures |c.params| == StatementHoles(c.sql)
    decreases q, |q.ops| + 1
  {
    assert Conj([TenantEq(Base)]) == TenantEq(Base);
    FromHoles(q, 0, Start(q, opts.tenant), depth, opts, c);
  }
}
