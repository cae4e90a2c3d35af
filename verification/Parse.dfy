/** The structural validator, and which validated segments compile. */
module Parse {
  import opened Sequences
  import opened Values
  import opened Ast
  import opened Sql
  import opened Compiler

  const MAX_OPS := 32
  const MAX_PRED_VALUE_BYTES := 4096
  const MAX_IN_VALUES := 1024
  const MAX_WITHIN_DAYS := 3650

  /** What the validator takes from libraries: timestamp syntax and UTF-8 lengths. */
  datatype Library = Library(isTimestamp: string -> bool, byteLength: string -> nat)

  predicate ValidateDataset(d: Dataset) {
    ValidIdent(d.system) && ValidIdent(d.entity)
  }

  predicate ValidateScalar(lib: Library, v: Json) {
    match v
    case JString(s) => lib.byteLength(s) <= MAX_PRED_VALUE_BYTES
    case JArray(_) => false
    case _ => true
  }

  predicate ValidateValue(lib: Library, v: Json, op: Cmp) {
    match v
    case JArray(items) =>
      && (op.In? || op.NotIn?) && |items| <= MAX_IN_VALUES
      && forall i :: 0 <= i < |items| ==> ValidateScalar(lib, items[i])
    case _ => ValidateScalar(lib, v)
  }

  predicate ValidatePredicate(lib: Library, p: Predicate) {
    ValidIdent(p.column) && ValidateValue(lib, p.value, p.op)
  }

  predicate ValidateEvent(lib: Library, m: EventMatch) {
    && ValidateDataset(m.event) && ValidIdent(m.userKey) && ValidIdent(m.tsColumn)
    && 1 <= m.withinDays <= MAX_WITHIN_DAYS
    && (m.pred.Some? ==> ValidatePredicate(lib, m.pred.value))
  }

  predicate ValidateOp(lib: Library, op: Op)
    decreases op, 0
  {
    match op
    case FilterOp(p) => ValidatePredicate(lib, p)
    case Recency(m) => ValidateEvent(lib, m)
    case Lapsed(m) => ValidateEvent(lib, m)
    case SetOp(_, other) => Validate(lib, other)
    case Exclude(campaignId) => ValidIdent(campaignId)
    case Feature(name, cmp, _) => SplitFeatureName(name).Some? && cmp in {Eq, Ne, Lt, Le, Gt, Ge}
    case Derive(name, metric) =>
      && ValidIdent(name) && ValidateDataset(metric.event)
      && (MetricColumn(metric).Some? ==> ValidIdent(MetricColumn(metric).value))
    case Characterize(event, ts, monetary, category) =>
      ValidateDataset(event) && ValidIdent(ts) && ValidIdent(monetary) && ValidIdent(category)
    case Similar => false
  }

  /** What `validate_positions` must establish: a set operation or a terminal op comes last, a terminal op after
      something that narrows. */
  predicate PositionsOk(ops: seq<Op>) {
    forall i :: 0 <= i < |ops| ==>
      && !ops[i].Similar?
      && (ops[i].SetOp? || IsTerminal(ops[i]) ==> i == |ops| - 1)
      && (IsTerminal(ops[i]) ==> exists j :: 0 <= j < i && IsNarrowing(ops[j]))
  }

  predicate Validate(lib: Library, q: SegmentQuery)
    decreases q, 1
  {
    && ValidateDataset(q.source) && ValidIdent(q.key)
    && (q.asOf.Some? ==> lib.isTimestamp(q.asOf.value))
    && |q.ops| <= MAX_OPS
    && (forall i :: 0 <= i < |q.ops| ==> ValidateOp(lib, q.ops[i]))
    && PositionsOk(q.ops)
  }

  /** `validate_positions` as it runs: one pass with a flag. */
  method ValidatePositions(ops: seq<Op>) returns (ok: bool)
    ensures ok <==> PositionsOk(ops)
  {
    var narrowingSeen := false;
    var i := 0;
    while i < |ops|
      invariant 0 <= i <= |ops|
      invariant narrowingSeen <==> exists j :: 0 <= j < i && IsNarrowing(ops[j])
      invariant forall k :: 0 <= k < i ==> IsNarrowing(ops[k])
    {
      var op := ops[i];
      if IsNarrowing(op) {
        narrowingSeen := true;
      } else if op.SetOp? {
        return i + 1 == |ops|;
      } else if IsTerminal(op) {
        return narrowingSeen && i + 1 == |ops|;
      } else {
        return false;
      }
      i := i + 1;
    }
    ok := true;
  }

  // ----- which validated segments compile -----

  predicate Scalar(v: Json) {
    !v.JArray? && !v.JObject?
  }

  /** A list for IN and NOT IN, a scalar for everything else. */
  predicate ValueFits(p: Predicate) {
    if p.op.In? || p.op.NotIn? then p.value.JArray? && forall i :: 0 <= i < |p.value.items| ==> Scalar(p.value.items[i])
    else Scalar(p.value)
  }

  predicate OpFits(op: Op, depth: nat, opts: Options)
    decreases op, 0
  {
    match op
    case FilterOp(p) => ValueFits(p)
    case Recency(m) => m.pred.Some? ==> ValueFits(m.pred.value)
    case Lapsed(m) => m.pred.Some? ==> ValueFits(m.pred.value)
    case SetOp(_, other) => Fits(other, depth + 1, opts)
    case Derive(_, _) => opts.deriveLimit.Some?
    case Characterize(_, _, _, _) => false
    case _ => true
  }

  /** Nesting within the limit, values that match their operators, no Characterize, and a survivor count for a
      Derive. */
  predicate Fits(q: SegmentQuery, depth: nat, opts: Options)
    decreases q, 1
  {
    depth <= MAX_NESTING && forall i :: 0 <= i < |q.ops| ==> OpFits(q.ops[i], depth, opts)
  }

  lemma ValuesOkIff(items: seq<Json>)
    ensures ToValues(items).Ok? <==> forall i :: 0 <= i < |items| ==> Scalar(items[i])
  {
    var r := ToValues(items);
    hide ToValues;
    if r.Ok? {
      forall i | 0 <= i < |items|
        ensures Scalar(items[i])
      {
        assert ToValue(items[i]) == Ok(r.value[i]);
      }
    } else {
      var i :| 0 <= i < |items| && ToValue(items[i]).Err?;
      assert !Scalar(items[i]);
    }
  }

  lemma PredicateOkIff(alias: Alias, p: Predicate)
    ensures PredicateFrag(alias, p).Ok? <==> ValueFits(p)
  {
    if p.value.JArray? {
      ValuesOkIff(p.value.items);
    }
  }

  lemma NarrowOkIff(lib: Library, q: SegmentQuery, op: Op, depth: nat, opts: Options)
    requires IsNarrowing(op) && ValidateOp(lib, op)
    ensures NarrowFrag(op, q, opts).Ok? <==> OpFits(op, depth, opts)
  {
    match op
    case FilterOp(p) => PredicateOkIff(Base, p);
    case Recency(m) => if m.pred.Some? { PredicateOkIff(E, m.pred.value); }
    case Lapsed(m) => if m.pred.Some? { PredicateOkIff(E, m.pred.value); }
    case Feature(_, _, _) =>
    case Exclude(_) =>
  }

  lemma {:induction false} FromOkIff(lib: Library, q: SegmentQuery, i: nat, acc: Acc, depth: nat, opts: Options)
    requires i <= |q.ops| && acc.conjuncts != [] && Validate(lib, q)
    ensures CompileFrom(q, i, acc, depth, opts).Ok? <==> forall j :: i <= j < |q.ops| ==> OpFits(q.ops[j], depth, opts)
    decreases q, |q.ops| - i
  {
    if i < |q.ops| {
      var op := q.ops[i];
      assert ValidateOp(lib, op);
      if op.SetOp? {
        CompilesIff(lib, op.other, depth + 1, opts);
      } else if IsNarrowing(op) {
        NarrowOkIff(lib, q, op, depth, opts);
        var f := NarrowFrag(op, q, opts);
        if f.Ok? {
          FromOkIff(lib, q, i + 1, Extend(acc, op, f.value), depth, opts);
        }
      }
    }
  }

  /** A validated segment compiles exactly when it fits: no other input makes the compiler fail, and none that does not
      fit gets through. */
  lemma {:induction false} CompilesIff(lib: Library, q: SegmentQuery, depth: nat, opts: Options)
    requires Validate(lib, q)
    ensures CompileSpec(q, depth, opts).Ok? <==> Fits(q, depth, opts)
    decreases q, |q.ops| + 1
  {
    if depth <= MAX_NESTING {
      FromOkIff(lib, q, 0, Start(q, opts.tenant), depth, opts);
    }
  }

  // ----- ops after a set operation -----

  /** What the compiler asks of a narrowing op, validated or not. */
  predicate NarrowFits(op: Op)
    requires IsNarrowing(op)
  {
    match op
    case FilterOp(p) => ValueFits(p)
    case Recency(m) => m.pred.Some? ==> ValueFits(m.pred.value)
    case Lapsed(m) => m.pred.Some? ==> ValueFits(m.pred.value)
    case Feature(name, cmp, _) => SplitFeatureName(name).Some? && cmp in {Eq, Ne, Lt, Le, Gt, Ge}
    case Exclude(_) => true
  }

  lemma NarrowFitsIff(q: SegmentQuery, op: Op, opts: Options)
    requires IsNarrowing(op)
    ensures NarrowFrag(op, q, opts).Ok? <==> NarrowFits(op)
  {
    match op
    case FilterOp(p) => PredicateOkIff(Base, p);
    case Recency(m) => if m.pred.Some? { PredicateOkIff(E, m.pred.value); }
    case Lapsed(m) => if m.pred.Some? { PredicateOkIff(E, m.pred.value); }
    case Feature(_, _, _) =>
    case Exclude(_) =>
  }

  /** From op `i` on, the loop reaches a Derive that has its limit before it reaches op `k`. */
  predicate ReachesDerive(q: SegmentQuery, i: nat, k: nat, opts: Options)
    requires i <= k <= |q.ops|
    decreases k - i
  {
    i < k && if IsNarrowing(q.ops[i]) then NarrowFits(q.ops[i]) && ReachesDerive(q, i + 1, k, opts)
             else q.ops[i].Derive? && opts.deriveLimit.Some?
  }

  lemma {:induction false} FromAfterSetOp(q: SegmentQuery, i: nat, acc: Acc, depth: nat, opts: Options, k: nat)
    requires i <= k < |q.ops| - 1 && acc.conjuncts != [] && q.ops[k].SetOp?
    requires forall j :: 0 <= j < k ==> !q.ops[j].SetOp?
    ensures CompileFrom(q, i, acc, depth, opts).Ok? <==> ReachesDerive(q, i, k, opts)
    decreases |q.ops| - i
  {
    if i < k && IsNarrowing(q.ops[i]) {
      NarrowFitsIff(q, q.ops[i], opts);
      var f := NarrowFrag(q.ops[i], q, opts);
      hide NarrowFrag, NarrowFits;
      if f.Ok? {
        FromAfterSetOp(q, i + 1, Extend(acc, q.ops[i], f.value), depth, opts, k);
      }
    }
  }

  /** The validator rejects whatever follows a set operation. */
  lemma AfterSetOpInvalid(lib: Library, q: SegmentQuery, k: nat)
    requires k < |q.ops| - 1 && q.ops[k].SetOp?
    ensures !Validate(lib, q)
  {
  }

  /** The compiler rejects it too, unless it has already returned: when before the first set operation it reaches,
      through ops that compile, a Derive that has its limit. */
  lemma AfterSetOpIff(q: SegmentQuery, depth: nat, opts: Options, k: nat)
    requires k < |q.ops| - 1 && q.ops[k].SetOp?
    requires forall j :: 0 <= j < k ==> !q.ops[j].SetOp?
    ensures CompileSpec(q, depth, opts).Ok? <==> depth <= MAX_NESTING && ReachesDerive(q, 0, k, opts)
  {
    if depth <= MAX_NESTING {
      FromAfterSetOp(q, 0, Start(q, opts.tenant), depth, opts, k);
    }
  }

  /** Such a segment: a Derive, a set operation and an Exclude, with a limit of three. The compiler returns at the
      Derive and never sees the rest. */
  lemma DeriveHidesSetOp(rules: SuppressionRules, tenant: string, other: SegmentQuery)
    ensures var q := SegmentQuery(Dataset("s", "e"), "k",
            [Derive("m", Count(Dataset("s", "e"))), SetOp(Union, other), Exclude("c")], None);
            CompileSpec(q, 0, Options(rules, Some(3), tenant)).Ok?
  {
    var q := SegmentQuery(Dataset("s", "e"), "k",
        [Derive("m", Count(Dataset("s", "e"))), SetOp(Union, other), Exclude("c")], None);
    var opts := Options(rules, Some(3), tenant);
    assert ReachesDerive(q, 0, 1, opts);
    AfterSetOpIff(q, 0, opts, 1);
  }

  // ----- the gap between the two passes -----

  /** A set operation whose branch ends in a terminal op. */
  predicate TerminalInBranch(q: SegmentQuery)
    decreases q
  {
    q.ops != [] && q.ops[|q.ops| - 1].SetOp?
    && var other := q.ops[|q.ops| - 1].other;
       (other.ops != [] && IsTerminal(other.ops[|other.ops| - 1])) || TerminalInBranch(other)
  }

  /** The engine supplies a survivor count only for a Derive at the top, so such a segment never compiles. */
  lemma {:induction false} TerminalInBranchFails(lib: Library, q: SegmentQuery, depth: nat, opts: Options)
    requires Validate(lib, q) && TerminalInBranch(q) && opts.deriveLimit.None?
    ensures CompileSpec(q, depth, opts).Err?
    decreases q
  {
    var last := q.ops[|q.ops| - 1];
    assert ValidateOp(lib, last);
    CompilesIff(lib, last.other, depth + 1, opts);
    CompilesIff(lib, q, depth, opts);
    if TerminalInBranch(last.other) {
      TerminalInBranchFails(lib, last.other, depth + 1, opts);
    } else {
      var inner := last.other.ops[|last.other.ops| - 1];
      assert !OpFits(inner, depth + 1, opts);
    }
    assert Fits(q, depth, opts) ==> OpFits(last, depth, opts);
  }

  /** Such segments exist: the validator accepts what can never compile. */
  lemma TerminalInBranchValidates(lib: Library)
    ensures var narrow := FilterOp(Predicate("c", Eq, JNull));
            var branch := SegmentQuery(Dataset("s", "e"), "k", [narrow, Derive("m", Count(Dataset("s", "e")))], None);
            var q := SegmentQuery(Dataset("s", "e"), "k", [SetOp(Union, branch)], None);
            Validate(lib, q) && TerminalInBranch(q)
  {
    var narrow := FilterOp(Predicate("c", Eq, JNull));
    var branch := SegmentQuery(Dataset("s", "e"), "k", [narrow, Derive("m", Count(Dataset("s", "e")))], None);
    assert IsNarrowing(branch.ops[0]);
    assert Validate(lib, branch);
    assert ValidateOp(lib, SetOp(Union, branch));
  }
}
