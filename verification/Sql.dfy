/** The SQL the engine emits, as trees with anonymous holes, and what those trees mean.

    A hole is a `?`. Nothing in the tree says which parameter a hole receives: every evaluator takes the
    parameters of its own subtree, in the order the holes are written, and hands each child its share. */
module Sql {
  import opened Sequences
  import opened Values
  import opened Ast

  // ----- relations -----

  datatype Table = Raw(dataset: Dataset) | FeatureStore | FeatureWide(family: string) | Suppression

  /** The catalogue as one statement sees it. `views` holds the columns of each wide feature view. */
  datatype Db = Db(
    raw: map<Dataset, seq<Row>>,
    features: seq<Row>,
    suppression: seq<Row>,
    views: map<string, seq<string>>)

  /** Why a write is refused: by validation, or by the storage engine. */
  datatype WriteError = InvalidInput | Storage

  function RawRows(db: Db, d: Dataset): seq<Row> {
    if d in db.raw then db.raw[d] else []
  }

  function ViewColumns(db: Db, family: string): seq<string> {
    if family in db.views then db.views[family] else []
  }

  function Relation(db: Db, table: Table): seq<Row> {
    match table
    case Raw(d) => RawRows(db, d)
    case FeatureStore => db.features
    case FeatureWide(family) => Pivot(db.features, family, ViewColumns(db, family))
    case Suppression => db.suppression
  }

  // ----- arg_max and the pivot over the feature store -----

  /** Rows `arg_max(num_value, as_of_ts)` considers: it skips NULLs in either argument. */
  predicate Measured(r: Row) {
    !Cell(r, "num_value").Null? && Cell(r, "as_of_ts").Ts?
  }

  function AsOf(r: Row): int
    requires Measured(r)
  {
    Cell(r, "as_of_ts").t
  }

  /** `arg_max(num_value, as_of_ts)`: the newest row's value; of rows equally new, the first stored. */
  function ArgMaxRow(rows: seq<Row>): (r: Option<Row>)
    ensures r.Some? ==> Measured(r.value)
  {
    if rows == [] then None
    else
      var before := ArgMaxRow(rows[..|rows| - 1]);
      var last := rows[|rows| - 1];
      if Measured(last) && (before.None? || AsOf(before.value) < AsOf(last)) then Some(last) else before
  }

  function ArgMax(rows: seq<Row>): Value {
    var r := ArgMaxRow(rows);
    if r.None? then Null else Cell(r.value, "num_value")
  }

  function OfFamily(family: string): Row -> bool {
    r => Cell(r, "feature_name").Text? && InFamily(Cell(r, "feature_name").s, family)
  }

  function Owner(): Row -> (Value, Value) {
    r => (Cell(r, "user_id"), Cell(r, "tenant_id"))
  }

  function OwnedFeature(owner: (Value, Value), name: string): Row -> bool {
    r => Owner()(r) == owner && Cell(r, "feature_name") == Text(name)
  }

  /** One row per owner: its user, its tenant, and one column per short name. */
  function PivotRow(rows: seq<Row>, family: string, shorts: seq<string>, owner: (Value, Value)): Row {
    (map s | s in shorts :: ArgMax(Filter(OwnedFeature(owner, FeatureName(family, s)), rows)))
    + map["user_id" := owner.0, "tenant_id" := owner.1]
  }

  function ToPivotRow(rows: seq<Row>, family: string, shorts: seq<string>): ((Value, Value)) -> Row {
    owner => PivotRow(rows, family, shorts, owner)
  }

  function Owners(rows: seq<Row>, family: string): seq<(Value, Value)> {
    Distinct(Map(Owner(), Filter(OfFamily(family), rows)))
  }

  /** `SELECT user_id, tenant_id, arg_max(...) FILTER (...) ... WHERE starts_with(feature_name, 'family.')
      GROUP BY user_id, tenant_id`. */
  function Pivot(rows: seq<Row>, family: string, shorts: seq<string>): seq<Row> {
    Map(ToPivotRow(rows, family, shorts), Owners(rows, family))
  }

  // ----- scalar expressions -----

  /** The aliases `base`, `e`, `f` and `s`. */
  datatype Alias = Base | E | F | S

  type Scope = map<Alias, Row>

  datatype Scalar =
    | Hole
    | Literal(v: Value)
    | Column(alias: Alias, name: string)
    | Timestamp(arg: Scalar)
    | NowMinusDays(days: nat)

  function ScalarHoles(e: Scalar): nat {
    match e
    case Hole => 1
    case Timestamp(arg) => ScalarHoles(arg)
    case _ => 0
  }

  function EvalScalar(eng: Engine, scope: Scope, e: Scalar, ps: seq<Value>): Value
    requires |ps| == ScalarHoles(e)
  {
    match e
    case Hole => ps[0]
    case Literal(v) => v
    case Column(a, name) => if a in scope then Cell(scope[a], name) else Null
    case Timestamp(arg) => CastTs(eng, EvalScalar(eng, scope, arg, ps))
    case NowMinusDays(days) => Ts(Cutoff(eng, days))
  }

  datatype Symbol = SymEq | SymNe | SymLt | SymLe | SymGt | SymGe | SymLike | SymNotLike

  predicate Compares(eng: Engine, sym: Symbol, a: Value, b: Value) {
    match sym
    case SymEq => SameValue(eng, a, b)
    case SymNe => !SameValue(eng, a, b)
    case SymLt => LessValue(eng, a, b)
    case SymLe => !LessValue(eng, b, a)
    case SymGt => LessValue(eng, b, a)
    case SymGe => !LessValue(eng, a, b)
    case SymLike => LikeValue(eng, a, b)
    case SymNotLike => !LikeValue(eng, a, b)
  }

  function Compare3(eng: Engine, sym: Symbol, a: Value, b: Value): Tri {
    if a.Null? || b.Null? then Unknown else TriOf(Compares(eng, sym, a, b))
  }

  /** `v IN (items)`: the disjunction of the equalities. */
  function In3(eng: Engine, v: Value, items: seq<Value>): Tri {
    if items == [] then False else TriOr(Compare3(eng, SymEq, v, items[0]), In3(eng, v, items[1..]))
  }

  // ----- conditions -----

  datatype Having =
    | NoGroup
    | CountAtLeast(cols: seq<string>)              // GROUP BY cols HAVING count(*) >= ?
    | NewestCompares(cols: seq<string>, sym: Symbol) // GROUP BY cols HAVING arg_max(num_value, as_of_ts) sym ?

  datatype Cond =
    | Always
    | Never
    | Compare(sym: Symbol, left: Scalar, right: Scalar)
    | InHoles(negated: bool, subject: Scalar, n: nat)
    | InLiterals(subject: Scalar, items: seq<Value>)
    | And(fst: Cond, snd: Cond)
    | Exists(negated: bool, table: Table, alias: Alias, where: Cond, having: Having)

  function HavingHoles(h: Having): nat {
    if h.NoGroup? then 0 else 1
  }

  function Holes(c: Cond): nat {
    match c
    case Compare(_, l, r) => ScalarHoles(l) + ScalarHoles(r)
    case InHoles(_, subject, n) => ScalarHoles(subject) + n
    case InLiterals(subject, _) => ScalarHoles(subject)
    case And(a, b) => Holes(a) + Holes(b)
    case Exists(_, _, _, where, having) => Holes(where) + HavingHoles(having)
    case _ => 0
  }

  function GroupKey(cols: seq<string>, r: Row): seq<Value> {
    seq(|cols|, i requires 0 <= i < |cols| => Cell(r, cols[i]))
  }

  function SameGroup(cols: seq<string>, r: Row): Row -> bool {
    other => GroupKey(cols, other) == GroupKey(cols, r)
  }

  function HavingTri(eng: Engine, h: Having, group: seq<Row>, ps: seq<Value>): Tri
    requires |ps| == HavingHoles(h)
  {
    match h
    case NoGroup => True
    case CountAtLeast(_) => Compare3(eng, SymGe, BigInt(|group|), ps[0])
    case NewestCompares(_, sym) => Compare3(eng, sym, ArgMax(group), ps[0])
  }

  /** Does the subquery return a row? Grouped, it returns one row per group whose HAVING is true. */
  predicate ReturnsRow(eng: Engine, h: Having, rows: seq<Row>, ps: seq<Value>)
    requires |ps| == HavingHoles(h)
  {
    if h.NoGroup? then rows != []
    else exists r :: r in rows && HavingTri(eng, h, Filter(SameGroup(h.cols, r), rows), ps) == True
  }

  function EvalCond(eng: Engine, db: Db, scope: Scope, c: Cond, ps: seq<Value>): Tri
    requires |ps| == Holes(c)
    decreases c, 0
  {
    match c
    case Always => True
    case Never => False
    case Compare(sym, l, r) =>
      Compare3(eng, sym, EvalScalar(eng, scope, l, ps[..ScalarHoles(l)]),
               EvalScalar(eng, scope, r, ps[ScalarHoles(l)..]))
    case InHoles(negated, subject, n) =>
      var t := In3(eng, EvalScalar(eng, scope, subject, ps[..ScalarHoles(subject)]), ps[ScalarHoles(subject)..]);
      if negated then TriNot(t) else t
    case InLiterals(subject, items) => In3(eng, EvalScalar(eng, scope, subject, ps), items)
    case And(a, b) => TriAnd(EvalCond(eng, db, scope, a, ps[..Holes(a)]), EvalCond(eng, db, scope, b, ps[Holes(a)..]))
    case Exists(negated, table, alias, where, having) =>
      var rows := Filter(Satisfies(eng, db, scope, alias, where, ps[..Holes(where)]), Relation(db, table));
      TriOf(ReturnsRow(eng, having, rows, ps[Holes(where)..]) != negated)
  }

  /** A WHERE clause keeps the rows for which the condition is true: not false, and not unknown. */
  function Satisfies(eng: Engine, db: Db, scope: Scope, alias: Alias, c: Cond, ps: seq<Value>): Row -> bool
    requires |ps| == Holes(c)
    decreases c, 1
  {
    r => EvalCond(eng, db, scope[alias := r], c, ps) == True
  }

  // ----- queries over keys -----

  datatype Query =
    | SelectKeys(table: Table, key: string, where: Cond, limit: Option<nat>)
    | Combine(kind: SetOpKind, left: Query, right: Query)

  function QueryHoles(q: Query): nat {
    match q
    case SelectKeys(_, _, where, _) => Holes(where)
    case Combine(_, l, r) => QueryHoles(l) + QueryHoles(r)
  }

  function Project(column: string): Row -> Value {
    r => Cell(r, column)
  }

  function Limited(limit: Option<nat>, keys: seq<Value>): seq<Value> {
    if limit.Some? && limit.value < |keys| then keys[..limit.value] else keys
  }

  function InSeq(s: seq<Value>): Value -> bool {
    v => v in s
  }

  function NotInSeq(s: seq<Value>): Value -> bool {
    v => v !in s
  }

  /** The rows of a query over one column. DISTINCT and the set operators treat NULLs as equal. */
  function EvalQuery(eng: Engine, db: Db, q: Query, ps: seq<Value>): seq<Value>
    requires |ps| == QueryHoles(q)
  {
    match q
    case SelectKeys(table, key, where, limit) =>
      Limited(limit, Distinct(Map(Project(key), Filter(Satisfies(eng, db, map[], Base, where, ps),
              Relation(db, table)))))
    case Combine(kind, l, r) =>
      var a := EvalQuery(eng, db, l, ps[..QueryHoles(l)]);
      var b := EvalQuery(eng, db, r, ps[QueryHoles(l)..]);
      match kind
      case Intersect => Distinct(Filter(InSeq(b), a))
      case Union => Distinct(a + b)
      case Minus => Distinct(Filter(NotInSeq(b), a))
  }

  // ----- statements -----

  datatype Aggregate =
    CountRows | SumOf(column: string) | AvgOf(column: string) | MinOf(column: string) | MaxOf(column: string)

  datatype Statement =
    | Keys(query: Query)
      // WITH survivor AS (...) SELECT ? AS name, agg AS value FROM survivor s JOIN event e ON on
    | Metric(survivor: Query, agg: Aggregate, event: Table, on: Cond)
      // A set operation over a metric: its two sides have different columns, so no engine runs it.
    | Mismatched(kind: SetOpKind, left: Query, right: Statement)

  function StatementHoles(s: Statement): nat {
    match s
    case Keys(q) => QueryHoles(q)
    case Metric(survivor, _, _, on) => QueryHoles(survivor) + 1 + Holes(on)
    case Mismatched(_, l, r) => QueryHoles(l) + StatementHoles(r)
  }

  /** A key of a common table expression, as a row with the one column `user_id`. */
  function KeyRow(v: Value): Row {
    map["user_id" := v]
  }

  function Joins(eng: Engine, db: Db, e: Row, on: Cond, ps: seq<Value>): Value -> bool
    requires |ps| == Holes(on)
  {
    v => EvalCond(eng, db, map[E := e, S := KeyRow(v)], on, ps) == True
  }

  /** One copy of each event row per key it joins. */
  function JoinRows(eng: Engine, db: Db, keys: seq<Value>, events: seq<Row>, on: Cond, ps: seq<Value>): seq<Row>
    requires |ps| == Holes(on)
  {
    if events == [] then []
    else
      var matches := Filter(Joins(eng, db, events[0], on, ps), keys);
      seq(|matches|, _ => events[0]) + JoinRows(eng, db, keys, events[1..], on, ps)
  }

  /** The non-NULL cells of a column cast to DOUBLE. */
  function Numbers(eng: Engine, column: string, rows: seq<Row>): seq<real> {
    if rows == [] then []
    else
      var cell := Cell(rows[0], column);
      (if cell.Text? then [eng.parseDouble(cell.s)] else []) + Numbers(eng, column, rows[1..])
  }

  function Total(xs: seq<real>): real {
    if xs == [] then 0.0 else xs[0] + Total(xs[1..])
  }

  function Least(xs: seq<real>): real
    requires xs != []
  {
    if |xs| == 1 || xs[0] <= Least(xs[1..]) then xs[0] else Least(xs[1..])
  }

  function Greatest(xs: seq<real>): real
    requires xs != []
  {
    if |xs| == 1 || xs[0] >= Greatest(xs[1..]) then xs[0] else Greatest(xs[1..])
  }

  /** An aggregate over rows; over no numbers every aggregate but the count is NULL. */
  function Aggregated(eng: Engine, agg: Aggregate, rows: seq<Row>): Value {
    if agg.CountRows? then BigInt(|rows|)
    else
      var xs := Numbers(eng, agg.column, rows);
      if xs == [] then Null
      else match agg
           case SumOf(_) => Double(Total(xs))
           case AvgOf(_) => Double(Total(xs) / (|xs| as real))
           case MinOf(_) => Double(Least(xs))
           case MaxOf(_) => Double(Greatest(xs))
  }

  /** The one row (name, value) of a metric statement. */
  function EvalMetric(eng: Engine, db: Db, s: Statement, ps: seq<Value>): (Value, Value)
    requires s.Metric? && |ps| == StatementHoles(s)
  {
    var n := QueryHoles(s.survivor);
    var keys := EvalQuery(eng, db, s.survivor, ps[..n]);
    (ps[n], Aggregated(eng, s.agg, JoinRows(eng, db, keys, Relation(db, s.event), s.on, ps[n + 1..])))
  }
}
