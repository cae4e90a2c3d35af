/** What a segment means, said without SQL: first-order, two-valued, and over one tenant's rows only. */
module Denotation {
  import opened Sequences
  import opened Values
  import opened Ast
  import opened Sql
  import opened Compiler

  // ----- one tenant's part of the catalogue -----

  /** Tables in which the tenant has no row do not appear, so a slice says nothing about other tenants. */
  datatype Slice = Slice(raw: map<Dataset, seq<Row>>, features: seq<Row>, suppression: seq<Row>)

  function OfTenant(tenant: string): Row -> bool {
    r => Cell(r, "tenant_id") == Text(tenant)
  }

  function TenantRows(rows: seq<Row>, tenant: string): seq<Row> {
    Filter(OfTenant(tenant), rows)
  }

  function SliceOf(db: Db, tenant: string): Slice {
    Slice(
      map d | d in db.raw && TenantRows(db.raw[d], tenant) != [] :: TenantRows(db.raw[d], tenant),
      TenantRows(db.features, tenant),
      TenantRows(db.suppression, tenant))
  }

  function SliceRows(slice: Slice, d: Dataset): seq<Row> {
    if d in slice.raw then slice.raw[d] else []
  }

  // ----- the meaning of one op on one base row -----

  ghost predicate SameKey(eng: Engine, a: Value, b: Value) {
    !a.Null? && !b.Null? && SameValue(eng, a, b)
  }

  /** A comparison with a missing side holds of nothing, not even `Ne` or `NotLike`. */
  ghost predicate CmpHolds(eng: Engine, op: Cmp, a: Value, b: Value) {
    && !a.Null?
    && !b.Null?
    && match op
       case Eq => SameValue(eng, a, b)
       case Ne => !SameValue(eng, a, b)
       case Lt => LessValue(eng, a, b)
       case Le => !LessValue(eng, b, a)
       case Gt => LessValue(eng, b, a)
       case Ge => !LessValue(eng, a, b)
       case Like => LikeValue(eng, a, b)
       case NotLike => !LikeValue(eng, a, b)
       case _ => false
  }

  ghost predicate ItemIs(eng: Engine, item: Json, cell: Value) {
    ToValue(item).Ok? && SameKey(eng, cell, ToValue(item).value)
  }

  /** An item is ruled out only when both it and the cell are present and they differ. */
  ghost predicate ItemIsNot(eng: Engine, item: Json, cell: Value) {
    ToValue(item).Ok? && CmpHolds(eng, Ne, cell, ToValue(item).value)
  }

  ghost predicate PredicateHolds(eng: Engine, row: Row, p: Predicate) {
    var cell := Cell(row, p.column);
    if p.op.In? then p.value.JArray? && exists i :: 0 <= i < |p.value.items| && ItemIs(eng, p.value.items[i], cell)
    else if p.op.NotIn? then
      p.value.JArray? && forall i :: 0 <= i < |p.value.items| ==> ItemIsNot(eng, p.value.items[i], cell)
    else ToValue(p.value).Ok? && CmpHolds(eng, p.op, cell, ToValue(p.value).value)
  }

  ghost predicate EventMatches(eng: Engine, m: EventMatch, key: Value, e: Row) {
    && SameKey(eng, Cell(e, m.userKey), key)
    && (m.pred.Some? ==> PredicateHolds(eng, e, m.pred.value))
  }

  ghost predicate InWindow(eng: Engine, m: EventMatch, e: Row) {
    var ts := CastTs(eng, Cell(e, m.tsColumn));
    ts.Ts? && ts.t >= Cutoff(eng, m.withinDays)
  }

  ghost predicate BeforeWindow(eng: Engine, m: EventMatch, e: Row) {
    var ts := CastTs(eng, Cell(e, m.tsColumn));
    ts.Ts? && ts.t < Cutoff(eng, m.withinDays)
  }

  ghost predicate SomeRecent(eng: Engine, slice: Slice, m: EventMatch, key: Value) {
    exists e :: e in SliceRows(slice, m.event) && EventMatches(eng, m, key, e) && InWindow(eng, m, e)
  }

  ghost predicate SomeEarlier(eng: Engine, slice: Slice, m: EventMatch, key: Value) {
    exists e :: e in SliceRows(slice, m.event) && EventMatches(eng, m, key, e) && BeforeWindow(eng, m, e)
  }

  // ----- features -----

  ghost predicate Qualifies(eng: Engine, key: Value, name: string, bound: Option<int>, r: Row) {
    && Measured(r)
    && SameKey(eng, Cell(r, "user_id"), key)
    && Cell(r, "feature_name") == Text(name)
    && (bound.Some? ==> AsOf(r) <= bound.value)
  }

  /** Row `i` is the newest that qualifies; among equally new rows it is the first stored. */
  ghost predicate NewestAt(eng: Engine, rows: seq<Row>, key: Value, name: string, bound: Option<int>, i: int) {
    && 0 <= i < |rows|
    && Qualifies(eng, key, name, bound, rows[i])
    && forall j :: 0 <= j < |rows| && Qualifies(eng, key, name, bound, rows[j]) ==>
         AsOf(rows[j]) < AsOf(rows[i]) || (AsOf(rows[j]) == AsOf(rows[i]) && i <= j)
  }

  ghost predicate FeatureHolds(eng: Engine, slice: Slice, key: Value, name: string, op: Cmp, value: real,
                               bound: Option<int>) {
    exists i :: NewestAt(eng, slice.features, key, name, bound, i)
                && CmpHolds(eng, op, Cell(slice.features[i], "num_value"), Double(value))
  }

  function Bound(eng: Engine, asOf: Option<string>): Option<int> {
    if asOf.Some? then Some(eng.parseTs(asOf.value)) else None
  }

  // ----- suppression -----

  ghost predicate Contacted(eng: Engine, key: Value, campaignId: string, s: Row) {
    && SameKey(eng, Cell(s, "user_id"), key)
    && Cell(s, "campaign_id") == Text(campaignId)
    && Cell(s, "action") in {Text("targeted"), Text("delivered")}
  }

  /** The frequency cap counts `targeted` outcomes only. */
  predicate TargetedSince(eng: Engine, key: Value, cutoff: int, s: Row) {
    && !Cell(s, "user_id").Null? && !key.Null? && SameValue(eng, Cell(s, "user_id"), key)
    && Cell(s, "action") == Text("targeted")
    && Cell(s, "occurred_ts").Ts? && Cell(s, "occurred_ts").t >= cutoff
  }

  function IsTargetedSince(eng: Engine, key: Value, cutoff: int): Row -> bool {
    s => TargetedSince(eng, key, cutoff, s)
  }

  ghost predicate NotSuppressed(eng: Engine, slice: Slice, rules: SuppressionRules, key: Value, campaignId: string) {
    && (rules.perCampaignNoRepeat ==>
          !exists s :: s in slice.suppression && Contacted(eng, key, campaignId, s))
    && (rules.frequencyCap.Some? ==>
          var cap := rules.frequencyCap.value;
          |Filter(IsTargetedSince(eng, key, Cutoff(eng, cap.windowDays)), slice.suppression)| < cap.maxContacts)
  }

  // ----- the meaning of a segment -----

  ghost predicate Holds(eng: Engine, slice: Slice, rules: SuppressionRules, q: SegmentQuery, op: Op, row: Row) {
    var key := Cell(row, q.key);
    match op
    case FilterOp(p) => PredicateHolds(eng, row, p)
    case Recency(m) => SomeRecent(eng, slice, m, key)
    case Lapsed(m) => SomeEarlier(eng, slice, m, key) && !SomeRecent(eng, slice, m, key)
    case Feature(name, cmp, value) => FeatureHolds(eng, slice, key, name, cmp, value, Bound(eng, q.asOf))
    case Exclude(campaignId) => NotSuppressed(eng, slice, rules, key, campaignId)
    case _ => true
  }

  ghost predicate HoldsUpTo(eng: Engine, slice: Slice, rules: SuppressionRules, q: SegmentQuery, n: nat, row: Row)
    requires n <= |q.ops|
  {
    forall i :: 0 <= i < n ==> Holds(eng, slice, rules, q, q.ops[i], row)
  }

  /** The keys of the tenant's base rows for which the first `n` ops hold. */
  ghost function KeysUpTo(eng: Engine, slice: Slice, rules: SuppressionRules, q: SegmentQuery, n: nat): set<Value>
    requires n <= |q.ops|
  {
    set r | r in SliceRows(slice, q.source) && HoldsUpTo(eng, slice, rules, q, n, r) :: Cell(r, q.key)
  }

  ghost function CombineSets(kind: SetOpKind, a: set<Value>, b: set<Value>): set<Value> {
    match kind
    case Intersect => a * b
    case Union => a + b
    case Minus => a - b
  }

  /** The set of keys a segment denotes; a missing key is an ordinary member. */
  ghost function Denote(eng: Engine, slice: Slice, rules: SuppressionRules, q: SegmentQuery): set<Value>
    decreases q
  {
    var here := KeysUpTo(eng, slice, rules, q, |q.ops|);
    if q.ops != [] && q.ops[|q.ops| - 1].SetOp? then
      var last := q.ops[|q.ops| - 1];
      CombineSets(last.kind, here, Denote(eng, slice, rules, last.other))
    else
      here
  }

  // ----- what the catalogue guarantees about itself -----

  ghost predicate TextOrNull(v: Value) {
    v.Text? || v.Null?
  }

  /** The column types of the CREATE TABLE statements. */
  ghost predicate TypedFeature(r: Row) {
    && TextOrNull(Cell(r, "user_id")) && TextOrNull(Cell(r, "feature_name")) && TextOrNull(Cell(r, "tenant_id"))
    && (Cell(r, "num_value").Double? || Cell(r, "num_value").Null?)
    && (Cell(r, "as_of_ts").Ts? || Cell(r, "as_of_ts").Null?)
  }

  ghost predicate TypedSuppression(r: Row) {
    && TextOrNull(Cell(r, "user_id")) && TextOrNull(Cell(r, "campaign_id")) && TextOrNull(Cell(r, "action"))
    && TextOrNull(Cell(r, "tenant_id"))
    && (Cell(r, "occurred_ts").Ts? || Cell(r, "occurred_ts").Null?)
  }

  ghost predicate TypedRaw(r: Row) {
    forall c :: c in r ==> TextOrNull(r[c])
  }

  ghost predicate Typed(db: Db) {
    && (forall d, r :: d in db.raw && r in db.raw[d] ==> TypedRaw(r))
    && (forall r :: r in db.features ==> TypedFeature(r))
    && (forall r :: r in db.suppression ==> TypedSuppression(r))
  }

  /** Every stored feature has its column in its family's wide view. */
  ghost predicate ViewsCover(db: Db) {
    forall r, f, s ::
      r in db.features && ValidIdent(f) && ValidIdent(s) && Cell(r, "feature_name") == Text(FeatureName(f, s)) ==>
        s in ViewColumns(db, f)
  }

  /** No feature read through a wide view is called like one of the view's own two columns. */
  ghost predicate NoShadow(q: SegmentQuery)
    decreases q
  {
    forall i :: 0 <= i < |q.ops| ==>
      && (q.asOf.None? && q.ops[i].Feature? && SplitFeatureName(q.ops[i].name).Some? ==>
            SplitFeatureName(q.ops[i].name).value.1 !in {"user_id", "tenant_id"})
      && (q.ops[i].SetOp? ==> NoShadow(q.ops[i].other))
  }
}
