/** The segment DSL: queries, operations, and what they name. */
module Ast {
  import opened Sequences

  datatype Dataset = Dataset(system: string, entity: string)

  datatype Json =
    | JNull
    | JBool(b: bool)
    | JInt(i: int)
    | JFloat(f: real)
    | JString(s: string)
    | JArray(items: seq<Json>)
    | JObject

  datatype Cmp = Eq | Ne | Lt | Le | Gt | Ge | In | NotIn | Like | NotLike

  datatype Predicate = Predicate(column: string, op: Cmp, value: Json)

  datatype SetOpKind = Intersect | Union | Minus

  datatype JitMetric =
    | Count(event: Dataset)
    | Sum(event: Dataset, column: string)
    | Avg(event: Dataset, column: string)
    | Min(event: Dataset, column: string)
    | Max(event: Dataset, column: string)

  /** The event match shared by Recency and Lapsed. */
  datatype EventMatch = EventMatch(
    event: Dataset,
    userKey: string,
    tsColumn: string,
    withinDays: nat,
    pred: Option<Predicate>)

  datatype Op =
    | FilterOp(pred: Predicate)
    | Recency(m: EventMatch)
    | Lapsed(m: EventMatch)
    | SetOp(kind: SetOpKind, other: SegmentQuery)
    | Exclude(campaignId: string)
    | Feature(name: string, cmp: Cmp, value: real)
    | Derive(metricName: string, metric: JitMetric)
    | Similar
    | Characterize(event: Dataset, tsColumn: string, monetaryColumn: string, categoryColumn: string)

  datatype SegmentQuery = SegmentQuery(source: Dataset, key: string, ops: seq<Op>, asOf: Option<string>)

  datatype FrequencyCap = FrequencyCap(maxContacts: nat, windowDays: nat) {
    /** Both fields are non-zero integers in the configuration. */
    predicate Valid() {
      maxContacts >= 1 && windowDays >= 1
    }
  }

  datatype SuppressionRules = SuppressionRules(perCampaignNoRepeat: bool, frequencyCap: Option<FrequencyCap>) {
    predicate Valid() {
      frequencyCap.Some? ==> frequencyCap.value.Valid()
    }
  }

  predicate IsNarrowing(op: Op) {
    op.FilterOp? || op.Recency? || op.Lapsed? || op.Feature? || op.Exclude?
  }

  predicate IsTerminal(op: Op) {
    op.Derive? || op.Characterize?
  }

  function MetricColumn(m: JitMetric): Option<string> {
    match m
    case Count(_) => None
    case Sum(_, c) => Some(c)
    case Avg(_, c) => Some(c)
    case Min(_, c) => Some(c)
    case Max(_, c) => Some(c)
  }

  // ----- names -----

  const MAX_IDENT := 64

  predicate IdentChar(c: char) {
    'a' <= c <= 'z' || 'A' <= c <= 'Z' || '0' <= c <= '9' || c == '_'
  }

  predicate ValidIdent(name: string) {
    1 <= |name| <= MAX_IDENT && forall i :: 0 <= i < |name| ==> IdentChar(name[i])
  }

  function DotIndex(s: string, from: nat): (r: nat)
    requires from <= |s|
    ensures from <= r <= |s|
    ensures r < |s| ==> s[r] == '.'
    ensures forall i :: from <= i < r ==> s[i] != '.'
    decreases |s| - from
  {
    if from == |s| || s[from] == '.' then from else DotIndex(s, from + 1)
  }

  /** The text before and after the first dot. */
  function SplitOnce(s: string): (r: Option<(string, string)>)
    ensures r.Some? ==> s == r.value.0 + "." + r.value.1 && '.' !in r.value.0
    ensures r.None? ==> '.' !in s
  {
    var i := DotIndex(s, 0);
    if i == |s| then None else Some((s[..i], s[i + 1..]))
  }

  /** `family.short`, both parts identifiers; `None` where it is invalid input. */
  function SplitFeatureName(name: string): (r: Option<(string, string)>)
    ensures r.Some? ==> name == FeatureName(r.value.0, r.value.1) && ValidIdent(r.value.0) && ValidIdent(r.value.1)
  {
    var parts := SplitOnce(name);
    if parts.Some? && ValidIdent(parts.value.0) && ValidIdent(parts.value.1) then parts else None
  }

  function FeatureName(family: string, short: string): string {
    family + "." + short
  }

  predicate InFamily(name: string, family: string) {
    family + "." <= name
  }

  lemma NoDotInIdent(name: string)
    requires ValidIdent(name)
    ensures '.' !in name
  {
    forall i | 0 <= i < |name|
      ensures name[i] != '.'
    {
      assert IdentChar(name[i]);
    }
  }

  /** Splitting undoes joining, so a feature name determines its view and its column. */
  lemma SplitJoin(family: string, short: string)
    requires ValidIdent(family) && ValidIdent(short)
    ensures SplitFeatureName(FeatureName(family, short)) == Some((family, short))
  {
    NoDotInIdent(family);
    var name := FeatureName(family, short);
    assert name[|family|] == '.';
    assert forall i :: 0 <= i < |family| ==> name[i] == family[i];
    assert DotIndex(name, 0) == |family|;
    assert name[..|family|] == family && name[|family| + 1..] == short;
  }

  /** A family's prefix selects exactly that family's names: no other family's name starts with it. */
  lemma InFamilyIff(name: string, family: string)
    requires ValidIdent(family) && SplitFeatureName(name).Some?
    ensures InFamily(name, family) <==> SplitFeatureName(name).value.0 == family
  {
    var (f, s) := SplitFeatureName(name).value;
    if InFamily(name, family) {
      NoDotInIdent(family);
      NoDotInIdent(f);
      assert name[|family|] == '.' && name[|f|] == '.';
      assert forall i :: 0 <= i < |family| ==> name[i] == family[i];
      assert forall i :: 0 <= i < |f| ==> name[i] == f[i];
      assert |f| == |family|;
      assert f == name[..|f|] == name[..|family|] == family;
    }
  }
}
