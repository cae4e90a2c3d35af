/** Materialising a segment: one INSERT over a wrap over the compiled query, three layers of placeholders deep. */
module Materialize {
  import opened Sequences
  import opened Values
  import opened Ast
  import opened Sql
  import opened Compiler
  import opened Denotation
  import opened CompilerProof
  import opened Binding
  import opened Derive
  import opened Profile

  // ----- the statement -----

  /** LEFT JOIN (SELECT user_id, tenant_id, arg_max... FROM feature_store WHERE starts_with(feature_name, 'family.')
      AND as_of_ts <= CAST(? AS TIMESTAMPTZ) GROUP BY user_id, tenant_id) f ON f.user_id = s.key AND f.tenant_id = ? */
  datatype PivotJoin = PivotJoin(family: string, shorts: seq<string>)

  /** SELECT s.key, json_object(...) AS features, CAST(? AS JSON) AS hit_reason FROM (inner) s joins */
  datatype Wrap = Wrap(inner: Query, joins: seq<PivotJoin>)

  /** INSERT INTO audience_snapshot ... SELECT CAST(? AS UUID), ?, CAST(? AS TIMESTAMPTZ), sub.key, sub.features,
      sub.hit_reason, ? FROM (wrap) sub */
  datatype Insert = Insert(wrap: Wrap)

  function WrapHoles(w: Wrap): nat {
    1 + QueryHoles(w.inner) + 2 * |w.joins|
  }

  function InsertHoles(i: Insert): nat {
    4 + WrapHoles(i.wrap)
  }

  datatype WrapRow = WrapRow(key: Value, features: seq<(string, Value)>)

  datatype SnapshotRow = SnapshotRow(
    snapshotId: Value,
    campaignId: Value,
    asOf: Value,
    userId: Value,
    features: seq<(string, Value)>,
    hitReason: Value,
    tenant: Value)

  // ----- what it inserts -----

  function AtOrBefore(eng: Engine, p: Value): Row -> bool {
    r => Compare3(eng, SymLe, Cell(r, "as_of_ts"), CastTs(eng, p)) == True
  }

  function PivotOn(eng: Engine, key: Value, tenant: Value): Row -> bool {
    f => Compare3(eng, SymEq, Cell(f, "user_id"), key) == True
      && Compare3(eng, SymEq, Cell(f, "tenant_id"), tenant) == True
  }

  function Pairs(family: string, row: Option<Row>): string -> (string, Value) {
    short => (FeatureName(family, short), if row.Some? then Cell(row.value, short) else Null)
  }

  function WithPairs(row: WrapRow, j: PivotJoin, f: Option<Row>): WrapRow {
    WrapRow(row.key, row.features + Map(Pairs(j.family, f), j.shorts))
  }

  function Extended(row: WrapRow, j: PivotJoin, matches: seq<Row>): seq<WrapRow> {
    if matches == [] then [WithPairs(row, j, None)]
    else seq(|matches|, i requires 0 <= i < |matches| => WithPairs(row, j, Some(matches[i])))
  }

  function LeftJoinPivot(eng: Engine, rows: seq<WrapRow>, j: PivotJoin, pivot: seq<Row>, tenant: Value): seq<WrapRow> {
    if rows == [] then []
    else
      Extended(rows[0], j, Filter(PivotOn(eng, rows[0].key, tenant), pivot))
      + LeftJoinPivot(eng, rows[1..], j, pivot, tenant)
  }

  function JoinAll(eng: Engine, db: Db, rows: seq<WrapRow>, joins: seq<PivotJoin>, ps: seq<Value>): seq<WrapRow>
    requires |ps| == 2 * |joins|
    decreases joins
  {
    if joins == [] then rows
    else
      var pivot := Pivot(Filter(AtOrBefore(eng, ps[0]), db.features), joins[0].family, joins[0].shorts);
      JoinAll(eng, db, LeftJoinPivot(eng, rows, joins[0], pivot, ps[1]), joins[1..], ps[2..])
  }

  function Bare(): Value -> WrapRow {
    v => WrapRow(v, [])
  }

  function Stamp(head: seq<Value>, hit: Value, eng: Engine): WrapRow -> SnapshotRow
    requires |head| == 4
  {
    (w: WrapRow) => SnapshotRow(head[0], head[1], CastTs(eng, head[2]), w.key, w.features, hit, head[3])
  }

  function EvalInsert(eng: Engine, db: Db, i: Insert, ps: seq<Value>): seq<SnapshotRow>
    requires |ps| == InsertHoles(i)
  {
    var n := QueryHoles(i.wrap.inner);
    var keys := EvalQuery(eng, db, i.wrap.inner, ps[5..5 + n]);
    var rows := JoinAll(eng, db, Map(Bare(), keys), i.wrap.joins, ps[5 + n..]);
    Map(Stamp(ps[..4], ps[4], eng), rows)
  }

  // ----- how the parameters are gathered -----

  datatype SnapshotSpec = SnapshotSpec(snapshotId: string, campaignId: string, asOfTs: string)

  function JoinParams(n: nat, asOf: string, tenant: string): seq<Value> {
    if n == 0 then [] else JoinParams(n - 1, asOf, tenant) + [Text(asOf), Text(tenant)]
  }

  function InsertParams(spec: SnapshotSpec, hitReason: string, inner: seq<Value>, joins: nat,
                        tenant: string): seq<Value> {
    [Text(spec.snapshotId), Text(spec.campaignId), Text(spec.asOfTs), Text(tenant)]
    + ([Text(hitReason)] + inner + JoinParams(joins, spec.asOfTs, tenant))
  }

  /** The wrap and the insert as they are assembled: pushes in a loop, then a prefix. */
  method Assemble(write: Compiled, families: seq<PivotJoin>, spec: SnapshotSpec, hitReason: string, tenant: string)
    returns (i: Insert, params: seq<Value>)
    requires write.sql.Keys?
    ensures i == Insert(Wrap(write.sql.query, families))
    ensures params == InsertParams(spec, hitReason, write.params, |families|, tenant)
  {
    var wrapParams := [Text(hitReason)];
    wrapParams := wrapParams + write.params;
    var joins: seq<PivotJoin> := [];
    var k := 0;
    while k < |families|
      invariant 0 <= k <= |families|
      invariant joins == families[..k]
      invariant wrapParams == [Text(hitReason)] + write.params + JoinParams(k, spec.asOfTs, tenant)
    {
      joins := joins + [families[k]];
      wrapParams := wrapParams + [Text(spec.asOfTs)];
      wrapParams := wrapParams + [Text(tenant)];
      k := k + 1;
      assert JoinParams(k, spec.asOfTs, tenant) == JoinParams(k - 1, spec.asOfTs, tenant)
             + [Text(spec.asOfTs), Text(tenant)];
    }
    assert families[..k] == families;
    params := [Text(spec.snapshotId), Text(spec.campaignId), Text(spec.asOfTs), Text(tenant)];
    params := params + wrapParams;
    i := Insert(Wrap(write.sql.query, joins));
  }

  // ----- what freezing means -----

  /** The tenant's newest value of a feature for a user, at or before `asOf`; NULL if there is none. */
  ghost function Frozen(eng: Engine, slice: Slice, key: Value, name: string, asOf: int): Value {
    if exists i :: NewestAt(eng, slice.features, key, name, Some(asOf), i) then
      var i :| NewestAt(eng, slice.features, key, name, Some(asOf), i);
      Cell(slice.features[i], "num_value")
    else
      Null
  }

  ghost function FrozenPair(eng: Engine, slice: Slice, key: Value, family: string,
                            asOf: int): string -> (string, Value) {
    short => (FeatureName(family, short), Frozen(eng, slice, key, FeatureName(family, short), asOf))
  }

  ghost function FrozenFeatures(eng: Engine, slice: Slice, key: Value, joins: seq<PivotJoin>,
                                asOf: int): seq<(string, Value)> {
    if joins == [] then []
    else
      Map(FrozenPair(eng, slice, key, joins[0].family, asOf), joins[0].shorts)
      + FrozenFeatures(eng, slice, key, joins[1..], asOf)
  }

  ghost function SnapshotOf(eng: Engine, slice: Slice, joins: seq<PivotJoin>, spec: SnapshotSpec, hitReason: string,
                            tenant: string): Value -> SnapshotRow {
    key => SnapshotRow(Text(spec.snapshotId), Text(spec.campaignId), Ts(eng.parseTs(spec.asOfTs)), key,
                       FrozenFeatures(eng, slice, key, joins, eng.parseTs(spec.asOfTs)), Text(hitReason), Text(tenant))
  }

  ghost predicate PlainShorts(joins: seq<PivotJoin>) {
    forall j, s :: j in joins && s in j.shorts ==> s !in {"user_id", "tenant_id"}
  }

  // ----- proof: one pivot -----

  lemma FrozenIsArgMax(eng: Engine, slice: Slice, key: Value, name: string, asOf: int)
    ensures Frozen(eng, slice, key, name, asOf) == ArgMax(Filter(IsMatch(eng, key, name, Some(asOf)), slice.features))
  {
    var i := NewestIsArgMax(eng, slice.features, key, name, Some(asOf));
    forall j | NewestAt(eng, slice.features, key, name, Some(asOf), j)
      ensures j == i
    {
    }
  }

  /** Bounding the store and then picking the owner's rows is picking the tenant's rows within the bound. */
  lemma BoundedOwned(eng: Engine, db: Db, key: Value, name: string, asOf: string, tenant: string)
    requires Typed(db) && key.Text?
    ensures Filter(OwnedFeature((key, Text(tenant)), name), Filter(AtOrBefore(eng, Text(asOf)), db.features))
            == Filter(IsMatch(eng, key, name, Some(eng.parseTs(asOf))), SliceOf(db, tenant).features)
  {
    var owned, bounded := OwnedFeature((key, Text(tenant)), name), AtOrBefore(eng, Text(asOf));
    var p := IsMatch(eng, key, name, Some(eng.parseTs(asOf)));
    FilterFilter(owned, bounded, db.features);
    forall r | r in db.features
      ensures Both(bounded, owned)(r) == (OfTenant(tenant)(r) && p(r))
    {
      assert TypedFeature(r);
      assert Owner()(r) == (Cell(r, "user_id"), Cell(r, "tenant_id"));
    }
    WhereOverSlice(Both(bounded, owned), p, db.features, tenant);
  }

  function IsOwner(owner: (Value, Value)): ((Value, Value)) -> bool {
    o => o == owner && !owner.0.Null?
  }

  lemma SingleOwner(owners: seq<(Value, Value)>, owner: (Value, Value))
    requires NoDup(owners)
    ensures Filter(IsOwner(owner), owners) == if owner in owners && !owner.0.Null? then [owner] else []
  {
    FilterNoDup(IsOwner(owner), owners);
    FilterHas(IsOwner(owner), owners);
    var kept := Filter(IsOwner(owner), owners);
    hide Filter;
    if kept != [] {
      assert kept[0] in kept && kept[|kept| - 1] in kept;
      assert kept[0] == kept[|kept| - 1] == owner;
    }
  }

  lemma PivotsOn(eng: Engine, rows: seq<Row>, j: PivotJoin, key: Value, tenant: string)
    requires TextOrNull(key) && forall r :: r in rows ==> TypedFeature(r)
    ensures forall o :: o in Owners(rows, j.family) ==>
              IsOwner((key, Text(tenant)))(o) == PivotOn(eng, key,
                      Text(tenant))(ToPivotRow(rows, j.family, j.shorts)(o))
  {
    OwnersAre(rows, j.family);
    hide Owners;
    forall o | o in Owners(rows, j.family)
      ensures IsOwner((key, Text(tenant)))(o) == PivotOn(eng, key,
              Text(tenant))(ToPivotRow(rows, j.family, j.shorts)(o))
    {
      assert TextOrNull(o.0) && TextOrNull(o.1);
      PivotOnIs(eng, rows, j, key, tenant, o);
    }
  }

  lemma PivotOnIs(eng: Engine, rows: seq<Row>, j: PivotJoin, key: Value, tenant: string, o: (Value, Value))
    requires TextOrNull(key) && TextOrNull(o.0) && TextOrNull(o.1)
    ensures IsOwner((key, Text(tenant)))(o) == PivotOn(eng, key, Text(tenant))(ToPivotRow(rows, j.family, j.shorts)(o))
  {
    var row := ToPivotRow(rows, j.family, j.shorts)(o);
    assert Cell(row, "user_id") == o.0 && Cell(row, "tenant_id") == o.1;
    hide PivotRow;
  }

  lemma PivotOfOwner(rows: seq<Row>, j: PivotJoin, owner: (Value, Value))
    ensures Pivot(rows, j.family, j.shorts) == Map(ToPivotRow(rows, j.family, j.shorts), Owners(rows, j.family))
    ensures Map(ToPivotRow(rows, j.family, j.shorts), [owner]) == [PivotRow(rows, j.family, j.shorts, owner)]
    ensures Map(ToPivotRow(rows, j.family, j.shorts), []) == []
  {
    hide PivotRow, Owners;
  }

  /** A key joins the pivot row of its own owner, or none. */
  lemma PivotMatches(eng: Engine, rows: seq<Row>, j: PivotJoin, key: Value, tenant: string)
    requires TextOrNull(key) && forall r :: r in rows ==> TypedFeature(r)
    ensures var owner := (key, Text(tenant));
            Filter(PivotOn(eng, key, Text(tenant)), Pivot(rows, j.family, j.shorts))
            == if key.Text? && owner in Owners(rows, j.family) then [PivotRow(rows, j.family, j.shorts, owner)] else []
  {
    var owner := (key, Text(tenant));
    var owners, f := Owners(rows, j.family), ToPivotRow(rows, j.family, j.shorts);
    DistinctIs(Map(Owner(), Filter(OfFamily(j.family), rows)));
    assert NoDup(owners);
    PivotsOn(eng, rows, j, key, tenant);
    hide *;
    FilterMap(PivotOn(eng, key, Text(tenant)), f, IsOwner(owner), owners);
    SingleOwner(owners, owner);
    PivotOfOwner(rows, j, owner);
  }

  /** The pivot row a key joins under a bound, if any. */
  function Joined(eng: Engine, db: Db, j: PivotJoin, key: Value, asOf: string, tenant: string): Option<Row> {
    var rows := Filter(AtOrBefore(eng, Text(asOf)), db.features);
    var owner := (key, Text(tenant));
    if key.Text? && owner in Owners(rows, j.family) then Some(PivotRow(rows, j.family, j.shorts, owner)) else None
  }

  lemma NotOwnerHasNone(rows: seq<Row>, family: string, short: string, owner: (Value, Value))
    requires owner !in Owners(rows, family)
    ensures Filter(OwnedFeature(owner, FeatureName(family, short)), rows) == []
  {
    OwnersAre(rows, family);
    forall r | r in rows
      ensures !OwnedFeature(owner, FeatureName(family, short))(r)
    {
      if Cell(r, "feature_name") == Text(FeatureName(family, short)) {
        assert FeatureName(family, short)[..|family| + 1] == family + ".";
        assert OfFamily(family)(r);
      }
    }
    FilterNone(OwnedFeature(owner, FeatureName(family, short)), rows);
  }

  /** Each frozen cell is the tenant's newest value within the bound. */
  lemma CellFrozen(eng: Engine, db: Db, j: PivotJoin, short: string, key: Value, asOf: string, tenant: string)
    requires Typed(db) && TextOrNull(key) && short in j.shorts && short !in {"user_id", "tenant_id"}
    ensures Pairs(j.family, Joined(eng, db, j, key, asOf, tenant))(short)
            == FrozenPair(eng, SliceOf(db, tenant), key, j.family, eng.parseTs(asOf))(short)
  {
    FrozenIsArgMax(eng, SliceOf(db, tenant), key, FeatureName(j.family, short), eng.parseTs(asOf));
    if key.Text? {
      JoinedCell(eng, db, j, short, key, asOf, tenant);
    } else {
      FilterNone(IsMatch(eng, key, FeatureName(j.family, short), Some(eng.parseTs(asOf))),
                 SliceOf(db, tenant).features);
    }
    hide Owners, SliceOf, Frozen, IsMatch, AtOrBefore, OwnedFeature, PivotRow, Filter;
  }

  lemma JoinedCell(eng: Engine, db: Db, j: PivotJoin, short: string, key: Value, asOf: string, tenant: string)
    requires Typed(db) && key.Text? && short in j.shorts && short !in {"user_id", "tenant_id"}
    ensures Pairs(j.family, Joined(eng, db, j, key, asOf, tenant))(short)
            == (FeatureName(j.family, short),
                ArgMax(Filter(IsMatch(eng, key, FeatureName(j.family, short), Some(eng.parseTs(asOf))),
                       SliceOf(db, tenant).features)))
  {
    var rows, owner := Filter(AtOrBefore(eng, Text(asOf)), db.features), (key, Text(tenant));
    assert Joined(eng, db, j, key, asOf, tenant)
           == if owner in Owners(rows, j.family) then Some(PivotRow(rows, j.family, j.shorts, owner)) else None;
    hide *;
    BoundedOwned(eng, db, key, FeatureName(j.family, short), asOf, tenant);
    if owner in Owners(rows, j.family) {
      PairOfOwner(rows, j, short, owner);
    } else {
      NotOwnerHasNone(rows, j.family, short, owner);
    }
  }

  lemma PairOfOwner(rows: seq<Row>, j: PivotJoin, short: string, owner: (Value, Value))
    requires short in j.shorts && short !in {"user_id", "tenant_id"}
    ensures Pairs(j.family, Some(PivotRow(rows, j.family, j.shorts, owner)))(short)
            == (FeatureName(j.family, short), ArgMax(Filter(OwnedFeature(owner, FeatureName(j.family, short)), rows)))
  {
    hide ArgMax, Filter, OwnedFeature;
  }

  lemma PairsFrozen(eng: Engine, db: Db, j: PivotJoin, key: Value, asOf: string, tenant: string)
    requires Typed(db) && TextOrNull(key) && forall s :: s in j.shorts ==> s !in {"user_id", "tenant_id"}
    ensures Map(Pairs(j.family, Joined(eng, db, j, key, asOf, tenant)), j.shorts)
            == Map(FrozenPair(eng, SliceOf(db, tenant), key, j.family, eng.parseTs(asOf)), j.shorts)
  {
    hide Joined, SliceOf, Pairs, FrozenPair, Typed;
    forall s | s in j.shorts
      ensures Pairs(j.family, Joined(eng, db, j, key, asOf, tenant))(s)
              == FrozenPair(eng, SliceOf(db, tenant), key, j.family, eng.parseTs(asOf))(s)
    {
      CellFrozen(eng, db, j, s, key, asOf, tenant);
    }
    MapCong(Pairs(j.family, Joined(eng, db, j, key, asOf, tenant)),
            FrozenPair(eng, SliceOf(db, tenant), key, j.family, eng.parseTs(asOf)), j.shorts);
  }

  // ----- proof: all pivots -----

  ghost function Freeze(eng: Engine, slice: Slice, joins: seq<PivotJoin>, asOf: int): WrapRow -> WrapRow {
    (w: WrapRow) => WrapRow(w.key, w.features + FrozenFeatures(eng, slice, w.key, joins, asOf))
  }

  lemma ExtendedOnce(eng: Engine, db: Db, w: WrapRow, j: PivotJoin, asOf: string, tenant: string)
    requires Typed(db) && TextOrNull(w.key) && forall s :: s in j.shorts ==> s !in {"user_id", "tenant_id"}
    ensures var pivot := Pivot(Filter(AtOrBefore(eng, Text(asOf)), db.features), j.family, j.shorts);
            Extended(w, j, Filter(PivotOn(eng, w.key, Text(tenant)), pivot))
            == [WrapRow(w.key, w.features + Map(FrozenPair(eng, SliceOf(db, tenant), w.key, j.family,
              eng.parseTs(asOf)), j.shorts))]
  {
    var rows := Filter(AtOrBefore(eng, Text(asOf)), db.features);
    FilterHas(AtOrBefore(eng, Text(asOf)), db.features);
    PivotMatches(eng, rows, j, w.key, tenant);
    PairsFrozen(eng, db, j, w.key, asOf, tenant);
    ExtendedBy(w, j, Joined(eng, db, j, w.key, asOf, tenant));
    hide Pivot, PivotOn, PivotRow, Owners, SliceOf, FrozenPair, AtOrBefore, Pairs, Filter, Typed, Map, Extended;
  }

  lemma ExtendedBy(w: WrapRow, j: PivotJoin, m: Option<Row>)
    ensures Extended(w, j, if m.Some? then [m.value] else []) == [WithPairs(w, j, m)]
  {
    hide WithPairs;
    if m.Some? {
      assert seq(1, i requires 0 <= i < 1 => WithPairs(w, j, Some([m.value][i]))) == [WithPairs(w, j, m)];
    }
  }

  lemma {:induction false} PivotExtendsEach(eng: Engine, db: Db, rows: seq<WrapRow>, j: PivotJoin, asOf: string,
                                            tenant: string)
    requires Typed(db) && forall s :: s in j.shorts ==> s !in {"user_id", "tenant_id"}
    requires forall w :: w in rows ==> TextOrNull(w.key)
    ensures var pivot := Pivot(Filter(AtOrBefore(eng, Text(asOf)), db.features), j.family, j.shorts);
            LeftJoinPivot(eng, rows, j, pivot, Text(tenant))
                          == Map(Freeze(eng, SliceOf(db, tenant), [j], eng.parseTs(asOf)), rows)
  {
    if rows == [] {
      return;
    }
    hide Pivot, PivotOn, SliceOf, FrozenPair, AtOrBefore, Filter, Typed, Extended;
    ExtendedOnce(eng, db, rows[0], j, asOf, tenant);
    PivotExtendsEach(eng, db, rows[1..], j, asOf, tenant);
    FreezeOne(eng, SliceOf(db, tenant), j, rows[0], eng.parseTs(asOf));
    hide Freeze;
  }

  lemma FreezeIs(eng: Engine, slice: Slice, joins: seq<PivotJoin>, w: WrapRow, asOf: int)
    ensures Freeze(eng, slice, joins, asOf)(w) == WrapRow(w.key,
            w.features + FrozenFeatures(eng, slice, w.key, joins, asOf))
  {
  }

  lemma FrozenCons(eng: Engine, slice: Slice, key: Value, joins: seq<PivotJoin>, asOf: int)
    requires joins != []
    ensures FrozenFeatures(eng, slice, key, joins, asOf)
            == FrozenFeatures(eng, slice, key, [joins[0]], asOf) + FrozenFeatures(eng, slice, key, joins[1..], asOf)
    ensures FrozenFeatures(eng, slice, key, [joins[0]], asOf)
            == Map(FrozenPair(eng, slice, key, joins[0].family, asOf), joins[0].shorts)
  {
    hide FrozenPair, Map;
    assert [joins[0]][1..] == [];
    var m := Map(FrozenPair(eng, slice, key, joins[0].family, asOf), joins[0].shorts);
    assert FrozenFeatures(eng, slice, key, [joins[0]], asOf) == m + FrozenFeatures(eng, slice, key, [], asOf);
    assert m + [] == m;
  }

  lemma FreezeOne(eng: Engine, slice: Slice, j: PivotJoin, w: WrapRow, asOf: int)
    ensures Freeze(eng, slice, [j], asOf)(w)
            == WrapRow(w.key, w.features + Map(FrozenPair(eng, slice, w.key, j.family, asOf), j.shorts))
  {
    hide *;
    FreezeIs(eng, slice, [j], w, asOf);
    FrozenCons(eng, slice, w.key, [j], asOf);
  }

  lemma FreezeTwice(eng: Engine, slice: Slice, joins: seq<PivotJoin>, w: WrapRow, asOf: int)
    requires joins != []
    ensures Freeze(eng, slice, joins[1..], asOf)(Freeze(eng, slice, [joins[0]], asOf)(w))
            == Freeze(eng, slice, joins, asOf)(w)
  {
    hide *;
    FreezeIs(eng, slice, [joins[0]], w, asOf);
    FreezeIs(eng, slice, joins, w, asOf);
    FreezeIs(eng, slice, joins[1..], Freeze(eng, slice, [joins[0]], asOf)(w), asOf);
    FrozenCons(eng, slice, w.key, joins, asOf);
    Assoc(w.features, FrozenFeatures(eng, slice, w.key, [joins[0]], asOf),
          FrozenFeatures(eng, slice, w.key, joins[1..], asOf));
  }

  lemma FreezeAll(eng: Engine, slice: Slice, joins: seq<PivotJoin>, rows: seq<WrapRow>, asOf: int)
    requires joins != []
    ensures Map(Freeze(eng, slice, joins[1..], asOf), Map(Freeze(eng, slice, [joins[0]], asOf), rows))
            == Map(Freeze(eng, slice, joins, asOf), rows)
  {
    hide *;
    forall w | w in rows
      ensures Freeze(eng, slice, joins[1..], asOf)(Freeze(eng, slice, [joins[0]], asOf)(w))
              == Freeze(eng, slice, joins, asOf)(w)
    {
      FreezeTwice(eng, slice, joins, w, asOf);
    }
    MapMap(Freeze(eng, slice, joins[1..], asOf), Freeze(eng, slice, [joins[0]], asOf), Freeze(eng, slice, joins, asOf),
           rows);
  }

  lemma FreezeKeepsKeys(eng: Engine, slice: Slice, joins: seq<PivotJoin>, rows: seq<WrapRow>, asOf: int)
    requires forall w :: w in rows ==> TextOrNull(w.key)
    ensures forall w :: w in Map(Freeze(eng, slice, joins, asOf), rows) ==> TextOrNull(w.key)
  {
    MapHas(Freeze(eng, slice, joins, asOf), rows);
    hide FrozenFeatures, Map;
  }

  lemma {:induction false} JoinParamsCons(n: nat, asOf: string, tenant: string)
    requires n > 0
    ensures |JoinParams(n, asOf, tenant)| == 2 * n
    ensures JoinParams(n, asOf, tenant) == [Text(asOf), Text(tenant)] + JoinParams(n - 1, asOf, tenant)
  {
    if n > 1 {
      JoinParamsCons(n - 1, asOf, tenant);
    }
  }

  lemma JoinAllStep(eng: Engine, db: Db, rows: seq<WrapRow>, joins: seq<PivotJoin>, asOf: string, tenant: string)
    requires joins != []
    ensures |JoinParams(|joins|, asOf, tenant)| == 2 * |joins|
            && |JoinParams(|joins[1..]|, asOf, tenant)| == 2 * |joins[1..]|
    ensures var pivot := Pivot(Filter(AtOrBefore(eng, Text(asOf)), db.features), joins[0].family, joins[0].shorts);
            JoinAll(eng, db, rows, joins, JoinParams(|joins|, asOf, tenant))
            == JoinAll(eng, db, LeftJoinPivot(eng, rows, joins[0], pivot, Text(tenant)), joins[1..],
              JoinParams(|joins[1..]|, asOf, tenant))
  {
    hide Pivot, LeftJoinPivot, AtOrBefore, Filter;
    JoinParamsCons(|joins|, asOf, tenant);
    hide JoinParams;
    JoinAllIs(eng, db, rows, joins, JoinParams(|joins|, asOf, tenant), Text(asOf), Text(tenant),
              JoinParams(|joins[1..]|, asOf, tenant));
  }

  lemma JoinAllIs(eng: Engine, db: Db, rows: seq<WrapRow>, joins: seq<PivotJoin>, ps: seq<Value>, asOf: Value,
                  tenant: Value, rest: seq<Value>)
    requires joins != [] && |ps| == 2 * |joins| && ps == [asOf, tenant] + rest
    ensures var pivot := Pivot(Filter(AtOrBefore(eng, asOf), db.features), joins[0].family, joins[0].shorts);
            JoinAll(eng, db, rows, joins, ps) == JoinAll(eng, db, LeftJoinPivot(eng, rows, joins[0], pivot, tenant),
                    joins[1..], rest)
  {
    hide Pivot, LeftJoinPivot, AtOrBefore, Filter;
    assert ps[0] == asOf && ps[1] == tenant && ps[2..] == rest;
  }

  /** However many pivots are joined, each row stays one row and gains each family's frozen values. */
  lemma {:induction false} JoinAllFreezes(eng: Engine, db: Db, rows: seq<WrapRow>, joins: seq<PivotJoin>, asOf: string,
                                          tenant: string)
    requires Typed(db) && PlainShorts(joins) && forall w :: w in rows ==> TextOrNull(w.key)
    ensures |JoinParams(|joins|, asOf, tenant)| == 2 * |joins|
    ensures JoinAll(eng, db, rows, joins, JoinParams(|joins|, asOf, tenant))
            == Map(Freeze(eng, SliceOf(db, tenant), joins, eng.parseTs(asOf)), rows)
    decreases joins
  {
    if joins == [] {
      FreezeNone(eng, SliceOf(db, tenant), rows, eng.parseTs(asOf));
      return;
    }
    assert joins[0] in joins;
    assert PlainShorts(joins[1..]);
    hide *;
    JoinAllStep(eng, db, rows, joins, asOf, tenant);
    PivotExtendsEach(eng, db, rows, joins[0], asOf, tenant);
    var next := Map(Freeze(eng, SliceOf(db, tenant), [joins[0]], eng.parseTs(asOf)), rows);
    FreezeKeepsKeys(eng, SliceOf(db, tenant), [joins[0]], rows, eng.parseTs(asOf));
    JoinAllFreezes(eng, db, next, joins[1..], asOf, tenant);
    FreezeAll(eng, SliceOf(db, tenant), joins, rows, eng.parseTs(asOf));
  }

  lemma FreezeNone(eng: Engine, slice: Slice, rows: seq<WrapRow>, asOf: int)
    ensures Map(Freeze(eng, slice, [], asOf), rows) == rows
  {
    forall i | 0 <= i < |rows|
      ensures Map(Freeze(eng, slice, [], asOf), rows)[i] == rows[i]
    {
      MapAt(Freeze(eng, slice, [], asOf), rows, i);
      assert rows[i].features + [] == rows[i].features;
    }
  }

  // ----- the whole statement -----

  lemma InsertParamsFit(spec: SnapshotSpec, hitReason: string, inner: seq<Value>, joins: nat, tenant: string)
    ensures |JoinParams(joins, spec.asOfTs, tenant)| == 2 * joins
    ensures var ps, n := InsertParams(spec, hitReason, inner, joins, tenant), |inner|;
            && |ps| == 5 + n + 2 * joins
            && ps[..4] == [Text(spec.snapshotId), Text(spec.campaignId), Text(spec.asOfTs), Text(tenant)]
            && ps[4] == Text(hitReason)
            && ps[5..5 + n] == inner
            && ps[5 + n..] == JoinParams(joins, spec.asOfTs, tenant)
  {
    if joins > 0 {
      JoinParamsCons(joins, spec.asOfTs, tenant);
    }
    hide JoinParams;
  }

  lemma StampFreeze(eng: Engine, slice: Slice, joins: seq<PivotJoin>, spec: SnapshotSpec, hitReason: string,
                    tenant: string, keys: seq<Value>)
    ensures var head := [Text(spec.snapshotId), Text(spec.campaignId), Text(spec.asOfTs), Text(tenant)];
            Map(Stamp(head, Text(hitReason), eng),
                Map(Freeze(eng, slice, joins, eng.parseTs(spec.asOfTs)), Map(Bare(), keys)))
            == Map(SnapshotOf(eng, slice, joins, spec, hitReason, tenant), keys)
  {
    var head := [Text(spec.snapshotId), Text(spec.campaignId), Text(spec.asOfTs), Text(tenant)];
    var freeze := Freeze(eng, slice, joins, eng.parseTs(spec.asOfTs));
    MapMap(freeze, Bare(), FrozenRow(eng, slice, joins, eng.parseTs(spec.asOfTs)), keys) by {
      forall v | v in keys
        ensures freeze(Bare()(v)) == FrozenRow(eng, slice, joins, eng.parseTs(spec.asOfTs))(v)
      {
        var fs := FrozenFeatures(eng, slice, v, joins, eng.parseTs(spec.asOfTs));
        assert [] + fs == fs;
      }
    }
    hide FrozenFeatures;
    MapMap(Stamp(head, Text(hitReason), eng), FrozenRow(eng, slice, joins, eng.parseTs(spec.asOfTs)),
           SnapshotOf(eng, slice, joins, spec, hitReason, tenant), keys);
  }

  ghost function FrozenRow(eng: Engine, slice: Slice, joins: seq<PivotJoin>, asOf: int): Value -> WrapRow {
    v => WrapRow(v, FrozenFeatures(eng, slice, v, joins, asOf))
  }

  /** The materialise statement, its parameters bound left to right: one row per denoted key, every value in its place,
      each feature frozen at the cut-off. */
  lemma MaterializeCorrect(eng: Engine, db: Db, q: SegmentQuery, opts: Options, c: Compiled, joins: seq<PivotJoin>,
                           spec: SnapshotSpec, hitReason: string)
    requires Context(eng, db, opts) && NoShadow(q) && opts.deriveLimit.None? && PlainShorts(joins)
    requires CompileSpec(q, 0, opts) == Ok(c)
    ensures c.sql.Keys? && |InsertParams(spec, hitReason, c.params, |joins|, opts.tenant)|
            == InsertHoles(Insert(Wrap(c.sql.query, joins)))
    ensures var slice := SliceOf(db, opts.tenant);
            var ps := InsertParams(spec, hitReason, c.params, |joins|, opts.tenant);
            exists keys :: NoDup(keys) && Elements(keys) == Denote(eng, slice, opts.rules, q)
                           && EvalInsert(eng, db, Insert(Wrap(c.sql.query, joins)), ps)
                              == Map(SnapshotOf(eng, slice, joins, spec, hitReason, opts.tenant), keys)
  {
    CompileCorrect(eng, db, q, 0, opts, c);
    DenoteTyped(eng, db, q, opts);
    var keys := EvalQuery(eng, db, c.sql.query, c.params);
    assert forall v :: v in keys ==> v in Elements(keys);
    MapHas(Bare(), keys);
    assert forall w :: w in Map(Bare(), keys) ==> TextOrNull(w.key);
    assert |c.params| == QueryHoles(c.sql.query);
    hide EvalQuery, Denote, CompileSpec, SliceOf, Context, NoShadow, Map, Freeze, JoinAll, JoinParams, InsertParams,
         Stamp, SnapshotOf, TextOrNull,
         EvalInsert, InsertHoles;
    EvalInsertIs(eng, db, c.sql.query, joins, spec, hitReason, c.params, opts.tenant);
    JoinAllFreezes(eng, db, Map(Bare(), keys), joins, spec.asOfTs, opts.tenant);
    StampFreeze(eng, SliceOf(db, opts.tenant), joins, spec, hitReason, opts.tenant, keys);
  }

  lemma EvalInsertIs(eng: Engine, db: Db, inner: Query, joins: seq<PivotJoin>, spec: SnapshotSpec, hitReason: string,
                     params: seq<Value>, tenant: string)
    requires |params| == QueryHoles(inner)
    ensures |InsertParams(spec, hitReason, params, |joins|, tenant)| == InsertHoles(Insert(Wrap(inner, joins)))
    ensures |JoinParams(|joins|, spec.asOfTs, tenant)| == 2 * |joins|
    ensures EvalInsert(eng, db, Insert(Wrap(inner, joins)), InsertParams(spec, hitReason, params, |joins|, tenant))
            == Map(Stamp([Text(spec.snapshotId), Text(spec.campaignId), Text(spec.asOfTs), Text(tenant)],
              Text(hitReason), eng),
                   JoinAll(eng, db, Map(Bare(), EvalQuery(eng, db, inner, params)), joins,
                           JoinParams(|joins|, spec.asOfTs, tenant)))
  {
    InsertParamsFit(spec, hitReason, params, |joins|, tenant);
    hide EvalQuery, Map, JoinAll, JoinParams, InsertParams, Stamp;
  }

  // ----- the cut-off -----

  function MinEpoch(sources: seq<Dataset>, epochs: map<Dataset, int>): Option<int> {
    if sources == [] then None
    else
      var rest := MinEpoch(sources[1..], epochs);
      if sources[0] !in epochs then rest
      else if rest.None? || epochs[sources[0]] < rest.value then Some(epochs[sources[0]])
      else rest
  }

  function AsOfEpoch(sources: seq<Dataset>, epochs: map<Dataset, int>, now: int): int {
    var m := MinEpoch(sources, epochs);
    if m.Some? then m.value else now
  }

  /** The cut-off is the oldest registered epoch among the sources read; with none registered it is the clock. */
  lemma {:induction false} CutoffIsOldest(sources: seq<Dataset>, epochs: map<Dataset, int>, now: int)
    ensures MinEpoch(sources, epochs).None? <==> forall d :: d in sources ==> d !in epochs
    ensures forall d :: d in sources && d in epochs ==> AsOfEpoch(sources, epochs, now) <= epochs[d]
    ensures if MinEpoch(sources, epochs).None? then AsOfEpoch(sources, epochs, now) == now
            else exists d :: d in sources && d in epochs && AsOfEpoch(sources, epochs, now) == epochs[d]
  {
    if sources != [] {
      CutoffIsOldest(sources[1..], epochs, now);
      assert forall d :: d in sources <==> d == sources[0] || d in sources[1..];
    }
  }

  // ----- anti-leakage -----

  /** Rows stored later under a newer `as_of_ts`. */
  ghost predicate AllAfter(later: seq<Row>, asOf: int) {
    forall r :: r in later && Cell(r, "as_of_ts").Ts? ==> Cell(r, "as_of_ts").t > asOf
  }

  lemma FrozenStable(eng: Engine, db: Db, later: seq<Row>, tenant: string, key: Value, name: string, asOf: int)
    requires AllAfter(later, asOf)
    ensures Frozen(eng, SliceOf(db.(features := db.features + later), tenant), key, name, asOf)
            == Frozen(eng, SliceOf(db, tenant), key, name, asOf)
  {
    var p := IsMatch(eng, key, name, Some(asOf));
    FrozenIsArgMax(eng, SliceOf(db, tenant), key, name, asOf);
    FrozenIsArgMax(eng, SliceOf(db.(features := db.features + later), tenant), key, name, asOf);
    FilterAppend(OfTenant(tenant), db.features, later);
    FilterAppend(p, TenantRows(db.features, tenant), TenantRows(later, tenant));
    TenantRowsHave(later, tenant);
    FilterNone(p, TenantRows(later, tenant));
    hide Filter, Frozen, IsMatch;
    assert Filter(p, TenantRows(db.features, tenant)) + [] == Filter(p, TenantRows(db.features, tenant));
  }
}
