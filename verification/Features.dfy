/** The feature store and its wide views: written in one transaction, so the index always agrees with the base. */
module Features {
  import opened Sequences
  import opened Values
  import opened Ast
  import opened Sql
  import opened Compiler
  import opened Denotation
  import opened CompilerProof

  datatype FeatureRow = FeatureRow(userId: string, featureName: string, numValue: real, asOfTs: string,
                                   producerId: string)

  /** `^[a-zA-Z0-9_.]{1,64}$` */
  predicate ValidFeatureName(name: string) {
    1 <= |name| <= MAX_IDENT && forall i :: 0 <= i < |name| ==> IdentChar(name[i]) || name[i] == '.'
  }

  predicate Acceptable(r: FeatureRow) {
    ValidFeatureName(r.featureName) && ValidFeatureName(r.producerId)
  }

  /** The stored form of a row. */
  function Stored(eng: Engine, r: FeatureRow, tenant: string): Row {
    map["user_id" := Text(r.userId), "feature_name" := Text(r.featureName), "num_value" := Double(r.numValue),
        "as_of_ts" := Ts(eng.parseTs(r.asOfTs)), "producer_id" := Text(r.producerId), "tenant_id" := Text(tenant)]
  }

  function StoredRows(eng: Engine, rows: seq<FeatureRow>, tenant: string): (r: seq<Row>)
    ensures |r| == |rows|
  {
    seq(|rows|, i requires 0 <= i < |rows| => Stored(eng, rows[i], tenant))
  }

  // ----- the index -----

  function NameOf(r: Row): Option<(string, string)> {
    if Cell(r, "feature_name").Text? then SplitFeatureName(Cell(r, "feature_name").s) else None
  }

  /** Is `short` stored for `family`, by any tenant? */
  ghost predicate IsStored(rows: seq<Row>, family: string, short: string) {
    exists i :: 0 <= i < |rows| && NameOf(rows[i]) == Some((family, short))
  }

  /** Each wide view has exactly the stored short names of its family as columns, each once. */
  ghost predicate IndexAgrees(rows: seq<Row>, views: map<string, seq<string>>) {
    && (forall f, s :: IsStored(rows, f, s) <==> f in views && s in views[f])
    && (forall f :: f in views ==> NoDup(views[f]))
  }

  ghost predicate WellStored(rows: seq<Row>) {
    forall i :: 0 <= i < |rows| ==> TypedFeature(rows[i]) && NameOf(rows[i]).Some?
  }

  /** `feature_short_names`: the short names stored under a family's prefix. */
  method ShortNames(rows: seq<Row>, family: string) returns (shorts: set<string>)
    requires WellStored(rows) && ValidIdent(family)
    ensures forall s :: s in shorts <==> IsStored(rows, family, s)
  {
    shorts := {};
    var i := 0;
    while i < |rows|
      invariant 0 <= i <= |rows|
      invariant forall s :: s in shorts <==> exists k :: 0 <= k < i && NameOf(rows[k]) == Some((family, s))
    {
      var name := Cell(rows[i], "feature_name").s;
      InFamilyIff(name, family);
      if InFamily(name, family) {
        shorts := shorts + {SplitFeatureName(name).value.1};
      }
      i := i + 1;
    }
  }

  method ToSeq(s: set<string>) returns (r: seq<string>)
    ensures Elements(r) == s && NoDup(r)
  {
    r := [];
    var rest := s;
    while rest != {}
      invariant NoDup(r) && Elements(r) + rest == s && Elements(r) !! rest
      decreases rest
    {
      var x :| x in rest;
      assert x !in Elements(r);
      r := r + [x];
      rest := rest - {x};
    }
  }

  class FeatureWriter {
    var features: seq<Row>
    var views: map<string, seq<string>>
    var tenant: string
    var generation: nat

    ghost predicate Valid()
      reads this
    {
      WellStored(features) && IndexAgrees(features, views)
    }

    constructor (tenant: string)
      ensures Valid() && features == [] && views == map[] && this.tenant == tenant
    {
      features, views, generation := [], map[], 0;
      this.tenant := tenant;
    }

    /** Rebuilding one family's view inside the transaction; the engine may fail it. */
    method Refresh(family: string) returns (ok: bool)
      requires WellStored(features) && ValidIdent(family)
      modifies this`views
      ensures ok ==> ViewExact(features, views, family)
      ensures ok ==> forall f :: f != family ==> SameView(old(views), views, f)
    {
      var shorts := ShortNames(features, family);
      var columns := ToSeq(shorts);
      ok := *;
      if ok {
        assert forall s :: s in columns <==> s in Elements(columns);
        views := views[family := columns];
      }
    }

    /** Every touched family's view, one after the other. */
    method RefreshAll(families: set<string>) returns (ok: bool)
      requires WellStored(features) && forall f :: f in families ==> ValidIdent(f)
      modifies this`views
      ensures ok ==> forall f :: f in families ==> ViewExact(features, views, f)
      ensures ok ==> forall f :: f !in families ==> SameView(old(views), views, f)
    {
      var rest := families;
      ok := true;
      while rest != {} && ok
        invariant rest <= families
        invariant ok ==> forall f :: f in families - rest ==> ViewExact(features, views, f)
        invariant ok ==> forall f :: f !in families - rest ==> SameView(old(views), views, f)
        decreases rest
      {
        var f :| f in rest;
        ghost var before := views;
        ok := Refresh(f);
        forall g | ok && g in families - rest
          ensures ViewExact(features, views, g)
        {
          assert ViewExact(features, before, g) && SameView(before, views, g);
        }
        forall g | ok && g !in families - (rest - {f})
          ensures SameView(old(views), views, g)
        {
          assert SameView(old(views), before, g) && SameView(before, views, g);
        }
        rest := rest - {f};
      }
    }

    /** `write_features_and_refresh`: copy, insert, rebuild each touched view, then commit or restore. The engine may
        fail the insert, any view, or the commit. */
    method WriteFeatures(eng: Engine, rows: seq<FeatureRow>) returns (r: Result<nat, WriteError>)
      requires Valid()
      modifies this
      ensures Valid() && tenant == old(tenant)
      ensures rows == [] ==> r == Ok(0) && features == old(features) && views == old(views)
                              && generation == old(generation)
      ensures r.Ok? && rows != [] ==>
                && r.value == |rows| && generation == old(generation) + 1
                && features == old(features) + StoredRows(eng, rows, tenant)
      ensures r.Ok? ==> forall i :: 0 <= i < |rows|
                         ==> Acceptable(rows[i]) && SplitFeatureName(rows[i].featureName).Some?
      ensures r.Err? ==> features == old(features) && views == old(views) && generation == old(generation)
      ensures r == Err(InvalidInput) ==>
                exists i :: 0 <= i < |rows| && (!Acceptable(rows[i]) || SplitFeatureName(rows[i].featureName).None?)
    {
      if rows == [] {
        return Ok(0);
      }
      var before, viewsBefore := features, views;
      if exists i :: 0 <= i < |rows| && !Acceptable(rows[i]) {
        return Err(InvalidInput);
      }
      var inserted: bool := *;
      if !inserted {
        return Err(Storage);
      }
      features := features + StoredRows(eng, rows, tenant);
      var families, good := FamiliesOf(rows);
      if !good {
        features := before;
        return Err(InvalidInput);
      }
      AppendWellStored(eng, before, rows, tenant);
      var refreshed := RefreshAll(families);
      var committed: bool := *;
      if !refreshed || !committed {
        features, views := before, viewsBefore;
        return Err(Storage);
      }
      AppendAgrees(eng, before, viewsBefore, rows, tenant, families, views);
      generation := generation + 1;
      r := Ok(|rows|);
    }
  }

  ghost predicate ViewExact(rows: seq<Row>, views: map<string, seq<string>>, f: string) {
    f in views && NoDup(views[f]) && forall s :: s in views[f] <==> IsStored(rows, f, s)
  }

  ghost predicate SameView(before: map<string, seq<string>>, after: map<string, seq<string>>, f: string) {
    (f in before <==> f in after) && (f in before ==> before[f] == after[f])
  }

  ghost predicate HasFamily(rows: seq<FeatureRow>, f: string) {
    exists i :: 0 <= i < |rows| && SplitFeatureName(rows[i].featureName).Some?
      && SplitFeatureName(rows[i].featureName).value.0 == f
  }

  /** The families of a batch; `good` is false as soon as a name does not split. */
  method FamiliesOf(rows: seq<FeatureRow>) returns (families: set<string>, good: bool)
    ensures good <==> forall i :: 0 <= i < |rows| ==> SplitFeatureName(rows[i].featureName).Some?
    ensures good ==> forall f :: f in families <==> HasFamily(rows, f)
  {
    families := {};
    var k := 0;
    while k < |rows|
      invariant 0 <= k <= |rows|
      invariant forall i :: 0 <= i < k ==> SplitFeatureName(rows[i].featureName).Some?
      invariant forall f :: f in families <==>
                  exists i :: 0 <= i < k && SplitFeatureName(rows[i].featureName).value.0 == f
    {
      var parts := SplitFeatureName(rows[k].featureName);
      if parts.None? {
        return families, false;
      }
      families := families + {parts.value.0};
      hide SplitFeatureName;
      k := k + 1;
    }
    good := true;
  }

  lemma StoredName(eng: Engine, r: FeatureRow, tenant: string)
    ensures NameOf(Stored(eng, r, tenant)) == SplitFeatureName(r.featureName)
    ensures TypedFeature(Stored(eng, r, tenant))
  {
    hide SplitFeatureName;
  }

  lemma AppendWellStored(eng: Engine, before: seq<Row>, rows: seq<FeatureRow>, tenant: string)
    requires WellStored(before) && forall i :: 0 <= i < |rows| ==> SplitFeatureName(rows[i].featureName).Some?
    ensures WellStored(before + StoredRows(eng, rows, tenant))
    ensures forall f :: HasFamily(rows, f) ==> ValidIdent(f)
  {
    var all := before + StoredRows(eng, rows, tenant);
    forall i | 0 <= i < |all|
      ensures TypedFeature(all[i]) && NameOf(all[i]).Some?
    {
      if i >= |before| {
        StoredName(eng, rows[i - |before|], tenant);
      }
    }
  }

  /** Only the batch's own families gain names. */
  lemma AppendStored(eng: Engine, before: seq<Row>, rows: seq<FeatureRow>, tenant: string, f: string, s: string)
    ensures IsStored(before + StoredRows(eng, rows, tenant), f, s)
            <==> IsStored(before, f, s) || exists i :: 0 <= i < |rows|
                                            && SplitFeatureName(rows[i].featureName) == Some((f, s))
  {
    var all := before + StoredRows(eng, rows, tenant);
    forall i | 0 <= i < |rows|
      ensures NameOf(all[|before| + i]) == SplitFeatureName(rows[i].featureName)
    {
      StoredName(eng, rows[i], tenant);
    }
    hide NameOf, SplitFeatureName, StoredRows;
    assert forall i :: 0 <= i < |before| ==> all[i] == before[i];
    if i :| 0 <= i < |all| && NameOf(all[i]) == Some((f, s)) {
      if i >= |before| {
        assert SplitFeatureName(rows[i - |before|].featureName) == NameOf(all[|before| + (i - |before|)]);
      }
    }
  }

  lemma AppendAgrees(eng: Engine, before: seq<Row>, viewsBefore: map<string, seq<string>>, rows: seq<FeatureRow>,
                     tenant: string,
                     families: set<string>, views: map<string, seq<string>>)
    requires IndexAgrees(before, viewsBefore)
    requires forall f :: f in families <==> HasFamily(rows, f)
    requires forall f :: f in families ==> ViewExact(before + StoredRows(eng, rows, tenant), views, f)
    requires forall f :: f !in families ==> SameView(viewsBefore, views, f)
    ensures IndexAgrees(before + StoredRows(eng, rows, tenant), views)
  {
    var all := before + StoredRows(eng, rows, tenant);
    forall f, s
      ensures IsStored(all, f, s) <==> f in views && s in views[f]
    {
      AppendStored(eng, before, rows, tenant, f, s);
      hide IsStored, StoredRows, SplitFeatureName;
      if f in families {
        assert ViewExact(all, views, f);
      } else {
        assert SameView(viewsBefore, views, f) && !HasFamily(rows, f);
      }
    }
    hide IsStored, StoredRows, HasFamily;
    forall f | f in views
      ensures NoDup(views[f])
    {
      if f in families {
        assert ViewExact(all, views, f);
      } else {
        assert SameView(viewsBefore, views, f);
      }
    }
  }

  // ----- what agreement buys -----

  /** The catalogue a writer's state presents to queries satisfies what the compiler's theorem asks of it. */
  lemma AgreesCovers(db: Db)
    requires WellStored(db.features) && IndexAgrees(db.features, db.views)
    ensures ViewsCover(db)
  {
    forall r, f, s | r in db.features && ValidIdent(f) && ValidIdent(s)
        && Cell(r, "feature_name") == Text(FeatureName(f, s))
      ensures s in ViewColumns(db, f)
    {
      SplitJoin(f, s);
      var i :| 0 <= i < |db.features| && db.features[i] == r;
      assert NameOf(db.features[i]) == Some((f, s));
      assert IsStored(db.features, f, s);
    }
  }

  /** No row of the tenant is newer than the bound. */
  ghost predicate NothingNewer(slice: Slice, bound: int) {
    forall r :: r in slice.features && Measured(r) ==> AsOf(r) <= bound
  }

  lemma BoundIrrelevant(eng: Engine, slice: Slice, key: Value, name: string, op: Cmp, value: real, bound: int)
    requires NothingNewer(slice, bound)
    ensures FeatureHolds(eng, slice, key, name, op, value, None)
            <==> FeatureHolds(eng, slice, key, name, op, value, Some(bound))
  {
    forall i | 0 <= i < |slice.features|
      ensures Qualifies(eng, key, name, None, slice.features[i])
              <==> Qualifies(eng, key, name, Some(bound), slice.features[i])
    {
      assert slice.features[i] in slice.features;
    }
    hide Qualifies, CmpHolds;
    assert forall i :: NewestAt(eng, slice.features, key, name, None, i)
            <==> NewestAt(eng, slice.features, key, name, Some(bound), i);
  }

  /** The fast path and the point-in-time path agree once the cut-off reaches the newest stored row: both compiled
      predicates are true of the same base rows. */
  lemma WideAgreesWithPointInTime(eng: Engine, db: Db, scope: Scope, baseKey: string, name: string, op: Cmp,
                                  value: real, tenant: string, asOf: string,
                                  wide: Frag, eav: Frag)
    requires Typed(db) && WellStored(db.features) && IndexAgrees(db.features, db.views)
    requires Base in scope && TextOrNull(Cell(scope[Base], baseKey))
    requires FeatureFrag(name, op, value, baseKey, tenant, None) == Ok(wide)
    requires FeatureFrag(name, op, value, baseKey, tenant, Some(asOf)) == Ok(eav)
    requires SplitFeatureName(name).value.1 !in {"user_id", "tenant_id"}
    requires NothingNewer(SliceOf(db, tenant), eng.parseTs(asOf))
    ensures |wide.params| == Holes(wide.cond) && |eav.params| == Holes(eav.cond)
    ensures EvalCond(eng, db, scope, wide.cond, wide.params) == True
            <==> EvalCond(eng, db, scope, eav.cond, eav.params) == True
  {
    AgreesCovers(db);
    var q := SegmentQuery(Dataset("", ""), baseKey, [], None);
    FeatureCorrect(eng, db, scope, q, name, op, value, tenant, wide);
    FeatureCorrect(eng, db, scope, q.(asOf := Some(asOf)), name, op, value, tenant, eav);
    BoundIrrelevant(eng, SliceOf(db, tenant), Cell(scope[Base], baseKey), name, op, value, eng.parseTs(asOf));
    hide EvalCond, FeatureHolds, FeatureFrag, SliceOf, NothingNewer, IndexAgrees;
  }
}
