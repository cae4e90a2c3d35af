/** The guard over the profile queries, and the check it makes before anything runs. */
module CatalogueCheck {
  import opened Sequences
  import opened Values
  import opened Ast
  import opened Sql
  import opened Compiler
  import opened Denotation
  import opened Binding
  import opened Derive
  import opened Profile
  import opened Guard

  // ----- the profile queries -----

  /** What a profile query reads: its segment, the event columns it selects and joins on, and its WHERE clause. */
  function ProfileColumns(p: ProfileQuery): set<ColumnRef> {
    QueryColumns(p.segment)
    + (if p.event.Raw? then {ColumnRef(p.event.dataset, "user_id")} + set c | c in p.columns ::
      ColumnRef(p.event.dataset, c) else {})
    + CondColumns(map[E := p.event], p.where)
  }

  function ProfileTables(p: ProfileQuery): set<Dataset> {
    QueryTables(p.segment) + TableSet(p.event) + CondTables(p.where)
  }

  lemma {:induction false} StripKeepsUpTo(q: SegmentQuery, n: nat)
    requires q.ops != [] && n < |q.ops|
    ensures ColumnsUpTo(StripLast(q), n) == ColumnsUpTo(q, n) && FeaturesUpTo(StripLast(q), n) == FeaturesUpTo(q, n)
  {
    if n > 0 {
      StripKeepsUpTo(q, n - 1);
      assert StripLast(q).ops[n - 1] == q.ops[n - 1];
    }
  }

  /** The columns and features of the narrowing part are among those of the whole segment. */
  lemma StripReferences(q: SegmentQuery)
    requires q.ops != []
    ensures forall c :: c in ReferencedColumns(StripLast(q)) ==> c in ReferencedColumns(q)
    ensures forall c :: c in OpColumns(q, q.ops[|q.ops| - 1]) ==> c in ReferencedColumns(q)
    ensures Names(ReferencedFeatures(StripLast(q))) <= Names(ReferencedFeatures(q))
  {
    StripKeepsUpTo(q, |q.ops| - 1);
    assert ColumnsUpTo(q, |q.ops|) == ColumnsUpTo(q, |q.ops| - 1) + OpColumns(q, q.ops[|q.ops| - 1]);
    assert FeaturesUpTo(q, |q.ops|) == FeaturesUpTo(q, |q.ops| - 1) + OpFeatures(q.ops[|q.ops| - 1]);
    hide ColumnsUpTo, FeaturesUpTo, OpColumns, OpFeatures;
  }

  lemma OneProfileGuarded(q: SegmentQuery, opts: Options, c: Compiled, column: string)
    requires q.ops != [] && q.ops[|q.ops| - 1].Characterize? && CompileSpec(StripLast(q), 0, opts) == Ok(c)
             && c.sql.Keys?
    requires ColumnRef(q.ops[|q.ops| - 1].event, column) in OpColumns(q, q.ops[|q.ops| - 1])
    ensures var p := OneQuery(c, q.ops[|q.ops| - 1].event, column, opts.tenant);
            Covered(ProfileColumns(p), ReferencedColumns(q)) && ProfileTables(p) == Elements(p.sources)
    ensures |c.params| == QueryHoles(c.sql.query)
            && QueryFeatures(c.sql.query, c.params) <= Names(ReferencedFeatures(q))
  {
    var op := q.ops[|q.ops| - 1];
    assert ColumnRef(op.event, "user_id") in OpColumns(q, op);
    hide OpColumns, CompileSpec, ProfileColumns, ProfileTables, QueryFeatures;
    CompileGuarded(StripLast(q), 0, opts, c);
    CompileNames(StripLast(q), 0, opts, c);
    hide QueryColumns, QueryTables, ReferencedColumns, ReferencedFeatures;
    StripReferences(q);
    OneQueryReads(c, op.event, column, opts.tenant);
  }

  lemma OneQueryReads(c: Compiled, event: Dataset, column: string, tenant: string)
    requires c.sql.Keys?
    ensures var p := OneQuery(c, event, column, tenant);
            && ProfileColumns(p) == QueryColumns(c.sql.query)
              + {ColumnRef(event, "user_id"), ColumnRef(event, column), ColumnRef(event, "tenant_id")}
            && ProfileTables(p) == QueryTables(c.sql.query) + {event}
            && Elements(p.sources) == Elements(c.sources) + {event}
  {
    var p := OneQuery(c, event, column, tenant);
    assert CondColumns(map[E := Raw(event)], TenantEq(E)) == {ColumnRef(event, "tenant_id")};
    assert CondTables(TenantEq(E)) == {};
    hide QueryColumns, QueryTables, CondColumns, CondTables;
    assert (set x | x in [column] :: ColumnRef(event, x)) == {ColumnRef(event, column)};
    assert ProfileColumns(p) == QueryColumns(c.sql.query) + ({ColumnRef(event, "user_id")} + {ColumnRef(event, column)})
           + {ColumnRef(event, "tenant_id")};
  }

  /** The three profile queries read only referenced columns and features, and their sources are exactly the raw tables
      they read. */
  lemma ProfileGuarded(q: SegmentQuery, opts: Options, ps: ProfileQueries)
    requires opts.deriveLimit.None? && CompileCharacterize(q, opts) == Ok(ps)
    ensures forall p :: p in {ps.metrics, ps.recency, ps.categories} ==>
              && Covered(ProfileColumns(p), ReferencedColumns(q)) && ProfileTables(p) == Elements(p.sources)
              && |p.params| >= QueryHoles(p.segment)
              && QueryFeatures(p.segment, p.params[..QueryHoles(p.segment)]) <= Names(ReferencedFeatures(q))
  {
    var op := q.ops[|q.ops| - 1];
    var c := CompileSpec(StripLast(q), 0, opts).value;
    NoLimitIsKeys(StripLast(q), 0, opts, c);
    assert ColumnRef(op.event, op.monetaryColumn) in OpColumns(q, op);
    assert ColumnRef(op.event, op.tsColumn) in OpColumns(q, op);
    assert ColumnRef(op.event, op.categoryColumn) in OpColumns(q, op);
    hide OpColumns, CompileSpec, StripLast, ProfileColumns, ProfileTables, ReferencedColumns, ReferencedFeatures,
         QueryFeatures;
    OneProfileGuarded(q, opts, c, op.monetaryColumn);
    OneProfileGuarded(q, opts, c, op.tsColumn);
    OneProfileGuarded(q, opts, c, op.categoryColumn);
    assert (c.params + [Text(opts.tenant)])[..|c.params|] == c.params;
  }

  // ----- the check itself -----

  /** A row of `semantic_catalog`; the check reads every tenant's. */
  datatype CatalogueRow = CatalogueRow(dataset: Dataset, column: Option<string>, tenant: string)

  datatype CatalogueError = MissingColumn(c: ColumnRef) | MissingFeature(name: string)

  predicate Catalogued(catalogue: seq<CatalogueRow>, c: ColumnRef) {
    exists i :: 0 <= i < |catalogue| && catalogue[i].dataset == c.dataset && catalogue[i].column == Some(c.column)
  }

  predicate Registered(features: seq<Row>, tenant: string, name: string) {
    exists i :: 0 <= i < |features| && Cell(features[i], "feature_name") == Text(name) && OfTenant(tenant)(features[i])
  }

  /** Everything a segment names is known: its columns to the catalogue, its features to the tenant's store. */
  ghost predicate AllKnown(catalogue: seq<CatalogueRow>, features: seq<Row>, tenant: string, q: SegmentQuery) {
    && (forall c :: c in ReferencedColumns(q) ==> Catalogued(catalogue, c))
    && (forall n :: n in ReferencedFeatures(q) ==> Registered(features, tenant, n))
  }

  /** The columns of one table that the catalogue has. */
  method ColumnsOf(catalogue: seq<CatalogueRow>, d: Dataset) returns (columns: set<string>)
    ensures forall c :: c in columns <==> Catalogued(catalogue, ColumnRef(d, c))
  {
    columns := {};
    var i := 0;
    while i < |catalogue|
      invariant 0 <= i <= |catalogue|
      invariant forall c :: c in columns <==>
                  exists k :: 0 <= k < i && catalogue[k].dataset == d && catalogue[k].column == Some(c)
    {
      if catalogue[i].dataset == d && catalogue[i].column.Some? {
        columns := columns + {catalogue[i].column.value};
      }
      i := i + 1;
    }
  }

  /** `enforce_catalogue`: the referenced columns grouped by table and looked up table by table, then each feature. */
  method EnforceCatalogue(enforce: bool, catalogue: seq<CatalogueRow>, features: seq<Row>, tenant: string,
                          q: SegmentQuery)
    returns (r: Result<(), CatalogueError>)
    ensures r.Ok? <==> !enforce || AllKnown(catalogue, features, tenant, q)
    ensures r.Err? && r.error.MissingColumn? ==> r.error.c in ReferencedColumns(q) && !Catalogued(catalogue, r.error.c)
    ensures r.Err? && r.error.MissingFeature? ==>
              r.error.name in ReferencedFeatures(q) && !Registered(features, tenant, r.error.name)
  {
    if !enforce {
      return Ok(());
    }
    var vec := new ColumnVec();
    CollectColumns(q, vec);
    var refs := vec.items;
    assert refs == ReferencedColumns(q);
    var byTable := GroupByTable(refs);
    hide ReferencedColumns, ReferencedFeatures, Catalogued, Registered;
    var tables := byTable.Keys;
    while tables != {}
      invariant tables <= byTable.Keys
      invariant forall d, c :: d in byTable.Keys - tables && c in byTable[d] ==> Catalogued(catalogue, ColumnRef(d, c))
      decreases tables
    {
      var d :| d in tables;
      var known := ColumnsOf(catalogue, d);
      if c :| c in byTable[d] && c !in known {
        return Err(MissingColumn(ColumnRef(d, c)));
      }
      tables := tables - {d};
    }
    forall c | c in refs
      ensures Catalogued(catalogue, c)
    {
      assert c.dataset in byTable && c.column in byTable[c.dataset];
      assert c == ColumnRef(c.dataset, c.column);
    }
    var names := ReferencedFeatures(q);
    var i := 0;
    while i < |names|
      invariant 0 <= i <= |names|
      invariant forall k :: 0 <= k < i ==> Registered(features, tenant, names[k])
    {
      if !Registered(features, tenant, names[i]) {
        return Err(MissingFeature(names[i]));
      }
      i := i + 1;
    }
    r := Ok(());
  }

  method GroupByTable(refs: seq<ColumnRef>) returns (byTable: map<Dataset, set<string>>)
    ensures forall d, c :: d in byTable && c in byTable[d] <==> ColumnRef(d, c) in refs
  {
    byTable := map[];
    var i := 0;
    while i < |refs|
      invariant 0 <= i <= |refs|
      invariant forall d, c :: d in byTable && c in byTable[d] <==> ColumnRef(d, c) in refs[..i]
    {
      var d := refs[i].dataset;
      var before := if d in byTable then byTable[d] else {};
      byTable := byTable[d := before + {refs[i].column}];
      assert refs[..i + 1] == refs[..i] + [refs[i]];
      i := i + 1;
    }
    assert refs[..i] == refs;
  }

  /** After the check, the compiled statement reads only catalogued columns, beside the tenant's, and features the
      tenant has rows of. */
  lemma CheckedReadsKnown(catalogue: seq<CatalogueRow>, features: seq<Row>, tenant: string, q: SegmentQuery, depth: nat,
                          opts: Options, c: Compiled)
    requires AllKnown(catalogue, features, tenant, q) && CompileSpec(q, depth, opts) == Ok(c)
    ensures forall col :: col in StatementColumns(c.sql) ==> col.column == "tenant_id" || Catalogued(catalogue, col)
    ensures |c.params| == StatementHoles(c.sql)
    ensures forall n :: Text(n) in StatementFeatures(c.sql, c.params) ==> Registered(features, tenant, n)
  {
    CompileGuarded(q, depth, opts, c);
    CompileNames(q, depth, opts, c);
    hide CompileSpec, StatementColumns, StatementFeatures, ReferencedColumns, ReferencedFeatures, Catalogued,
         Registered;
  }

  // ----- whose catalogue it is -----

  /** The rows the tenant wrote. */
  function OwnRows(tenant: string): CatalogueRow -> bool {
    (r: CatalogueRow) => r.tenant == tenant
  }

  lemma OwnSuffices(catalogue: seq<CatalogueRow>, tenant: string, c: ColumnRef)
    requires Catalogued(Filter(OwnRows(tenant), catalogue), c)
    ensures Catalogued(catalogue, c)
  {
    var own := Filter(OwnRows(tenant), catalogue);
    FilterHas(OwnRows(tenant), catalogue);
    hide Filter;
    var i :| 0 <= i < |own| && own[i].dataset == c.dataset && own[i].column == Some(c.column);
    assert own[i] in own;
    var j :| 0 <= j < |catalogue| && catalogue[j] == own[i];
  }

  function ForeignRow(tenant: string): ColumnRef -> CatalogueRow {
    (c: ColumnRef) => CatalogueRow(c.dataset, Some(c.column), tenant)
  }

  /** The tenant's rows with another tenant's rows for every column a segment references. */
  function Padded(own: seq<CatalogueRow>, other: string, refs: seq<ColumnRef>): seq<CatalogueRow> {
    own + Map(ForeignRow(other), refs)
  }

  lemma PaddedIs(own: seq<CatalogueRow>, tenant: string, other: string, refs: seq<ColumnRef>)
    requires other != tenant && forall r :: r in own ==> r.tenant == tenant
    ensures Filter(OwnRows(tenant), Padded(own, other, refs)) == own
    ensures forall c :: c in refs ==> Catalogued(Padded(own, other, refs), c)
  {
    var foreign := Map(ForeignRow(other), refs);
    MapHas(ForeignRow(other), refs);
    FilterAppend(OwnRows(tenant), own, foreign);
    FilterAll(OwnRows(tenant), own);
    forall c | c in refs
      ensures Catalogued(Padded(own, other, refs), c)
    {
      var i :| 0 <= i < |refs| && refs[i] == c;
      MapAt(ForeignRow(other), refs, i);
      assert Padded(own, other, refs)[|own| + i] == ForeignRow(other)(c);
    }
    hide Map;
    FilterNone(OwnRows(tenant), foreign);
    assert own + [] == own;
  }

  /** What the rest of the check says: the features, which are the tenant's own. */
  ghost predicate FeaturesKnown(features: seq<Row>, tenant: string, q: SegmentQuery) {
    forall n :: n in ReferencedFeatures(q) ==> Registered(features, tenant, n)
  }

  /** Two catalogues can hold the same rows of the tenant and give its segment different verdicts. */
  ghost predicate VerdictsDiffer(own: seq<CatalogueRow>, features: seq<Row>, tenant: string, q: SegmentQuery) {
    exists a, b ::
      && Filter(OwnRows(tenant), a) == own == Filter(OwnRows(tenant), b)
      && AllKnown(a, features, tenant, q) && !AllKnown(b, features, tenant, q)
  }

  /** The verdict depends on other tenants' rows exactly when the tenant's own rows do not settle it: its features are
      known, and some referenced column is not in its own catalogue. */
  lemma VerdictBorrowedIff(own: seq<CatalogueRow>, features: seq<Row>, tenant: string, q: SegmentQuery)
    requires forall r :: r in own ==> r.tenant == tenant
    ensures VerdictsDiffer(own, features, tenant, q)
            <==> FeaturesKnown(features, tenant, q) && exists c :: c in ReferencedColumns(q) && !Catalogued(own, c)
  {
    var other := tenant + "x";
    var refs := ReferencedColumns(q);
    assert |other| != |tenant|;
    PaddedIs(own, tenant, other, refs);
    FilterAll(OwnRows(tenant), own);
    hide Filter, Padded, ReferencedColumns, ReferencedFeatures, Registered, Catalogued;
    if FeaturesKnown(features, tenant, q) && exists c :: c in refs && !Catalogued(own, c) {
      assert AllKnown(Padded(own, other, refs), features, tenant, q) && !AllKnown(own, features, tenant, q);
    }
    if VerdictsDiffer(own, features, tenant, q) {
      var a, b :| && Filter(OwnRows(tenant), a) == own == Filter(OwnRows(tenant), b)
                  && AllKnown(a, features, tenant, q) && !AllKnown(b, features, tenant, q);
      var c :| c in refs && !Catalogued(b, c);
      if Catalogued(own, c) {
        OwnSuffices(b, tenant, c);
      }
    }
  }

  /** One tenant's catalogue admits another's column. */
  lemma OtherTenantAdmits(tenant: string, other: string)
    requires tenant != other
    ensures var d := Dataset("s", "e");
            var q := SegmentQuery(d, "id", [], None);
            var theirs := [CatalogueRow(d, Some("id"), other)];
            Filter(OwnRows(tenant), theirs) == [] && AllKnown(theirs, [], tenant, q) && !AllKnown([], [], tenant, q)
  {
    var d := Dataset("s", "e");
    var q := SegmentQuery(d, "id", [], None);
    var theirs := [CatalogueRow(d, Some("id"), other)];
    assert theirs[0].column == Some("id");
    assert ColumnRef(d, "id") in ReferencedColumns(q);
    assert !Catalogued([], ColumnRef(d, "id"));
  }
}
