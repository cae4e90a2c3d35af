/** Materialising end to end: from the stored names, the source epochs and the clock to the snapshot's rows. */
module Snapshot {
  import opened Sequences
  import opened Values
  import opened Ast
  import opened Sql
  import opened Compiler
  import opened Denotation
  import opened CompilerProof
  import opened Binding
  import opened Derive
  import opened Features
  import opened CatalogueCheck
  import opened Materialize
  import Isolation

  // ----- the order of names -----

  /** `a` comes before `b` byte by byte. */
  predicate Before(a: string, b: string) {
    b != [] && (a == [] || a[0] < b[0] || (a[0] == b[0] && Before(a[1..], b[1..])))
  }

  lemma {:induction false} BeforeAsymmetric(a: string, b: string)
    requires Before(a, b)
    ensures !Before(b, a) && a != b
  {
    if a != [] && a[0] == b[0] {
      BeforeAsymmetric(a[1..], b[1..]);
    }
  }

  lemma {:induction false} BeforeTransitive(a: string, b: string, c: string)
    requires Before(a, b) && Before(b, c)
    ensures Before(a, c)
  {
    if a != [] && a[0] == b[0] == c[0] {
      BeforeTransitive(a[1..], b[1..], c[1..]);
    }
  }

  lemma {:induction false} BeforeTotal(a: string, b: string)
    ensures Before(a, b) || a == b || Before(b, a)
  {
    if a != [] && b != [] && a[0] == b[0] {
      BeforeTotal(a[1..], b[1..]);
      HeadTail(a);
      HeadTail(b);
    }
  }

  ghost predicate Ascending(s: seq<string>) {
    forall i, j :: 0 <= i < j < |s| ==> Before(s[i], s[j])
  }

  /** The place of a name in an ascending list; a name already there is not added. */
  function Placed(x: string, s: seq<string>): seq<string> {
    if s == [] then [x]
    else if x == s[0] then s
    else if Before(x, s[0]) then [x] + s
    else [s[0]] + Placed(x, s[1..])
  }

  lemma {:induction false} PlacedAscends(x: string, s: seq<string>)
    requires Ascending(s)
    ensures Ascending(Placed(x, s))
    ensures forall y :: y in Placed(x, s) <==> y == x || y in s
  {
    if s == [] || x == s[0] {
      return;
    }
    BeforeTotal(x, s[0]);
    if Before(x, s[0]) {
      forall j | 0 <= j < |s|
        ensures Before(x, s[j])
      {
        if j > 0 {
          BeforeTransitive(x, s[0], s[j]);
        }
      }
      return;
    }
    PlacedAscends(x, s[1..]);
    var rest := Placed(x, s[1..]);
    hide Placed, Before;
    forall j | 0 <= j < |rest|
      ensures Before(s[0], rest[j])
    {
      assert rest[j] in rest;
      if rest[j] != x {
        var k :| 0 <= k < |s[1..]| && s[1..][k] == rest[j];
        assert s[k + 1] == rest[j];
      }
    }
    assert forall y :: y in s <==> y == s[0] || y in s[1..];
  }

  /** `sort` and `dedup`. */
  function SortDedup(s: seq<string>): seq<string> {
    if s == [] then [] else Placed(s[0], SortDedup(s[1..]))
  }

  lemma {:induction false} SortDedupAscends(s: seq<string>)
    ensures Ascending(SortDedup(s))
    ensures forall y :: y in SortDedup(s) <==> y in s
  {
    if s != [] {
      SortDedupAscends(s[1..]);
      PlacedAscends(s[0], SortDedup(s[1..]));
      hide Placed;
      assert forall y :: y in s <==> y == s[0] || y in s[1..];
    }
  }

  // ----- names as pairs -----

  type Name = (string, string)

  predicate NameBefore(a: Name, b: Name) {
    Before(a.0, b.0) || (a.0 == b.0 && Before(a.1, b.1))
  }

  lemma NameAsymmetric(a: Name, b: Name)
    ensures NameBefore(a, b) ==> !NameBefore(b, a) && a != b
  {
    if Before(a.0, b.0) {
      BeforeAsymmetric(a.0, b.0);
    } else if NameBefore(a, b) {
      BeforeAsymmetric(a.1, b.1);
    }
  }

  ghost predicate InOrder(names: seq<Name>) {
    forall i, j :: 0 <= i < j < |names| ==> NameBefore(names[i], names[j])
  }

  lemma FirstIsLeast(names: seq<Name>, n: Name)
    requires InOrder(names) && n in names
    ensures n == names[0] || NameBefore(names[0], n)
  {
    hide NameBefore;
    var i :| 0 <= i < |names| && names[i] == n;
  }

  /** A set of names has one list in order. */
  lemma {:induction false} OneOrder(a: seq<Name>, b: seq<Name>)
    requires InOrder(a) && InOrder(b) && forall n :: n in a <==> n in b
    ensures a == b
  {
    NonEmptyHasMember(a);
    NonEmptyHasMember(b);
    if a == [] {
      return;
    }
    hide NameBefore;
    assert a[0] in a && b[0] in b;
    FirstIsLeast(a, b[0]);
    FirstIsLeast(b, a[0]);
    NameAsymmetric(a[0], b[0]);
    NotAgain(a);
    NotAgain(b);
    forall n
      ensures n in a[1..] <==> n in b[1..]
    {
      assert n in a <==> n == a[0] || n in a[1..];
      assert n in b <==> n == b[0] || n in b[1..];
    }
    OneOrder(a[1..], b[1..]);
    HeadTail(a);
    HeadTail(b);
  }

  lemma NotAgain(a: seq<Name>)
    requires InOrder(a) && a != []
    ensures a[0] !in a[1..]
  {
    if a[0] in a[1..] {
      var i :| 0 <= i < |a[1..]| && a[1..][i] == a[0];
      assert a[i + 1] == a[0];
      NameAsymmetric(a[0], a[i + 1]);
    }
  }

  lemma {:induction false} FilterInOrder(p: Name -> bool, names: seq<Name>)
    requires InOrder(names)
    ensures InOrder(Filter(p, names))
  {
    if names == [] {
      return;
    }
    FilterInOrder(p, names[1..]);
    FilterHas(p, names[1..]);
    FilterCons(p, names);
    hide Filter, NameBefore;
    var rest := Filter(p, names[1..]);
    forall j | 0 <= j < |rest|
      ensures NameBefore(names[0], rest[j])
    {
      assert rest[j] in rest;
      var k :| 0 <= k < |names[1..]| && names[1..][k] == rest[j];
      assert names[k + 1] == rest[j];
    }
  }

  // ----- the families joined -----

  function InFamilyOf(family: string): string -> Name {
    s => (family, s)
  }

  /** The names a list of joins covers, in the order their values are written. */
  function Flat(joins: seq<PivotJoin>): seq<Name> {
    if joins == [] then [] else Map(InFamilyOf(joins[0].family), joins[0].shorts) + Flat(joins[1..])
  }

  ghost predicate Canonical(joins: seq<PivotJoin>) {
    && (forall i, j :: 0 <= i < j < |joins| ==> Before(joins[i].family, joins[j].family))
    && (forall i :: 0 <= i < |joins| ==> Ascending(joins[i].shorts))
  }

  lemma {:induction false} FlatHas(joins: seq<PivotJoin>, n: Name)
    ensures n in Flat(joins) <==> exists i :: 0 <= i < |joins| && joins[i].family == n.0 && n.1 in joins[i].shorts
  {
    if joins == [] {
      return;
    }
    FlatHas(joins[1..], n);
    MapHas(InFamilyOf(joins[0].family), joins[0].shorts);
    var head := Map(InFamilyOf(joins[0].family), joins[0].shorts);
    hide Map;
    assert n in head <==> n.0 == joins[0].family && n.1 in joins[0].shorts by {
      if n.0 == joins[0].family && n.1 in joins[0].shorts {
        assert InFamilyOf(joins[0].family)(n.1) == n;
      }
    }
    assert forall i :: 0 <= i < |joins[1..]| ==> joins[1..][i] == joins[i + 1];
    if i :| 0 <= i < |joins| && joins[i].family == n.0 && n.1 in joins[i].shorts {
      if i > 0 {
        assert joins[1..][i - 1] == joins[i];
      }
    }
  }

  lemma {:induction false} FlatInOrder(joins: seq<PivotJoin>)
    requires Canonical(joins)
    ensures InOrder(Flat(joins))
  {
    if joins == [] {
      return;
    }
    var head, rest := Map(InFamilyOf(joins[0].family), joins[0].shorts), Flat(joins[1..]);
    FlatInOrder(joins[1..]);
    forall i | 0 <= i < |head|
      ensures head[i] == (joins[0].family, joins[0].shorts[i])
    {
      MapAt(InFamilyOf(joins[0].family), joins[0].shorts, i);
    }
    forall j | 0 <= j < |rest|
      ensures Before(joins[0].family, rest[j].0)
    {
      FlatHas(joins[1..], rest[j]);
      assert rest[j] in rest;
      var k :| 0 <= k < |joins[1..]| && joins[1..][k].family == rest[j].0;
      assert joins[k + 1].family == rest[j].0;
    }
    assert Ascending(joins[0].shorts);
    hide Map, Flat, Before;
    var all := head + rest;
    forall i, j | 0 <= i < j < |all|
      ensures NameBefore(all[i], all[j])
    {
      if j < |head| {
        assert Before(joins[0].shorts[i], joins[0].shorts[j]);
      }
    }
  }

  /** The name a stored value spells. */
  function Spelt(v: Value): Option<Name> {
    if v.Text? then SplitFeatureName(v.s) else None
  }

  /** Names that split, pushed under their families. */
  method PushNames(names: seq<Value>) returns (families: map<string, seq<string>>)
    ensures forall f, s :: f in families && s in families[f]
             <==> exists i :: 0 <= i < |names| && Spelt(names[i]) == Some((f, s))
  {
    families := map[];
    var i := 0;
    while i < |names|
      invariant 0 <= i <= |names|
      invariant forall f, s :: f in families && s in families[f]
                 <==> exists k :: 0 <= k < i && Spelt(names[k]) == Some((f, s))
    {
      var parts := Spelt(names[i]);
      hide Spelt;
      if parts.Some? {
        var (family, short) := parts.value;
        families := families[family := (if family in families then families[family] else []) + [short]];
      }
      i := i + 1;
    }
  }

  /** `feature_families` as it runs: the names of the tenant's rows, in whatever order they come, pushed under their
      families; each family's short names sorted and deduplicated; the families in the map's own order. */
  method FeatureFamilies(names: seq<Value>) returns (joins: seq<PivotJoin>)
    ensures Canonical(joins)
    ensures forall f, s :: (f, s) in Flat(joins) <==> exists i :: 0 <= i < |names| && Spelt(names[i]) == Some((f, s))
  {
    var families := PushNames(names);
    var order := Keys(families);
    joins := [];
    var i := 0;
    while i < |order|
      invariant 0 <= i <= |order| == |order| && |joins| == i
      invariant forall k :: 0 <= k < i ==> joins[k].family == order[k] && Ascending(joins[k].shorts)
      invariant forall k, s :: 0 <= k < i ==> (s in joins[k].shorts <==> s in families[order[k]])
    {
      assert order[i] in order;
      SortDedupAscends(families[order[i]]);
      hide SortDedup;
      joins := joins + [PivotJoin(order[i], SortDedup(families[order[i]]))];
      i := i + 1;
    }
    hide Spelt, Before;
    forall f, s
      ensures (f, s) in Flat(joins) <==> f in families && s in families[f]
    {
      FlatHas(joins, (f, s));
      if f in families && s in families[f] {
        assert f in order;
        var k :| 0 <= k < |order| && order[k] == f;
        assert joins[k].family == f;
      }
    }
  }

  method Keys(families: map<string, seq<string>>) returns (order: seq<string>)
    ensures Ascending(order) && forall f :: f in order <==> f in families
  {
    order := [];
    var rest := families.Keys;
    while rest != {}
      invariant rest <= families.Keys && Ascending(order)
      invariant forall f :: f in order <==> f in families.Keys - rest
      decreases rest
    {
      var f :| f in rest;
      PlacedAscends(f, order);
      order := Placed(f, order);
      hide Placed, Before;
      rest := rest - {f};
    }
  }

  // ----- what a snapshot holds -----

  /** The list of the names the tenant has stored. */
  ghost predicate Lists(slice: Slice, names: seq<Name>) {
    InOrder(names) && forall f, s :: (f, s) in names <==> IsStored(slice.features, f, s)
  }

  /** A name with its newest value at or before the cut-off, NULL if there is none. */
  ghost function PairAt(eng: Engine, slice: Slice, key: Value, cut: int): Name -> (string, Value) {
    (n: Name) => (FeatureName(n.0, n.1), Frozen(eng, slice, key, FeatureName(n.0, n.1), cut))
  }

  ghost function RowFor(eng: Engine, slice: Slice, names: seq<Name>, spec: SnapshotSpec, cut: int, hitReason: string,
                        tenant: string): Value -> SnapshotRow {
    key => SnapshotRow(Text(spec.snapshotId), Text(spec.campaignId), Ts(cut), key,
      Map(PairAt(eng, slice, key, cut), names), Text(hitReason), Text(tenant))
  }

  /** One row for each key the segment denotes, each with all of the listed names. */
  ghost predicate IsSnapshot(eng: Engine, slice: Slice, q: SegmentQuery, rules: SuppressionRules, names: seq<Name>,
                             spec: SnapshotSpec, cut: int,
                             hitReason: string, tenant: string, rows: seq<SnapshotRow>) {
    exists keys :: NoDup(keys) && Elements(keys) == Denote(eng, slice, rules, q)
                   && rows == Map(RowFor(eng, slice, names, spec, cut, hitReason, tenant), keys)
  }

  lemma {:induction false} FrozenIsFlat(eng: Engine, slice: Slice, key: Value, joins: seq<PivotJoin>, cut: int)
    ensures FrozenFeatures(eng, slice, key, joins, cut) == Map(PairAt(eng, slice, key, cut), Flat(joins))
  {
    if joins == [] {
      return;
    }
    FrozenIsFlat(eng, slice, key, joins[1..], cut);
    var f := joins[0].family;
    forall s | s in joins[0].shorts
      ensures PairAt(eng, slice, key, cut)(InFamilyOf(f)(s)) == FrozenPair(eng, slice, key, f, cut)(s)
    {
    }
    hide Frozen;
    MapMap(PairAt(eng, slice, key, cut), InFamilyOf(f), FrozenPair(eng, slice, key, f, cut), joins[0].shorts);
    MapAppend(PairAt(eng, slice, key, cut), Map(InFamilyOf(f), joins[0].shorts), Flat(joins[1..]));
  }

  lemma RowsAre(eng: Engine, slice: Slice, joins: seq<PivotJoin>, spec: SnapshotSpec, cut: int, hitReason: string,
                tenant: string, keys: seq<Value>)
    requires eng.parseTs(spec.asOfTs) == cut
    ensures Map(SnapshotOf(eng, slice, joins, spec, hitReason, tenant), keys)
            == Map(RowFor(eng, slice, Flat(joins), spec, cut, hitReason, tenant), keys)
  {
    forall key | key in keys
      ensures SnapshotOf(eng, slice, joins, spec, hitReason, tenant)(key)
              == RowFor(eng, slice, Flat(joins), spec, cut, hitReason, tenant)(key)
    {
      FrozenIsFlat(eng, slice, key, joins, cut);
      hide Map, Flat, FrozenFeatures;
    }
    MapCong(SnapshotOf(eng, slice, joins, spec, hitReason, tenant),
            RowFor(eng, slice, Flat(joins), spec, cut, hitReason, tenant), keys);
  }

  // ----- materialise -----

  datatype MaterializeError = NotASegment | Uncatalogued(missing: CatalogueError) | Rejected(cause: CompileError)

  /** What the engine finds when it materialises: the clock, the registered epochs, whether the store can be read,
      whether the catalogue is enforced, and its rows. */
  datatype Moment = Moment(now: int, epochs: map<Dataset, int>, readable: bool, enforce: bool,
                           catalogue: seq<CatalogueRow>)

  predicate HasCharacterize(q: SegmentQuery) {
    exists i :: 0 <= i < |q.ops| && q.ops[i].Characterize?
  }

  function NameCell(): Row -> Value {
    (r: Row) => Cell(r, "feature_name")
  }

  /** SELECT DISTINCT feature_name FROM feature_store WHERE tenant_id = ? */
  function StoredNames(db: Db, tenant: string): seq<Value> {
    Distinct(Map(NameCell(), TenantRows(db.features, tenant)))
  }

  lemma StoredNamesAre(db: Db, tenant: string, f: string, s: string)
    ensures (exists i :: 0 <= i < |StoredNames(db, tenant)| && Spelt(StoredNames(db, tenant)[i]) == Some((f, s)))
            <==> IsStored(SliceOf(db, tenant).features, f, s)
  {
    var rows, names := TenantRows(db.features, tenant), StoredNames(db, tenant);
    assert SliceOf(db, tenant).features == rows;
    DistinctIs(Map(NameCell(), rows));
    MapHas(NameCell(), rows);
    hide SliceOf, Distinct, Map, Filter, SplitFeatureName;
    if i :| 0 <= i < |names| && Spelt(names[i]) == Some((f, s)) {
      assert names[i] in names;
      var r :| r in rows && NameCell()(r) == names[i];
      var j :| 0 <= j < |rows| && rows[j] == r;
      assert NameOf(rows[j]) == Some((f, s));
    }
    if j :| 0 <= j < |rows| && NameOf(rows[j]) == Some((f, s)) {
      assert rows[j] in rows;
      assert NameCell()(rows[j]) in names;
      var i :| 0 <= i < |names| && names[i] == NameCell()(rows[j]);
    }
  }

  ghost predicate PlainNames(slice: Slice) {
    forall f, s :: IsStored(slice.features, f, s) ==> s !in {"user_id", "tenant_id"}
  }

  lemma PlainJoins(slice: Slice, joins: seq<PivotJoin>)
    requires PlainNames(slice) && forall f, s :: (f, s) in Flat(joins) ==> IsStored(slice.features, f, s)
    ensures PlainShorts(joins)
  {
    forall j, s | j in joins && s in j.shorts
      ensures s !in {"user_id", "tenant_id"}
    {
      var i :| 0 <= i < |joins| && joins[i] == j;
      FlatHas(joins, (j.family, s));
      assert (j.family, s) in Flat(joins);
    }
  }

  /** `materialize` from end to end. The catalogue check and the names are read through the pool, whose snapshot
      `reader` may be older than the writer's `db`, which the rows and values come from. `render` prints an epoch; the
      cut-off is exact where the engine reads it back. */
  method MaterializeSegment(eng: Engine, reader: Db, db: Db, q: SegmentQuery, opts: Options, moment: Moment,
                            render: int -> string,
                            snapshotId: string, campaignId: string, hitReason: string)
    returns (r: Result<seq<SnapshotRow>, MaterializeError>, ghost names: seq<Name>, ghost cut: int)
    requires opts.deriveLimit.None?
    ensures r == Err(NotASegment) <==> HasDerive(q) || HasCharacterize(q)
    ensures (r.Err? && r.error.Uncatalogued?) <==>
              !HasDerive(q) && !HasCharacterize(q) && moment.enforce
                && !AllKnown(moment.catalogue, reader.features, opts.tenant, q)
    ensures r.Ok? ==> CompileSpec(q, 0, opts).Ok?
    ensures r.Err? && r.error.Rejected? ==> CompileSpec(q, 0, opts) == Err(r.error.cause)
    ensures r.Ok? ==> cut == AsOfEpoch(CompileSpec(q, 0, opts).value.sources, moment.epochs, moment.now)
    ensures r.Ok? ==> if moment.readable then Lists(SliceOf(reader, opts.tenant), names) else names == []
    ensures r.Ok? && Context(eng, db, opts) && NoShadow(q) && PlainNames(SliceOf(reader, opts.tenant))
            && eng.parseTs(render(cut)) == cut ==>
              IsSnapshot(eng, SliceOf(db, opts.tenant), q, opts.rules, names,
                         SnapshotSpec(snapshotId, campaignId, render(cut)), cut,
                         hitReason, opts.tenant, r.value)
  {
    names, cut := [], 0;
    if HasDerive(q) || HasCharacterize(q) {
      return Err(NotASegment), names, cut;
    }
    var known := EnforceCatalogue(moment.enforce, moment.catalogue, reader.features, opts.tenant, q);
    if known.Err? {
      return Err(Uncatalogued(known.error)), names, cut;
    }
    hide AllKnown;
    var compiled := CompileSpec(q, 0, opts);
    if compiled.Err? {
      return Err(Rejected(compiled.error)), names, cut;
    }
    var write := compiled.value;
    NoLimitIsKeys(q, 0, opts, write);
    CompiledHoles(q, 0, opts, write);
    var epoch := AsOfEpoch(write.sources, moment.epochs, moment.now);
    var spec := SnapshotSpec(snapshotId, campaignId, render(epoch));
    var joins: seq<PivotJoin> := [];
    if moment.readable {
      joins := FeatureFamilies(StoredNames(reader, opts.tenant));
    }
    var insert, params := Assemble(write, joins, spec, hitReason, opts.tenant);
    EvalInsertIs(eng, db, write.sql.query, joins, spec, hitReason, write.params, opts.tenant);
    names, cut := Flat(joins), epoch;
    JoinsListed(reader, opts.tenant, moment.readable, joins);
    hide *;
    r := Ok(EvalInsert(eng, db, insert, params));
    MaterializeMeans(eng, reader, db, q, opts, write, joins, spec, epoch, hitReason, r.value);
  }

  lemma JoinsListed(db: Db, tenant: string, readable: bool, joins: seq<PivotJoin>)
    requires !readable ==> joins == []
    requires readable ==>
               && Canonical(joins)
               && forall f, s :: (f, s) in Flat(joins) <==>
                    exists i :: 0 <= i < |StoredNames(db, tenant)| && Spelt(StoredNames(db, tenant)[i]) == Some((f, s))
    ensures if readable then Lists(SliceOf(db, tenant), Flat(joins)) else Flat(joins) == []
    ensures forall f, s :: (f, s) in Flat(joins) ==> IsStored(SliceOf(db, tenant).features, f, s)
  {
    if !readable {
      return;
    }
    FlatInOrder(joins);
    hide InOrder, Canonical, IsStored, SliceOf, StoredNames, Spelt, Flat;
    forall f, s
      ensures (f, s) in Flat(joins) <==> IsStored(SliceOf(db, tenant).features, f, s)
    {
      StoredNamesAre(db, tenant, f, s);
    }
  }

  lemma MaterializeMeans(eng: Engine, reader: Db, db: Db, q: SegmentQuery, opts: Options, c: Compiled,
                         joins: seq<PivotJoin>, spec: SnapshotSpec, cut: int,
                         hitReason: string, rows: seq<SnapshotRow>)
    requires opts.deriveLimit.None? && CompileSpec(q, 0, opts) == Ok(c) && c.sql.Keys?
    requires |InsertParams(spec, hitReason, c.params, |joins|, opts.tenant)|
             == InsertHoles(Insert(Wrap(c.sql.query, joins)))
    requires rows == EvalInsert(eng, db, Insert(Wrap(c.sql.query, joins)),
             InsertParams(spec, hitReason, c.params, |joins|, opts.tenant))
    requires forall f, s :: (f, s) in Flat(joins) ==> IsStored(SliceOf(reader, opts.tenant).features, f, s)
    ensures Context(eng, db, opts) && NoShadow(q) && PlainNames(SliceOf(reader, opts.tenant))
            && eng.parseTs(spec.asOfTs) == cut ==>
              IsSnapshot(eng, SliceOf(db, opts.tenant), q, opts.rules, Flat(joins), spec, cut, hitReason, opts.tenant,
                         rows)
  {
    if Context(eng, db, opts) && NoShadow(q) && PlainNames(SliceOf(reader, opts.tenant))
        && eng.parseTs(spec.asOfTs) == cut {
      var slice := SliceOf(db, opts.tenant);
      hide *;
      PlainJoins(SliceOf(reader, opts.tenant), joins);
      MaterializeCorrect(eng, db, q, opts, c, joins, spec, hitReason);
      var keys :| NoDup(keys) && Elements(keys) == Denote(eng, slice, opts.rules, q)
                  && rows == Map(SnapshotOf(eng, slice, joins, spec, hitReason, opts.tenant), keys);
      RowsAre(eng, slice, joins, spec, cut, hitReason, opts.tenant, keys);
    }
  }

  // ----- what each row says -----

  lemma FrozenStored(eng: Engine, slice: Slice, key: Value, name: string, cut: int)
    requires SplitFeatureName(name).Some? && Frozen(eng, slice, key, name, cut) != Null
    ensures IsStored(slice.features, SplitFeatureName(name).value.0, SplitFeatureName(name).value.1)
  {
    var i :| NewestAt(eng, slice.features, key, name, Some(cut), i);
    hide SplitFeatureName;
    assert Cell(slice.features[i], "feature_name") == Text(name);
    assert NameOf(slice.features[i]) == SplitFeatureName(name);
  }

  lemma StoredIsValid(rows: seq<Row>, f: string, s: string)
    requires IsStored(rows, f, s)
    ensures SplitFeatureName(FeatureName(f, s)) == Some((f, s))
  {
    var i :| 0 <= i < |rows| && NameOf(rows[i]) == Some((f, s));
    SplitJoin(f, s);
  }

  /** A row's values are, for every feature the names were read from, the newest the writer has at or before the
      cut-off; nothing else is in it. */
  lemma ValuesExact(eng: Engine, reader: Slice, writer: Slice, key: Value, names: seq<Name>, cut: int, name: string,
                    v: Value)
    requires Lists(reader, names) && v != Null
    ensures (name, v) in Map(PairAt(eng, writer, key, cut), names)
            <==> && SplitFeatureName(name).Some?
                 && IsStored(reader.features, SplitFeatureName(name).value.0, SplitFeatureName(name).value.1)
                 && Frozen(eng, writer, key, name, cut) == v
  {
    MapHas(PairAt(eng, writer, key, cut), names);
    hide Map, Frozen, SplitFeatureName, InOrder, IsStored;
    if n :| n in names && PairAt(eng, writer, key, cut)(n) == (name, v) {
      assert (n.0, n.1) == n;
      StoredIsValid(reader.features, n.0, n.1);
    }
    if SplitFeatureName(name).Some? && Frozen(eng, writer, key, name, cut) == v {
      var n := SplitFeatureName(name).value;
      if IsStored(reader.features, n.0, n.1) {
        assert (n.0, n.1) in names && (n.0, n.1) == n;
        assert PairAt(eng, writer, key, cut)(n) == (name, v);
      }
    }
  }

  // ----- one tenant's affair -----

  lemma Moved<T>(l: seq<T>, x: T, r: seq<T>)
    ensures multiset(l + [x] + r) == multiset{x} + multiset(l + r)
  {
  }

  lemma Cancelled<T>(x: T, a: multiset<T>, b: multiset<T>)
    requires multiset{x} + a == multiset{x} + b
    ensures a == b
  {
    assert a == (multiset{x} + a) - multiset{x};
    assert b == (multiset{x} + b) - multiset{x};
  }

  lemma MapSplit<T, U>(f: T -> U, l: seq<T>, x: T, r: seq<T>)
    ensures Map(f, l + [x] + r) == Map(f, l) + [f(x)] + Map(f, r) && Map(f, l + r) == Map(f, l) + Map(f, r)
  {
    MapAppend(f, l + [x], r);
    MapAppend(f, l, [x]);
    MapAppend(f, l, r);
    assert Map(f, [x]) == [f(x)];
  }

  lemma MapMoved<T, U>(f: T -> U, l: seq<T>, x: T, r: seq<T>)
    ensures multiset(Map(f, l + [x] + r)) == multiset{f(x)} + multiset(Map(f, l + r))
  {
    MapSplit(f, l, x, r);
    hide Map;
    Moved(Map(f, l), f(x), Map(f, r));
  }

  lemma Occurs<T>(x: T, s: seq<T>) returns (l: seq<T>, r: seq<T>)
    requires x in multiset(s)
    ensures s == l + [x] + r && |l + r| == |s| - 1
  {
    var i :| 0 <= i < |s| && s[i] == x;
    l, r := s[..i], s[i + 1..];
  }

  lemma {:induction false} MapPermuted<T, U>(f: T -> U, a: seq<T>, b: seq<T>)
    requires multiset(a) == multiset(b)
    ensures multiset(Map(f, a)) == multiset(Map(f, b))
    decreases |a|
  {
    if a == [] {
      assert |multiset(b)| == 0;
      assert b == [];
      return;
    }
    hide Map;
    assert a[0] in multiset(a);
    var l, r := Occurs(a[0], b);
    HeadTail(a);
    PermutedRest(a[0], a[1..], l, r);
    MapPermuted(f, a[1..], l + r);
    MapMoved(f, l, a[0], r);
    MapMoved(f, [], a[0], a[1..]);
    assert [] + [a[0]] + a[1..] == a && [] + a[1..] == a[1..];
  }

  lemma PermutedRest<T>(x: T, rest: seq<T>, l: seq<T>, r: seq<T>)
    requires multiset([x] + rest) == multiset(l + [x] + r)
    ensures multiset(rest) == multiset(l + r)
  {
    Moved(l, x, r);
    Moved([], x, rest);
    assert [] + [x] + rest == [x] + rest && [] + rest == rest;
    Cancelled(x, multiset(rest), multiset(l + r));
  }

  lemma SameNames(slice: Slice, a: seq<Name>, b: seq<Name>)
    requires Lists(slice, a) && Lists(slice, b)
    ensures a == b
  {
    hide InOrder, IsStored;
    forall n: Name
      ensures n in a <==> n in b
    {
      assert (n.0, n.1) == n;
    }
    OneOrder(a, b);
  }

  /** Catalogues that agree on the tenant, the reader's and the writer's, give it the same snapshot, up to the order of
      its rows. */
  lemma SnapshotIsolated(eng: Engine, reader1: Db, reader2: Db, db1: Db, db2: Db, q: SegmentQuery, opts: Options,
                         names1: seq<Name>, names2: seq<Name>, spec: SnapshotSpec, cut: int, hitReason: string,
                         rows1: seq<SnapshotRow>, rows2: seq<SnapshotRow>)
    requires Isolation.Agree(reader1, reader2, opts.tenant) && Isolation.Agree(db1, db2, opts.tenant)
    requires Lists(SliceOf(reader1, opts.tenant), names1) && Lists(SliceOf(reader2, opts.tenant), names2)
    requires IsSnapshot(eng, SliceOf(db1, opts.tenant), q, opts.rules, names1, spec, cut, hitReason, opts.tenant, rows1)
    requires IsSnapshot(eng, SliceOf(db2, opts.tenant), q, opts.rules, names2, spec, cut, hitReason, opts.tenant, rows2)
    ensures multiset(rows1) == multiset(rows2)
  {
    var slice := SliceOf(db1, opts.tenant);
    Isolation.SameSlice(reader1, reader2, opts.tenant);
    Isolation.SameSlice(db1, db2, opts.tenant);
    hide SliceOf, Denote, Lists;
    SameNames(SliceOf(reader1, opts.tenant), names1, names2);
    var f := RowFor(eng, slice, names1, spec, cut, hitReason, opts.tenant);
    var k1 :| NoDup(k1) && Elements(k1) == Denote(eng, slice, opts.rules, q) && rows1 == Map(f, k1);
    var k2 :| NoDup(k2) && Elements(k2) == Denote(eng, slice, opts.rules, q) && rows2 == Map(f, k2);
    Isolation.SameElements(k1, k2);
    MapPermuted(f, k1, k2);
  }

  // ----- freezing again -----

  function HasValue(): ((string, Value)) -> bool {
    (p: (string, Value)) => !p.1.Null?
  }

  function Later(db: Db, later: seq<Row>): Db {
    db.(features := db.features + later)
  }

  lemma LaterStored(db: Db, later: seq<Row>, tenant: string, f: string, s: string)
    ensures IsStored(SliceOf(Later(db, later), tenant).features, f, s)
            <==> IsStored(SliceOf(db, tenant).features, f, s) || IsStored(TenantRows(later, tenant), f, s)
  {
    FilterAppend(OfTenant(tenant), db.features, later);
    assert SliceOf(Later(db, later), tenant).features == SliceOf(db, tenant).features + TenantRows(later, tenant);
    hide *;
    StoredInEither(SliceOf(db, tenant).features, TenantRows(later, tenant), f, s);
  }

  lemma StoredInEither(a: seq<Row>, b: seq<Row>, f: string, s: string)
    ensures IsStored(a + b, f, s) <==> IsStored(a, f, s) || IsStored(b, f, s)
  {
    hide NameOf;
    if i :| 0 <= i < |a| && NameOf(a[i]) == Some((f, s)) {
      assert (a + b)[i] == a[i];
    }
    if i :| 0 <= i < |b| && NameOf(b[i]) == Some((f, s)) {
      assert (a + b)[|a| + i] == b[i];
    }
    if i :| 0 <= i < |a + b| && NameOf((a + b)[i]) == Some((f, s)) {
      if i >= |a| {
        assert b[i - |a|] == (a + b)[i];
      }
    }
  }

  ghost function Valued(eng: Engine, slice: Slice, key: Value, cut: int): Name -> bool {
    (n: Name) => !Frozen(eng, slice, key, FeatureName(n.0, n.1), cut).Null?
  }

  lemma ValuedPairs(eng: Engine, slice: Slice, key: Value, cut: int, names: seq<Name>)
    ensures Filter(HasValue(), Map(PairAt(eng, slice, key, cut), names))
            == Map(PairAt(eng, slice, key, cut), Filter(Valued(eng, slice, key, cut), names))
  {
    forall n | n in names
      ensures Valued(eng, slice, key, cut)(n) == HasValue()(PairAt(eng, slice, key, cut)(n))
    {
      hide Frozen;
    }
    FilterMap(HasValue(), PairAt(eng, slice, key, cut), Valued(eng, slice, key, cut), names);
  }

  lemma PairsStable(eng: Engine, db: Db, later: seq<Row>, tenant: string, key: Value, cut: int)
    requires AllAfter(later, cut)
    ensures var s1, s2 := SliceOf(db, tenant), SliceOf(Later(db, later), tenant);
            && (forall n: Name :: PairAt(eng, s1, key, cut)(n) == PairAt(eng, s2, key, cut)(n))
            && (forall n: Name :: Valued(eng, s1, key, cut)(n) == Valued(eng, s2, key, cut)(n))
  {
    var s1, s2 := SliceOf(db, tenant), SliceOf(Later(db, later), tenant);
    forall n: Name
      ensures Frozen(eng, s1, key, FeatureName(n.0, n.1), cut) == Frozen(eng, s2, key, FeatureName(n.0, n.1), cut)
    {
      FrozenStable(eng, db, later, tenant, key, FeatureName(n.0, n.1), cut);
    }
    hide Frozen, SliceOf;
  }

  /** The names with values are the same before and after. */
  lemma SameValued(eng: Engine, db: Db, later: seq<Row>, tenant: string, key: Value, cut: int, names1: seq<Name>,
                   names2: seq<Name>)
    requires AllAfter(later, cut)
    requires Lists(SliceOf(db, tenant), names1) && Lists(SliceOf(Later(db, later), tenant), names2)
    ensures Filter(Valued(eng, SliceOf(db, tenant), key, cut), names1)
            == Filter(Valued(eng, SliceOf(Later(db, later), tenant), key, cut), names2)
  {
    var s1, s2 := SliceOf(db, tenant), SliceOf(Later(db, later), tenant);
    var p1, p2 := Valued(eng, s1, key, cut), Valued(eng, s2, key, cut);
    PairsStable(eng, db, later, tenant, key, cut);
    FilterInOrder(p1, names1);
    FilterInOrder(p2, names2);
    FilterHas(p1, names1);
    FilterHas(p2, names2);
    hide SliceOf, Filter, InOrder, Frozen, AllAfter, IsStored;
    forall n: Name
      ensures n in Filter(p1, names1) <==> n in Filter(p2, names2)
    {
      assert n == (n.0, n.1);
      LaterStored(db, later, tenant, n.0, n.1);
      if n in names2 && p1(n) {
        StoredIsValid(s2.features, n.0, n.1);
        FrozenStored(eng, s1, key, FeatureName(n.0, n.1), cut);
      }
    }
    OneOrder(Filter(p1, names1), Filter(p2, names2));
  }

  /** Freezing again at the same cut-off gives every row the same values under the same names in the same order,
      whatever was written since with newer timestamps, new features included. */
  lemma RefreezeStable(eng: Engine, db: Db, later: seq<Row>, tenant: string, key: Value, cut: int, names1: seq<Name>,
                       names2: seq<Name>)
    requires AllAfter(later, cut)
    requires Lists(SliceOf(db, tenant), names1) && Lists(SliceOf(Later(db, later), tenant), names2)
    ensures Filter(HasValue(), Map(PairAt(eng, SliceOf(db, tenant), key, cut), names1))
            == Filter(HasValue(), Map(PairAt(eng, SliceOf(Later(db, later), tenant), key, cut), names2))
  {
    var s1, s2 := SliceOf(db, tenant), SliceOf(Later(db, later), tenant);
    hide *;
    ValuedPairs(eng, s1, key, cut, names1);
    ValuedPairs(eng, s2, key, cut, names2);
    SameValued(eng, db, later, tenant, key, cut, names1, names2);
    PairsStable(eng, db, later, tenant, key, cut);
    MapCong(PairAt(eng, s1, key, cut), PairAt(eng, s2, key, cut), Filter(Valued(eng, s1, key, cut), names1));
  }

  /** Every name splits back into its parts. */
  ghost predicate Spellable(names: seq<Name>) {
    forall n: Name :: n in names ==> SplitFeatureName(FeatureName(n.0, n.1)) == Some((n.0, n.1))
  }

  lemma ListsSpellable(slice: Slice, names: seq<Name>)
    requires Lists(slice, names)
    ensures Spellable(names)
  {
    hide SplitFeatureName, InOrder, IsStored;
    forall n: Name | n in names
      ensures SplitFeatureName(FeatureName(n.0, n.1)) == Some((n.0, n.1))
    {
      assert (n.0, n.1) in names;
      StoredIsValid(slice.features, n.0, n.1);
    }
  }

  lemma PairsDetermineNames(eng: Engine, s1: Slice, s2: Slice, key: Value, cut: int, names1: seq<Name>,
                            names2: seq<Name>)
    requires Spellable(names1) && Spellable(names2)
    requires Map(PairAt(eng, s1, key, cut), names1) == Map(PairAt(eng, s2, key, cut), names2)
    ensures names1 == names2
  {
    assert |names1| == |names2|;
    hide Frozen, SplitFeatureName;
    forall i | 0 <= i < |names1|
      ensures names1[i] == names2[i]
    {
      MapAt(PairAt(eng, s1, key, cut), names1, i);
      MapAt(PairAt(eng, s2, key, cut), names2, i);
      hide Map;
      assert names1[i] in names1 && names2[i] in names2;
    }
  }

  /** With the NULL pairs kept, the two freezes are the same list exactly when no later row brings the tenant a new
      feature name. */
  lemma RefreezeIff(eng: Engine, db: Db, later: seq<Row>, tenant: string, key: Value, cut: int, names1: seq<Name>,
                    names2: seq<Name>)
    requires AllAfter(later, cut)
    requires Lists(SliceOf(db, tenant), names1) && Lists(SliceOf(Later(db, later), tenant), names2)
    ensures Map(PairAt(eng, SliceOf(db, tenant), key, cut), names1)
            == Map(PairAt(eng, SliceOf(Later(db, later), tenant), key, cut), names2)
            <==> forall f, s :: IsStored(TenantRows(later, tenant), f, s)
                  ==> IsStored(SliceOf(db, tenant).features, f, s)
  {
    var s1, s2 := SliceOf(db, tenant), SliceOf(Later(db, later), tenant);
    forall f, s
      ensures IsStored(s2.features, f, s) <==> IsStored(s1.features, f, s) || IsStored(TenantRows(later, tenant), f, s)
    {
      LaterStored(db, later, tenant, f, s);
    }
    hide SliceOf, IsStored, InOrder, TenantRows, AllAfter, Spellable;
    if Map(PairAt(eng, s1, key, cut), names1) == Map(PairAt(eng, s2, key, cut), names2) {
      ListsSpellable(s1, names1);
      ListsSpellable(s2, names2);
      PairsDetermineNames(eng, s1, s2, key, cut, names1, names2);
      forall f, s | IsStored(TenantRows(later, tenant), f, s)
        ensures IsStored(s1.features, f, s)
      {
        assert (f, s) in names2;
      }
    }
    if forall f, s :: IsStored(TenantRows(later, tenant), f, s) ==> IsStored(s1.features, f, s) {
      forall n: Name
        ensures n in names1 <==> n in names2
      {
        assert n == (n.0, n.1);
      }
      OneOrder(names1, names2);
      PairsStable(eng, db, later, tenant, key, cut);
      MapCong(PairAt(eng, s1, key, cut), PairAt(eng, s2, key, cut), names1);
    }
  }

  // ----- names read from an older state -----

  /** The values frozen for a key under a list of names. */
  ghost function ValuesOf(eng: Engine, slice: Slice, key: Value, cut: int, names: seq<Name>): seq<(string, Value)> {
    Filter(HasValue(), Map(PairAt(eng, slice, key, cut), names))
  }

  /** Under the names of the reader's state a row has all the values it would have under the writer's own, exactly when
      the reader's state has every feature of which the writer has a value at or before the cut-off. */
  lemma StaleReaderIff(eng: Engine, reader: Slice, writer: Slice, key: Value, cut: int, names: seq<Name>,
                       own: seq<Name>)
    requires Lists(reader, names) && Lists(writer, own)
    ensures ValuesOf(eng, writer, key, cut, names) == ValuesOf(eng, writer, key, cut, own)
            <==> forall n: Name :: n in own && Valued(eng, writer, key, cut)(n) ==> IsStored(reader.features, n.0, n.1)
  {
    var p, pair := Valued(eng, writer, key, cut), PairAt(eng, writer, key, cut);
    ValuedPairs(eng, writer, key, cut, names);
    ValuedPairs(eng, writer, key, cut, own);
    FilterHas(p, names);
    FilterHas(p, own);
    FilterInOrder(p, names);
    FilterInOrder(p, own);
    ListsSpellable(reader, names);
    ListsSpellable(writer, own);
    hide Filter, Map, InOrder, IsStored, Frozen, SplitFeatureName;
    if ValuesOf(eng, writer, key, cut, names) == ValuesOf(eng, writer, key, cut, own) {
      PairsDetermineNames(eng, writer, writer, key, cut, Filter(p, names), Filter(p, own));
      forall n: Name | n in own && p(n)
        ensures IsStored(reader.features, n.0, n.1)
      {
        assert n in Filter(p, names) && n == (n.0, n.1);
      }
    }
    if forall n: Name :: n in own && p(n) ==> IsStored(reader.features, n.0, n.1) {
      forall n: Name
        ensures n in Filter(p, names) <==> n in Filter(p, own)
      {
        assert n == (n.0, n.1);
        if n in names && p(n) {
          FrozenStored(eng, writer, key, FeatureName(n.0, n.1), cut);
        }
      }
      OneOrder(Filter(p, names), Filter(p, own));
    }
  }

  /** The store is only appended to, so a reader that lags behind by newer timestamps alone costs no value. */
  lemma LaggingReader(eng: Engine, db: Db, later: seq<Row>, tenant: string, key: Value, cut: int, names: seq<Name>,
                      own: seq<Name>)
    requires AllAfter(later, cut)
    requires Lists(SliceOf(db, tenant), names) && Lists(SliceOf(Later(db, later), tenant), own)
    ensures var writer := SliceOf(Later(db, later), tenant);
            ValuesOf(eng, writer, key, cut, names) == ValuesOf(eng, writer, key, cut, own)
  {
    var reader, writer := SliceOf(db, tenant), SliceOf(Later(db, later), tenant);
    PairsStable(eng, db, later, tenant, key, cut);
    ListsSpellable(writer, own);
    hide SliceOf, Lists, IsStored, AllAfter, SplitFeatureName, Frozen, ValuesOf;
    StaleReaderIff(eng, reader, writer, key, cut, names, own);
    forall n: Name | n in own && Valued(eng, writer, key, cut)(n)
      ensures IsStored(reader.features, n.0, n.1)
    {
      FrozenStored(eng, reader, key, FeatureName(n.0, n.1), cut);
    }
  }

  /** A measurement. */
  function Measurement(tenant: string): Row {
    map["user_id" := Text("u"), "tenant_id" := Text(tenant), "feature_name" := Text("f.a"), "num_value" := Double(1.0),
      "as_of_ts" := Ts(0)]
  }

  lemma MeasurementStored(tenant: string)
    ensures NameOf(Measurement(tenant)) == Some(("f", "a"))
  {
    assert FeatureName("f", "a") == "f.a";
    SplitJoin("f", "a");
  }

  lemma MeasurementFrozen(eng: Engine, writer: Slice, tenant: string)
    requires writer.features == [Measurement(tenant)]
    ensures Frozen(eng, writer, Text("u"), "f.a", 0) == Double(1.0)
  {
    assert NewestAt(eng, writer.features, Text("u"), "f.a", Some(0), 0);
  }

  /** One measurement, which the reader does not have yet: it is in the row under the writer's names only. */
  lemma StaleReaderMisses(eng: Engine, reader: Slice, writer: Slice, tenant: string)
    requires reader.features == [] && writer.features == [Measurement(tenant)]
    ensures Lists(reader, []) && Lists(writer, [("f", "a")])
    ensures ValuesOf(eng, writer, Text("u"), 0, []) == []
    ensures ValuesOf(eng, writer, Text("u"), 0, [("f", "a")]) == [("f.a", Double(1.0))]
  {
    MeasurementStored(tenant);
    MeasurementFrozen(eng, writer, tenant);
    assert FeatureName("f", "a") == "f.a";
    hide Measurement, Frozen, NameOf;
    assert NameOf(writer.features[0]) == Some(("f", "a"));
  }
}
