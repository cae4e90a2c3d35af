/** Tenant isolation: what a tenant's queries return does not depend on any other tenant's rows. */
module Isolation {
  import opened Sequences
  import opened Values
  import opened Ast
  import opened Sql
  import opened Compiler
  import opened Denotation
  import opened CompilerProof
  import opened Binding
  import opened Derive
  import opened Profile

  /** The two catalogues hold the same rows of the tenant; everything else may differ. */
  ghost predicate Agree(db1: Db, db2: Db, tenant: string) {
    && (forall d :: TenantRows(RawRows(db1, d), tenant) == TenantRows(RawRows(db2, d), tenant))
    && TenantRows(db1.features, tenant) == TenantRows(db2.features, tenant)
    && TenantRows(db1.suppression, tenant) == TenantRows(db2.suppression, tenant)
  }

  lemma SliceMember(db: Db, tenant: string, d: Dataset)
    ensures d in SliceOf(db, tenant).raw <==> TenantRows(RawRows(db, d), tenant) != []
    ensures d in SliceOf(db, tenant).raw ==> SliceOf(db, tenant).raw[d] == TenantRows(RawRows(db, d), tenant)
  {
  }

  lemma SameSlice(db1: Db, db2: Db, tenant: string)
    requires Agree(db1, db2, tenant)
    ensures SliceOf(db1, tenant) == SliceOf(db2, tenant)
  {
    var s1, s2 := SliceOf(db1, tenant), SliceOf(db2, tenant);
    forall d
      ensures d in s1.raw <==> d in s2.raw
      ensures d in s1.raw ==> s1.raw[d] == s2.raw[d]
    {
      SliceMember(db1, tenant, d);
      SliceMember(db2, tenant, d);
    }
    assert s1.features == s2.features && s1.suppression == s2.suppression;
    hide SliceOf;
    assert s1.raw == s2.raw;
  }

  lemma {:induction false} SameElements(s: seq<Value>, t: seq<Value>)
    requires NoDup(s) && NoDup(t) && Elements(s) == Elements(t)
    ensures multiset(s) == multiset(t)
  {
    forall v
      ensures multiset(s)[v] == multiset(t)[v]
    {
      CountNoDup(s, v);
      CountNoDup(t, v);
      assert v in Elements(s) <==> v in Elements(t);
    }
  }

  lemma {:induction false} CountNoDup(s: seq<Value>, v: Value)
    requires NoDup(s)
    ensures multiset(s)[v] == if v in s then 1 else 0
  {
    if s != [] {
      CountNoDup(s[1..], v);
      HeadTail(s);
      assert multiset(s) == multiset{s[0]} + multiset(s[1..]);
      assert s[0] !in s[1..];
    }
  }

  /** Segments, at any nesting of set operations: the same rows come back. */
  lemma KeysIsolated(eng: Engine, db1: Db, db2: Db, q: SegmentQuery, depth: nat, opts: Options, c: Compiled)
    requires Context(eng, db1, opts) && Context(eng, db2, opts) && NoShadow(q) && opts.deriveLimit.None?
    requires Agree(db1, db2, opts.tenant) && CompileSpec(q, depth, opts) == Ok(c)
    ensures c.sql.Keys? && |c.params| == StatementHoles(c.sql)
    ensures multiset(EvalKeys(eng, db1, c)) == multiset(EvalKeys(eng, db2, c))
  {
    SameSlice(db1, db2, opts.tenant);
    CompileCorrect(eng, db1, q, depth, opts, c);
    CompileCorrect(eng, db2, q, depth, opts, c);
    hide EvalQuery, Denote, SliceOf, Context, NoShadow, Agree;
    SameElements(EvalKeys(eng, db1, c), EvalKeys(eng, db2, c));
  }

  /** Metrics: the same count is measured, the same statement compiled, and the same row returned. */
  lemma DeriveIsolated(eng: Engine, db1: Db, db2: Db, q: SegmentQuery, opts: Options, cap: nat)
    requires Context(eng, db1, opts) && Context(eng, db2, opts) && NoShadow(q) && EndsInDerive(q)
    requires Agree(db1, db2, opts.tenant)
    ensures CompileAndCheck(eng, db1, q, opts, cap) == CompileAndCheck(eng, db2, q, opts, cap)
    ensures var r := CompileAndCheck(eng, db1, q, opts, cap);
            r.Ok? ==> && r.value.sql.Metric? && |r.value.params| == StatementHoles(r.value.sql)
                      && EvalMetric(eng, db1, r.value.sql, r.value.params)
                        == EvalMetric(eng, db2, r.value.sql, r.value.params)
  {
    SameSlice(db1, db2, opts.tenant);
    SameLimit(eng, db1, db2, q, opts, cap);
    var r := CompileAndCheck(eng, db1, q, opts, cap);
    if r.Ok? {
      DeriveExact(eng, db1, q, opts, cap, r.value);
      DeriveExact(eng, db2, q, opts, cap, r.value);
    }
    hide EvalMetric, DenoteMetric, SurvivorLimit, CompileSpec, SliceOf, Context, Agree, NoShadow;
  }

  lemma SameLimit(eng: Engine, db1: Db, db2: Db, q: SegmentQuery, opts: Options, cap: nat)
    requires Context(eng, db1, opts) && Context(eng, db2, opts) && NoShadow(q) && EndsInDerive(q)
    requires Agree(db1, db2, opts.tenant)
    ensures SurvivorLimit(eng, db1, q, opts, cap) == SurvivorLimit(eng, db2, q, opts, cap)
  {
    var none := opts.(deriveLimit := None);
    var r := CompileSpec(StripDerive(q), 0, none);
    StripIsNarrowing(q);
    assert NoShadow(Narrowing(q));
    if r.Ok? {
      KeysIsolated(eng, db1, db2, StripDerive(q), 0, none, r.value);
      assert |multiset(EvalKeys(eng, db1, r.value))| == |EvalKeys(eng, db1, r.value)|;
      assert |multiset(EvalKeys(eng, db2, r.value))| == |EvalKeys(eng, db2, r.value)|;
    }
  }

  /** Profiles: each of the three queries sees the same segment size and the same event relation. */
  lemma ProfileIsolated(eng: Engine, db1: Db, db2: Db, q: SegmentQuery, opts: Options, ps: ProfileQueries)
    requires Context(eng, db1, opts) && Context(eng, db2, opts) && NoShadow(q) && opts.deriveLimit.None?
    requires Agree(db1, db2, opts.tenant) && CompileCharacterize(q, opts) == Ok(ps)
    ensures forall p :: p in {ps.metrics, ps.recency, ps.categories} ==>
              |p.params| == ProfileHoles(p) && EvalProfile(eng, db1, p) == EvalProfile(eng, db2, p)
  {
    SameSlice(db1, db2, opts.tenant);
    ProfileCorrect(eng, db1, q, opts, ps);
    ProfileCorrect(eng, db2, q, opts, ps);
    hide EvalProfile, DenoteProfile, CompileCharacterize, SliceOf, Context, Agree, NoShadow, ProfileHoles;
  }
}
