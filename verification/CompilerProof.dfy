/** The compiler preserves meaning: bound left to right, its SQL returns exactly the keys the segment denotes. */
module CompilerProof {
  import opened Sequences
  import opened Values
  import opened Ast
  import opened Sql
  import opened Compiler
  import opened Denotation

  // ----- slices -----

  lemma TenantRowsHave(rows: seq<Row>, tenant: string)
    ensures forall r :: r in TenantRows(rows, tenant) <==> r in rows && OfTenant(tenant)(r)
  {
    FilterHas(OfTenant(tenant), rows);
  }

  lemma SliceRowsAre(db: Db, tenant: string, d: Dataset)
    ensures SliceRows(SliceOf(db, tenant), d) == TenantRows(RawRows(db, d), tenant)
  {
  }

  // ----- binding through AND -----

  lemma AndTrue(eng: Engine, db: Db, scope: Scope, a: Cond, b: Cond, pa: seq<Value>, pb: seq<Value>)
    requires |pa| == Holes(a) && |pb| == Holes(b)
    ensures EvalCond(eng, db, scope, And(a, b), pa + pb) == True
            <==> EvalCond(eng, db, scope, a, pa) == True && EvalCond(eng, db, scope, b, pb) == True
  {
    assert (pa + pb)[..|pa|] == pa && (pa + pb)[|pa|..] == pb;
  }

  /** Appending a conjunct appends its parameters. */
  lemma ConjSnoc(eng: Engine, db: Db, scope: Scope, cs: seq<Cond>, c: Cond, ps: seq<Value>, pc: seq<Value>)
    requires cs != [] && |ps| == Holes(Conj(cs)) && |pc| == Holes(c)
    ensures Holes(Conj(cs + [c])) == |ps + pc|
    ensures EvalCond(eng, db, scope, Conj(cs + [c]), ps + pc) == True
            <==> EvalCond(eng, db, scope, Conj(cs), ps) == True && EvalCond(eng, db, scope, c, pc) == True
  {
    assert (cs + [c])[..|cs|] == cs;
    assert Conj(cs + [c]) == And(Conj(cs), c);
    AndTrue(eng, db, scope, Conj(cs), c, ps, pc);
  }

  lemma Conj3(a: Cond, b: Cond, c: Cond)
    ensures Conj([a, b, c]) == And(And(a, b), c)
  {
    assert [a, b, c][..2] == [a, b] && [a, b][..1] == [a];
    assert Conj([a]) == a;
    assert Conj([a, b]) == And(a, b);
  }

  lemma Conj4(a: Cond, b: Cond, c: Cond, d: Cond)
    ensures Conj([a, b, c, d]) == And(And(And(a, b), c), d)
  {
    Conj3(a, b, c);
    assert [a, b, c, d][..3] == [a, b, c];
  }

  lemma TenantEqTrue(eng: Engine, db: Db, scope: Scope, alias: Alias, tenant: string)
    requires alias in scope && TextOrNull(Cell(scope[alias], "tenant_id"))
    ensures EvalCond(eng, db, scope, TenantEq(alias), [Text(tenant)]) == True <==> OfTenant(tenant)(scope[alias])
  {
    assert [Text(tenant)][0..] == [Text(tenant)];
  }

  /** A column compared with a placeholder. */
  lemma HoleTrue(eng: Engine, db: Db, scope: Scope, sym: Symbol, alias: Alias, column: string, v: Value)
    requires alias in scope
    ensures Holes(Compare(sym, Column(alias, column), Hole)) == 1
    ensures EvalCond(eng, db, scope, Compare(sym, Column(alias, column), Hole), [v]) == True
            <==> Compare3(eng, sym, Cell(scope[alias], column), v) == True
  {
    assert [v][0..] == [v];
  }

  /** A join key, the tenant, and one more conjunct. */
  lemma Scoped3True(eng: Engine, db: Db, scope: Scope, alias: Alias, key: Cond, c: Cond, tenant: string, pc: seq<Value>)
    requires Holes(key) == 0 && |pc| == Holes(c) && alias in scope && TextOrNull(Cell(scope[alias], "tenant_id"))
    ensures Holes(Conj([key, TenantEq(alias), c])) == 1 + |pc|
    ensures EvalCond(eng, db, scope, Conj([key, TenantEq(alias), c]), [Text(tenant)] + pc) == True
            <==> EvalCond(eng, db, scope, key, []) == True && OfTenant(tenant)(scope[alias])
                  && EvalCond(eng, db, scope, c, pc) == True
  {
    var t := TenantEq(alias);
    assert Holes(t) == 1 && Holes(And(key, t)) == 1;
    Conj3(key, t, c);
    TenantEqTrue(eng, db, scope, alias, tenant);
    hide EvalCond, TenantEq, Conj, OfTenant;
    AndTrue(eng, db, scope, key, t, [], [Text(tenant)]);
    assert [] + [Text(tenant)] == [Text(tenant)];
    AndTrue(eng, db, scope, And(key, t), c, [Text(tenant)], pc);
  }

  /** A join key, the tenant, and two more conjuncts. */
  lemma Scoped4True(eng: Engine, db: Db, scope: Scope, alias: Alias, key: Cond, c: Cond, d: Cond, tenant: string,
                    pc: seq<Value>, pd: seq<Value>)
    requires Holes(key) == 0 && |pc| == Holes(c) && |pd| == Holes(d) && alias in scope
             && TextOrNull(Cell(scope[alias], "tenant_id"))
    ensures Holes(Conj([key, TenantEq(alias), c, d])) == 1 + |pc| + |pd|
    ensures EvalCond(eng, db, scope, Conj([key, TenantEq(alias), c, d]), [Text(tenant)] + pc + pd) == True
            <==> EvalCond(eng, db, scope, key, []) == True && OfTenant(tenant)(scope[alias])
                 && EvalCond(eng, db, scope, c, pc) == True && EvalCond(eng, db, scope, d, pd) == True
  {
    Scoped3True(eng, db, scope, alias, key, c, tenant, pc);
    assert Conj([key, TenantEq(alias), c, d]) == And(Conj([key, TenantEq(alias), c]), d) by {
      Conj3(key, TenantEq(alias), c);
      Conj4(key, TenantEq(alias), c, d);
    }
    hide EvalCond, TenantEq, Conj, OfTenant;
    AndTrue(eng, db, scope, Conj([key, TenantEq(alias), c]), d, [Text(tenant)] + pc, pd);
  }

  // ----- EXISTS -----

  lemma ExistsTrue(eng: Engine, db: Db, scope: Scope, negated: bool, table: Table, alias: Alias, where: Cond,
                   ps: seq<Value>)
    requires |ps| == Holes(where)
    ensures EvalCond(eng, db, scope, Exists(negated, table, alias, where, NoGroup), ps) == True
            <==> (exists r :: r in Relation(db, table)
                   && EvalCond(eng, db, scope[alias := r], where, ps) == True) != negated
  {
    var p, all := Satisfies(eng, db, scope, alias, where, ps), Relation(db, table);
    ExistsIs(eng, db, scope, negated, table, alias, where, ps);
    SatisfiesIs(eng, db, scope, alias, where, ps);
    hide *;
    FilterHas(p, all);
    NonEmptyHasMember(Filter(p, all));
    if r :| r in all && EvalCond(eng, db, scope[alias := r], where, ps) == True {
      assert p(r) && r in Filter(p, all);
    }
    if r :| r in Filter(p, all) {
      assert r in all && p(r);
    }
  }

  lemma SatisfiesIs(eng: Engine, db: Db, scope: Scope, alias: Alias, where: Cond, ps: seq<Value>)
    requires |ps| == Holes(where)
    ensures forall r :: Satisfies(eng, db, scope, alias, where, ps)(r)
             <==> EvalCond(eng, db, scope[alias := r], where, ps) == True
  {
    hide EvalCond;
  }

  lemma ExistsIs(eng: Engine, db: Db, scope: Scope, negated: bool, table: Table, alias: Alias, where: Cond,
                 ps: seq<Value>)
    requires |ps| == Holes(where)
    ensures EvalCond(eng, db, scope, Exists(negated, table, alias, where, NoGroup), ps) == True
            <==> (Filter(Satisfies(eng, db, scope, alias, where, ps), Relation(db, table)) != []) != negated
  {
    assert ps[..|ps|] == ps;
    assert EvalCond(eng, db, scope, Exists(negated, table, alias, where, NoGroup), ps)
           == TriOf(ReturnsRow(eng, NoGroup, Filter(Satisfies(eng, db, scope, alias, where, ps), Relation(db, table)),
             []) != negated);
    hide EvalCond, Filter, Satisfies, Relation;
  }

  /** EXISTS over a subquery whose rows all fall in one group. */
  lemma ExistsGrouped(eng: Engine, db: Db, scope: Scope, negated: bool, table: Table, alias: Alias, where: Cond,
                      having: Having, ps: seq<Value>, last: Value, rows: seq<Row>)
    requires |ps| == Holes(where) && !having.NoGroup?
    requires rows == Filter(Satisfies(eng, db, scope, alias, where, ps), Relation(db, table))
    requires forall r :: r in rows ==> Filter(SameGroup(having.cols, r), rows) == rows
    ensures EvalCond(eng, db, scope, Exists(negated, table, alias, where, having), ps + [last]) == True
            <==> (rows != [] && HavingTri(eng, having, rows, [last]) == True) != negated
  {
    assert (ps + [last])[..|ps|] == ps && (ps + [last])[|ps|..] == [last];
    assert EvalCond(eng, db, scope, Exists(negated, table, alias, where, having), ps + [last])
           == TriOf(ReturnsRow(eng, having, rows, [last]) != negated);
    hide EvalCond, Filter, Satisfies, Relation;
    ReturnsOneGroup(eng, having, rows, last);
  }

  lemma ReturnsOneGroup(eng: Engine, having: Having, rows: seq<Row>, last: Value)
    requires !having.NoGroup? && forall r :: r in rows ==> Filter(SameGroup(having.cols, r), rows) == rows
    ensures ReturnsRow(eng, having, rows, [last]) <==> rows != [] && HavingTri(eng, having, rows, [last]) == True
  {
    NonEmptyHasMember(rows);
    hide HavingTri, Filter, SameGroup;
  }

  // ----- predicates -----

  lemma {:induction false} In3True(eng: Engine, v: Value, items: seq<Value>)
    ensures In3(eng, v, items) == True <==> exists i :: 0 <= i < |items| && Compare3(eng, SymEq, v, items[i]) == True
  {
    if items != [] {
      In3True(eng, v, items[1..]);
      if Compare3(eng, SymEq, v, items[0]) != True && In3(eng, v, items[1..]) == True {
        var i :| 0 <= i < |items[1..]| && Compare3(eng, SymEq, v, items[1..][i]) == True;
        assert items[i + 1] == items[1..][i];
      }
      if i :| 0 < i < |items| && Compare3(eng, SymEq, v, items[i]) == True {
        assert items[1..][i - 1] == items[i];
      }
    }
  }

  lemma {:induction false} In3False(eng: Engine, v: Value, items: seq<Value>)
    ensures In3(eng, v, items) == False <==> forall i :: 0 <= i < |items| ==> Compare3(eng, SymEq, v, items[i]) == False
  {
    if items != [] {
      In3False(eng, v, items[1..]);
      assert In3(eng, v, items) == False <==>
               Compare3(eng, SymEq, v, items[0]) == False && In3(eng, v, items[1..]) == False;
      assert forall i :: 0 <= i < |items[1..]| ==> items[1..][i] == items[i + 1];
      assert (forall i :: 0 <= i < |items[1..]| ==> Compare3(eng, SymEq, v, items[1..][i]) == False)
             <==> (forall i :: 1 <= i < |items| ==> Compare3(eng, SymEq, v, items[i]) == False) by {
        assert forall i :: 1 <= i < |items| ==> items[i] == items[1..][i - 1];
      }
    }
  }

  lemma InFragCorrect(eng: Engine, db: Db, scope: Scope, alias: Alias, p: Predicate, f: Frag)
    requires alias in scope && BinarySymbol(p.op).None? && InFrag(alias, p) == Ok(f)
    ensures |f.params| == Holes(f.cond)
    ensures EvalCond(eng, db, scope, f.cond, f.params) == True <==> PredicateHolds(eng, scope[alias], p)
  {
    var items := p.value.items;
    if items != [] {
      var values := ToValues(items).value;
      var cell := Cell(scope[alias], p.column);
      assert f.params[..0] == [] && f.params[0..] == values;
      In3True(eng, cell, values);
      In3False(eng, cell, values);
      assert forall i :: 0 <= i < |items| ==> ToValue(items[i]) == Ok(values[i]);
      assert forall i :: 0 <= i < |items| ==> (Compare3(eng, SymEq, cell, values[i]) == True
             <==> ItemIs(eng, items[i], cell));
      assert forall i :: 0 <= i < |items| ==> (Compare3(eng, SymEq, cell, values[i]) == False
             <==> ItemIsNot(eng, items[i], cell));
    }
  }

  lemma PredicateCorrect(eng: Engine, db: Db, scope: Scope, alias: Alias, p: Predicate, f: Frag)
    requires alias in scope && PredicateFrag(alias, p) == Ok(f)
    ensures |f.params| == Holes(f.cond)
    ensures EvalCond(eng, db, scope, f.cond, f.params) == True <==> PredicateHolds(eng, scope[alias], p)
  {
    if BinarySymbol(p.op).None? {
      InFragCorrect(eng, db, scope, alias, p, f);
    } else {
      assert f.params[..0] == [] && f.params[0..] == f.params;
    }
  }

  // ----- recency and lapsed -----

  ghost predicate OnSide(eng: Engine, m: EventMatch, sym: Symbol, e: Row) {
    if sym.SymGe? then InWindow(eng, m, e) else BeforeWindow(eng, m, e)
  }

  lemma WindowTrue(eng: Engine, db: Db, scope: Scope, m: EventMatch, sym: Symbol)
    requires E in scope && (sym.SymGe? || sym.SymLt?)
    ensures Holes(WindowCond(m, sym)) == 0
    ensures EvalCond(eng, db, scope, WindowCond(m, sym), []) == True <==> OnSide(eng, m, sym, scope[E])
  {
    var ts := Column(E, m.tsColumn);
    assert ScalarHoles(ts) == 0 && ScalarHoles(Timestamp(ts)) == 0;
    assert EvalScalar(eng, scope, Timestamp(ts), []) == CastTs(eng, Cell(scope[E], m.tsColumn));
  }

  lemma RawCellTyped(db: Db, d: Dataset, r: Row, c: string)
    requires Typed(db) && r in RawRows(db, d)
    ensures TextOrNull(Cell(r, c))
  {
    assert d in db.raw && r in db.raw[d];
    assert TypedRaw(r);
    assert c in r ==> TextOrNull(r[c]);
  }

  lemma EventFragCorrect(eng: Engine, db: Db, scope: Scope, m: EventMatch, baseKey: string, sym: Symbol, tenant: string,
                         f: Frag)
    requires EventFrag(m, baseKey, sym, tenant) == Ok(f) && (sym.SymGe? || sym.SymLt?)
    requires Base in scope && E in scope && TextOrNull(Cell(scope[E], "tenant_id"))
    ensures |f.params| == Holes(f.cond)
    ensures EvalCond(eng, db, scope, f.cond, f.params) == True
            <==> OfTenant(tenant)(scope[E]) && EventMatches(eng, m, Cell(scope[Base], baseKey), scope[E])
                  && OnSide(eng, m, sym, scope[E])
  {
    var key, w := EventKeyEq(m, baseKey), WindowCond(m, sym);
    WindowTrue(eng, db, scope, m, sym);
    assert EvalCond(eng, db, scope, key, []) == True
           <==> SameKey(eng, Cell(scope[E], m.userKey), Cell(scope[Base], baseKey));
    if m.pred.None? {
      Scoped3True(eng, db, scope, E, key, w, tenant, []);
      assert [Text(tenant)] + [] == [Text(tenant)];
    } else {
      var p := PredicateFrag(E, m.pred.value).value;
      PredicateCorrect(eng, db, scope, E, m.pred.value, p);
      Scoped4True(eng, db, scope, E, key, p.cond, w, tenant, p.params, []);
      assert [Text(tenant)] + p.params + [] == f.params;
    }
    hide EvalCond, OfTenant, OnSide, PredicateFrag, PredicateHolds, Conj, SameKey, Holes;
  }

  ghost predicate SomeOnSide(eng: Engine, slice: Slice, m: EventMatch, sym: Symbol, key: Value) {
    if sym.SymGe? then SomeRecent(eng, slice, m, key) else SomeEarlier(eng, slice, m, key)
  }

  lemma EventExistsCorrect(eng: Engine, db: Db, scope: Scope, m: EventMatch, baseKey: string, sym: Symbol,
                           tenant: string, negated: bool, f: Frag)
    requires Typed(db) && Base in scope
    requires EventFrag(m, baseKey, sym, tenant) == Ok(f) && (sym.SymGe? || sym.SymLt?)
    ensures |f.params| == Holes(f.cond)
    ensures EvalCond(eng, db, scope, Exists(negated, Raw(m.event), E, f.cond, NoGroup), f.params) == True
            <==> SomeOnSide(eng, SliceOf(db, tenant), m, sym, Cell(scope[Base], baseKey)) != negated
  {
    var slice := SliceOf(db, tenant);
    SliceRowsAre(db, tenant, m.event);
    EventFragCorrect(eng, db, scope[E := map[]], m, baseKey, sym, tenant, f);
    TenantRowsHave(RawRows(db, m.event), tenant);
    var key := Cell(scope[Base], baseKey);
    forall e | e in RawRows(db, m.event)
      ensures EvalCond(eng, db, scope[E := e], f.cond, f.params) == True
              <==> e in SliceRows(slice, m.event) && EventMatches(eng, m, key, e) && OnSide(eng, m, sym, e)
    {
      RawCellTyped(db, m.event, e, "tenant_id");
      EventFragCorrect(eng, db, scope[E := e], m, baseKey, sym, tenant, f);
    }
    hide SliceRows, SliceOf, EventMatches, OnSide, EventFrag;
    ExistsTrue(eng, db, scope, negated, Raw(m.event), E, f.cond, f.params);
    hide EvalCond;
  }

  // ----- exclude -----

  /** A condition that scopes rows to the tenant keeps what the rest of it keeps of the tenant's rows. */
  lemma WhereOverSlice(where: Row -> bool, p: Row -> bool, rows: seq<Row>, tenant: string)
    requires forall r :: r in rows ==> where(r) == (OfTenant(tenant)(r) && p(r))
    ensures Filter(where, rows) == Filter(p, TenantRows(rows, tenant))
  {
    FilterFilter(p, OfTenant(tenant), rows);
    FilterCong(where, Both(OfTenant(tenant), p), rows);
  }

  lemma ActionTrue(eng: Engine, db: Db, scope: Scope)
    requires S in scope && TextOrNull(Cell(scope[S], "action"))
    ensures EvalCond(eng, db, scope, InLiterals(Column(S, "action"), [Text("targeted"), Text("delivered")]), []) == True
            <==> Cell(scope[S], "action") in {Text("targeted"), Text("delivered")}
  {
    var items := [Text("targeted"), Text("delivered")];
    In3True(eng, Cell(scope[S], "action"), items);
    assert items[0] == Text("targeted") && items[1] == Text("delivered");
  }

  lemma NoRepeatRow(eng: Engine, db: Db, scope: Scope, baseKey: string, tenant: string, campaignId: string)
    requires Base in scope && S in scope && TypedSuppression(scope[S])
    ensures Holes(NoRepeatWhere(baseKey)) == 2
    ensures EvalCond(eng, db, scope, NoRepeatWhere(baseKey), [Text(tenant), Text(campaignId)]) == True
            <==> OfTenant(tenant)(scope[S]) && Contacted(eng, Cell(scope[Base], baseKey), campaignId, scope[S])
  {
    var key, c := SuppressionKeyEq(baseKey), Compare(SymEq, Column(S, "campaign_id"), Hole);
    var a := InLiterals(Column(S, "action"), [Text("targeted"), Text("delivered")]);
    assert EvalCond(eng, db, scope, key, []) == True
           <==> SameKey(eng, Cell(scope[S], "user_id"), Cell(scope[Base], baseKey));
    HoleTrue(eng, db, scope, SymEq, S, "campaign_id", Text(campaignId));
    ActionTrue(eng, db, scope);
    Scoped4True(eng, db, scope, S, key, c, a, tenant, [Text(campaignId)], []);
    hide EvalCond, OfTenant, Conj, Holes, SameKey;
    assert [Text(tenant)] + [Text(campaignId)] + [] == [Text(tenant), Text(campaignId)];
  }

  lemma NoRepeatRows(eng: Engine, db: Db, scope: Scope, baseKey: string, tenant: string, campaignId: string)
    requires Typed(db) && Base in scope && Holes(NoRepeatWhere(baseKey)) == 2
    ensures forall s :: s in SliceOf(db, tenant).suppression ==> s in db.suppression
    ensures forall s :: s in db.suppression ==>
              (EvalCond(eng, db, scope[S := s], NoRepeatWhere(baseKey), [Text(tenant), Text(campaignId)]) == True
               <==> s in SliceOf(db, tenant).suppression && Contacted(eng, Cell(scope[Base], baseKey), campaignId, s))
  {
    TenantRowsHave(db.suppression, tenant);
    assert SliceOf(db, tenant).suppression == TenantRows(db.suppression, tenant);
    hide NoRepeatWhere, Contacted, SliceOf, EvalCond;
    forall s | s in db.suppression
      ensures EvalCond(eng, db, scope[S := s], NoRepeatWhere(baseKey), [Text(tenant), Text(campaignId)]) == True
              <==> s in SliceOf(db, tenant).suppression && Contacted(eng, Cell(scope[Base], baseKey), campaignId, s)
    {
      NoRepeatRow(eng, db, scope[S := s], baseKey, tenant, campaignId);
    }
  }

  lemma NoRepeatIs(db: Db, baseKey: string)
    ensures NoRepeatCond(baseKey) == Exists(true, Suppression, S, NoRepeatWhere(baseKey), NoGroup)
    ensures Holes(NoRepeatCond(baseKey)) == Holes(NoRepeatWhere(baseKey))
    ensures Relation(db, Suppression) == db.suppression
  {
    hide NoRepeatWhere;
  }

  lemma NoRepeatCorrect(eng: Engine, db: Db, scope: Scope, baseKey: string, tenant: string, campaignId: string)
    requires Typed(db) && Base in scope
    ensures Holes(NoRepeatCond(baseKey)) == 2
    ensures EvalCond(eng, db, scope, NoRepeatCond(baseKey), [Text(tenant), Text(campaignId)]) == True
            <==> !exists s :: s in SliceOf(db, tenant).suppression
                   && Contacted(eng, Cell(scope[Base], baseKey), campaignId, s)
  {
    var ps := [Text(tenant), Text(campaignId)];
    NoRepeatRow(eng, db, scope[S := map[]], baseKey, tenant, campaignId);
    hide *;
    NoRepeatIs(db, baseKey);
    NoRepeatRows(eng, db, scope, baseKey, tenant, campaignId);
    ExistsTrue(eng, db, scope, true, Suppression, S, NoRepeatWhere(baseKey), ps);
    var kept := SliceOf(db, tenant).suppression;
    if s :| s in kept && Contacted(eng, Cell(scope[Base], baseKey), campaignId, s) {
      assert s in db.suppression;
    }
    if r :| r in db.suppression && EvalCond(eng, db, scope[S := r], NoRepeatWhere(baseKey), ps) == True {
      assert r in kept;
    }
  }

  lemma FrequencyRow(eng: Engine, db: Db, scope: Scope, baseKey: string, tenant: string, days: nat)
    requires Base in scope && S in scope && TypedSuppression(scope[S])
    ensures Holes(FrequencyWhere(baseKey, days)) == 1
    ensures EvalCond(eng, db, scope, FrequencyWhere(baseKey, days), [Text(tenant)]) == True
            <==> OfTenant(tenant)(scope[S]) && TargetedSince(eng, Cell(scope[Base], baseKey), Cutoff(eng, days),
              scope[S])
  {
    var key, a := SuppressionKeyEq(baseKey), Compare(SymEq, Column(S, "action"), Literal(Text("targeted")));
    var w := Compare(SymGe, Column(S, "occurred_ts"), NowMinusDays(days));
    assert EvalCond(eng, db, scope, key, []) == True
           <==> SameKey(eng, Cell(scope[S], "user_id"), Cell(scope[Base], baseKey));
    assert EvalCond(eng, db, scope, a, []) == True <==> Cell(scope[S], "action") == Text("targeted");
    assert EvalCond(eng, db, scope, w, []) == True
           <==> Cell(scope[S], "occurred_ts").Ts? && Cell(scope[S], "occurred_ts").t >= Cutoff(eng, days);
    Scoped4True(eng, db, scope, S, key, a, w, tenant, [], []);
    hide EvalCond, OfTenant, Conj, Holes, SameValue;
    assert [Text(tenant)] + [] + [] == [Text(tenant)];
  }

  /** In a group whose rows all share the grouping column, every row is in every row's group. */
  lemma OneGroup(cols: seq<string>, r: Row, rows: seq<Row>)
    requires forall x :: x in rows ==> GroupKey(cols, x) == GroupKey(cols, r)
    ensures Filter(SameGroup(cols, r), rows) == rows
  {
    FilterAll(SameGroup(cols, r), rows);
  }

  lemma FrequencyRows(eng: Engine, db: Db, scope: Scope, baseKey: string, tenant: string, days: nat)
    requires Typed(db) && Base in scope
    ensures Holes(FrequencyWhere(baseKey, days)) == 1
    ensures Filter(Satisfies(eng, db, scope, S, FrequencyWhere(baseKey, days), [Text(tenant)]), db.suppression)
            == Filter(IsTargetedSince(eng, Cell(scope[Base], baseKey), Cutoff(eng, days)),
              SliceOf(db, tenant).suppression)
  {
    FrequencyRow(eng, db, scope[S := map[]], baseKey, tenant, days);
    var where := Satisfies(eng, db, scope, S, FrequencyWhere(baseKey, days), [Text(tenant)]);
    var p := IsTargetedSince(eng, Cell(scope[Base], baseKey), Cutoff(eng, days));
    forall s | s in db.suppression
      ensures where(s) == (OfTenant(tenant)(s) && p(s))
    {
      FrequencyRow(eng, db, scope[S := s], baseKey, tenant, days);
    }
    WhereOverSlice(where, p, db.suppression, tenant);
  }

  /** With a text key, the targeted rows of one user form one group. */
  lemma TargetedOneGroup(eng: Engine, key: Value, cutoff: int, r: Row, rows: seq<Row>)
    requires TextOrNull(key) && r in rows
    requires forall x :: x in rows ==> TypedSuppression(x) && TargetedSince(eng, key, cutoff, x)
    ensures Filter(SameGroup(["user_id"], r), rows) == rows
  {
    forall x | x in rows
      ensures GroupKey(["user_id"], x) == GroupKey(["user_id"], r)
    {
      assert Cell(x, "user_id") == key == Cell(r, "user_id");
    }
    OneGroup(["user_id"], r, rows);
  }

  lemma CountBelow(eng: Engine, db: Db, scope: Scope, where: Cond, ps: seq<Value>, n: nat, rows: seq<Row>)
    requires Holes(where) == |ps| && n >= 1
    requires rows == Filter(Satisfies(eng, db, scope, S, where, ps), db.suppression)
    requires forall r :: r in rows ==> Filter(SameGroup(["user_id"], r), rows) == rows
    ensures EvalCond(eng, db, scope, Exists(true, Suppression, S, where, CountAtLeast(["user_id"])), ps + [BigInt(n)])
            == True
            <==> |rows| < n
  {
    HavingCount(eng, rows, n);
    hide EvalCond, SameGroup, Filter, Satisfies, HavingTri, Holes;
    ExistsGrouped(eng, db, scope, true, Suppression, S, where, CountAtLeast(["user_id"]), ps, BigInt(n), rows);
  }

  lemma HavingCount(eng: Engine, rows: seq<Row>, n: nat)
    ensures HavingTri(eng, CountAtLeast(["user_id"]), rows, [BigInt(n)]) == True <==> |rows| >= n
  {
  }

  lemma FrequencyCorrect(eng: Engine, db: Db, scope: Scope, baseKey: string, tenant: string, cap: FrequencyCap)
    requires Typed(db) && Base in scope && cap.Valid()
    requires TextOrNull(Cell(scope[Base], baseKey))
    ensures Holes(FrequencyCond(baseKey, cap.windowDays)) == 2
    ensures EvalCond(eng, db, scope, FrequencyCond(baseKey, cap.windowDays), [Text(tenant), BigInt(cap.maxContacts)])
            == True
            <==> |Filter(IsTargetedSince(eng, Cell(scope[Base], baseKey), Cutoff(eng, cap.windowDays)),
                         SliceOf(db, tenant).suppression)| < cap.maxContacts
  {
    var cutoff, key := Cutoff(eng, cap.windowDays), Cell(scope[Base], baseKey);
    var rows := Filter(IsTargetedSince(eng, key, cutoff), SliceOf(db, tenant).suppression);
    hide *;
    FrequencyRows(eng, db, scope, baseKey, tenant, cap.windowDays);
    FrequencyIs(baseKey, cap.windowDays);
    TargetedGroups(eng, db, key, cutoff, tenant);
    CountBelow(eng, db, scope, FrequencyWhere(baseKey, cap.windowDays), [Text(tenant)], cap.maxContacts, rows);
    assert [Text(tenant)] + [BigInt(cap.maxContacts)] == [Text(tenant), BigInt(cap.maxContacts)];
  }

  lemma FrequencyIs(baseKey: string, days: nat)
    ensures FrequencyCond(baseKey, days) == Exists(true, Suppression, S, FrequencyWhere(baseKey, days),
            CountAtLeast(["user_id"]))
    ensures Holes(FrequencyCond(baseKey, days)) == Holes(FrequencyWhere(baseKey, days)) + 1
  {
    hide FrequencyWhere;
  }

  lemma TargetedGroups(eng: Engine, db: Db, key: Value, cutoff: int, tenant: string)
    requires Typed(db) && TextOrNull(key)
    ensures var rows := Filter(IsTargetedSince(eng, key, cutoff), SliceOf(db, tenant).suppression);
            forall r :: r in rows ==> Filter(SameGroup(["user_id"], r), rows) == rows
  {
    var rows := Filter(IsTargetedSince(eng, key, cutoff), SliceOf(db, tenant).suppression);
    FilterHas(IsTargetedSince(eng, key, cutoff), SliceOf(db, tenant).suppression);
    TenantRowsHave(db.suppression, tenant);
    assert forall x :: x in rows ==> TypedSuppression(x) && TargetedSince(eng, key, cutoff, x);
    hide *;
    forall r | r in rows
      ensures Filter(SameGroup(["user_id"], r), rows) == rows
    {
      TargetedOneGroup(eng, key, cutoff, r, rows);
    }
  }

  lemma ExcludeCorrect(eng: Engine, db: Db, scope: Scope, campaignId: string, baseKey: string, opts: Options)
    requires Typed(db) && opts.rules.Valid() && Base in scope && TextOrNull(Cell(scope[Base], baseKey))
    ensures var f := ExcludeFrag(campaignId, baseKey, opts);
            && |f.params| == Holes(f.cond)
            && (EvalCond(eng, db, scope, f.cond, f.params) == True
                <==> NotSuppressed(eng, SliceOf(db, opts.tenant), opts.rules, Cell(scope[Base], baseKey), campaignId))
  {
    var cap := opts.rules.frequencyCap;
    if opts.rules.perCampaignNoRepeat {
      NoRepeatCorrect(eng, db, scope, baseKey, opts.tenant, campaignId);
    }
    if cap.Some? {
      FrequencyCorrect(eng, db, scope, baseKey, opts.tenant, cap.value);
    }
    if opts.rules.perCampaignNoRepeat && cap.Some? {
      var repeatParams, capParams := [Text(opts.tenant), Text(campaignId)],
          [Text(opts.tenant), BigInt(cap.value.maxContacts)];
      AndTrue(eng, db, scope, NoRepeatCond(baseKey), FrequencyCond(baseKey, cap.value.windowDays), repeatParams,
              capParams);
      hide EvalCond, NoRepeatCond, FrequencyCond, SliceOf;
    } else if opts.rules.perCampaignNoRepeat || cap.Some? {
      hide EvalCond, NoRepeatCond, FrequencyCond, SliceOf;
    }
  }

  // ----- features -----

  predicate Matches(eng: Engine, key: Value, name: string, bound: Option<int>, r: Row) {
    && !Cell(r, "user_id").Null? && !key.Null? && SameValue(eng, Cell(r, "user_id"), key)
    && Cell(r, "feature_name") == Text(name)
    && (bound.Some? ==> Cell(r, "as_of_ts").Ts? && Cell(r, "as_of_ts").t <= bound.value)
  }

  function IsMatch(eng: Engine, key: Value, name: string, bound: Option<int>): Row -> bool {
    r => Matches(eng, key, name, bound, r)
  }

  function Newer(before: Option<Row>, last: Row, eligible: bool): Option<Row>
    requires before.Some? ==> Measured(before.value)
  {
    if eligible && Measured(last) && (before.None? || AsOf(before.value) < AsOf(last)) then Some(last) else before
  }

  lemma ArgMaxSnoc(p: Row -> bool, rows: seq<Row>)
    requires rows != []
    ensures var front, last := rows[..|rows| - 1], rows[|rows| - 1];
            ArgMaxRow(Filter(p, rows)) == Newer(ArgMaxRow(Filter(p, front)), last, p(last))
  {
    var front, last := rows[..|rows| - 1], rows[|rows| - 1];
    var kept := Filter(p, front);
    assert rows == front + [last];
    FilterSnoc(p, front, last);
    assert (kept + [last])[..|kept|] == kept;
  }

  lemma NewestStep(eng: Engine, rows: seq<Row>, key: Value, name: string, bound: Option<int>, i: int)
    requires rows != [] && NewestAt(eng, rows[..|rows| - 1], key, name, bound, i)
    ensures var last := rows[|rows| - 1];
            if Qualifies(eng, key, name, bound, last) && AsOf(rows[i]) < AsOf(last)
            then NewestAt(eng, rows, key, name, bound, |rows| - 1)
            else NewestAt(eng, rows, key, name, bound, i)
  {
    hide Qualifies;
    var front := rows[..|rows| - 1];
    assert forall j :: 0 <= j < |front| ==> front[j] == rows[j];
  }

  lemma NoneNewestStep(eng: Engine, rows: seq<Row>, key: Value, name: string, bound: Option<int>)
    requires rows != [] && forall r :: r in rows[..|rows| - 1] ==> !Qualifies(eng, key, name, bound, r)
    ensures var last := rows[|rows| - 1];
            if Qualifies(eng, key, name, bound, last) then NewestAt(eng, rows, key, name, bound, |rows| - 1)
            else forall r :: r in rows ==> !Qualifies(eng, key, name, bound, r)
  {
    hide Qualifies;
    var front := rows[..|rows| - 1];
    assert forall j :: 0 <= j < |front| ==> rows[j] == front[j] && rows[j] in front;
  }

  /** The engine's `arg_max` finds the newest qualifying row. */
  lemma {:induction false} NewestIsArgMax(eng: Engine, rows: seq<Row>, key: Value, name: string, bound: Option<int>)
    returns (i: int)
    ensures var best := ArgMaxRow(Filter(IsMatch(eng, key, name, bound), rows));
            if best.Some? then NewestAt(eng, rows, key, name, bound, i) && rows[i] == best.value
            else forall r :: r in rows ==> !Qualifies(eng, key, name, bound, r)
  {
    i := 0;
    if rows != [] {
      var p := IsMatch(eng, key, name, bound);
      var front, last := rows[..|rows| - 1], rows[|rows| - 1];
      i := NewestIsArgMax(eng, front, key, name, bound);
      ArgMaxSnoc(p, rows);
      var before := ArgMaxRow(Filter(p, front));
      assert p(last) && Measured(last) <==> Qualifies(eng, key, name, bound, last);
      if before.Some? {
        NewestStep(eng, rows, key, name, bound, i);
        assert rows[i] == before.value;
      } else {
        NoneNewestStep(eng, rows, key, name, bound);
      }
      if Qualifies(eng, key, name, bound, last) && (before.None? || AsOf(before.value) < AsOf(last)) {
        i := |rows| - 1;
      }
    }
  }

  /** What the SQL compares is the newest value; what the DSL denotes is that it compares. */
  lemma FeatureHoldsIff(eng: Engine, slice: Slice, key: Value, name: string, op: Cmp, value: real, bound: Option<int>,
                        sym: Symbol)
    requires FeatureSymbol(op) == Ok(sym)
    ensures FeatureHolds(eng, slice, key, name, op, value, bound)
            <==> Compare3(eng, sym, ArgMax(Filter(IsMatch(eng, key, name, bound), slice.features)), Double(value))
                  == True
  {
    var rows := slice.features;
    var best := ArgMaxRow(Filter(IsMatch(eng, key, name, bound), rows));
    var i := NewestIsArgMax(eng, rows, key, name, bound);
    if best.Some? {
      assert forall j :: NewestAt(eng, rows, key, name, bound, j) ==> j == i;
    }
  }

  lemma PointInTimeRow(eng: Engine, db: Db, scope: Scope, baseKey: string, tenant: string, name: string, asOf: string)
    requires Base in scope && F in scope && TypedFeature(scope[F])
    ensures Holes(PointInTimeWhere(baseKey)) == 3
    ensures EvalCond(eng, db, scope, PointInTimeWhere(baseKey), [Text(tenant), Text(name), Text(asOf)]) == True
            <==> OfTenant(tenant)(scope[F]) && Matches(eng, Cell(scope[Base], baseKey), name, Bound(eng, Some(asOf)),
              scope[F])
  {
    var key, n := FeatureKeyEq(baseKey), Compare(SymEq, Column(F, "feature_name"), Hole);
    var w := Compare(SymLe, Column(F, "as_of_ts"), Timestamp(Hole));
    assert EvalCond(eng, db, scope, key, []) == True
           <==> SameKey(eng, Cell(scope[F], "user_id"), Cell(scope[Base], baseKey));
    HoleTrue(eng, db, scope, SymEq, F, "feature_name", Text(name));
    AsOfTrue(eng, db, scope, asOf);
    Scoped4True(eng, db, scope, F, key, n, w, tenant, [Text(name)], [Text(asOf)]);
    hide EvalCond, OfTenant, Conj, Holes, SameValue;
    assert [Text(tenant)] + [Text(name)] + [Text(asOf)] == [Text(tenant), Text(name), Text(asOf)];
  }

  lemma AsOfTrue(eng: Engine, db: Db, scope: Scope, asOf: string)
    requires F in scope && TypedFeature(scope[F])
    ensures Holes(Compare(SymLe, Column(F, "as_of_ts"), Timestamp(Hole))) == 1
    ensures EvalCond(eng, db, scope, Compare(SymLe, Column(F, "as_of_ts"), Timestamp(Hole)), [Text(asOf)]) == True
            <==> Cell(scope[F], "as_of_ts").Ts? && Cell(scope[F], "as_of_ts").t <= eng.parseTs(asOf)
  {
    assert ScalarHoles(Hole) == 1 && ScalarHoles(Timestamp(Hole)) == 1;
    assert [Text(asOf)][0..] == [Text(asOf)];
    assert EvalScalar(eng, scope, Timestamp(Hole), [Text(asOf)]) == Ts(eng.parseTs(asOf));
  }

  lemma PointInTimeRows(eng: Engine, db: Db, scope: Scope, baseKey: string, tenant: string, name: string, asOf: string)
    requires Typed(db) && Base in scope
    ensures Holes(PointInTimeWhere(baseKey)) == 3
    ensures Filter(Satisfies(eng, db, scope, F, PointInTimeWhere(baseKey), [Text(tenant), Text(name), Text(asOf)]),
            db.features)
            == Filter(IsMatch(eng, Cell(scope[Base], baseKey), name, Bound(eng, Some(asOf))),
              SliceOf(db, tenant).features)
  {
    PointInTimeRow(eng, db, scope[F := map[]], baseKey, tenant, name, asOf);
    var where := Satisfies(eng, db, scope, F, PointInTimeWhere(baseKey), [Text(tenant), Text(name), Text(asOf)]);
    var p := IsMatch(eng, Cell(scope[Base], baseKey), name, Bound(eng, Some(asOf)));
    forall r | r in db.features
      ensures where(r) == (OfTenant(tenant)(r) && p(r))
    {
      PointInTimeRow(eng, db, scope[F := r], baseKey, tenant, name, asOf);
    }
    WhereOverSlice(where, p, db.features, tenant);
  }

  lemma FeatureOneGroup(eng: Engine, key: Value, name: string, bound: Option<int>, r: Row, rows: seq<Row>)
    requires TextOrNull(key) && r in rows
    requires forall x :: x in rows ==> TypedFeature(x) && Matches(eng, key, name, bound, x)
    ensures Filter(SameGroup(["user_id", "feature_name"], r), rows) == rows
  {
    var cols := ["user_id", "feature_name"];
    forall x | x in rows
      ensures GroupKey(cols, x) == GroupKey(cols, r)
    {
      assert Cell(x, "user_id") == key == Cell(r, "user_id");
      assert Cell(x, "feature_name") == Cell(r, "feature_name");
    }
    OneGroup(cols, r, rows);
  }

  lemma NewestCompared(eng: Engine, db: Db, scope: Scope, where: Cond, ps: seq<Value>, sym: Symbol, v: Value,
                       rows: seq<Row>)
    requires Holes(where) == |ps|
    requires rows == Filter(Satisfies(eng, db, scope, F, where, ps), db.features)
    requires forall r :: r in rows ==> Filter(SameGroup(["user_id", "feature_name"], r), rows) == rows
    ensures EvalCond(eng, db, scope, Exists(false, FeatureStore, F, where,
            NewestCompares(["user_id", "feature_name"], sym)), ps + [v]) == True
            <==> Compare3(eng, sym, ArgMax(rows), v) == True
  {
    ExistsGrouped(eng, db, scope, false, FeatureStore, F, where, NewestCompares(["user_id", "feature_name"], sym), ps,
                  v, rows);
  }

  lemma PointInTimeCorrect(eng: Engine, db: Db, scope: Scope, baseKey: string, tenant: string, name: string,
                           asOf: string, op: Cmp, value: real, sym: Symbol)
    requires Typed(db) && Base in scope && TextOrNull(Cell(scope[Base], baseKey)) && FeatureSymbol(op) == Ok(sym)
    ensures Holes(PointInTimeCond(baseKey, sym)) == 4
    ensures EvalCond(eng, db, scope, PointInTimeCond(baseKey, sym),
            [Text(tenant), Text(name), Text(asOf), Double(value)]) == True
            <==> FeatureHolds(eng, SliceOf(db, tenant), Cell(scope[Base], baseKey), name, op, value,
              Bound(eng, Some(asOf)))
  {
    var key, bound := Cell(scope[Base], baseKey), Bound(eng, Some(asOf));
    var ps := [Text(tenant), Text(name), Text(asOf)];
    PointInTimeRows(eng, db, scope, baseKey, tenant, name, asOf);
    var rows := Filter(IsMatch(eng, key, name, bound), SliceOf(db, tenant).features);
    FilterHas(IsMatch(eng, key, name, bound), SliceOf(db, tenant).features);
    TenantRowsHave(db.features, tenant);
    forall r | r in rows
      ensures Filter(SameGroup(["user_id", "feature_name"], r), rows) == rows
    {
      FeatureOneGroup(eng, key, name, bound, r, rows);
    }
    FeatureHoldsIff(eng, SliceOf(db, tenant), key, name, op, value, bound, sym);
    hide PointInTimeWhere, SliceOf, IsMatch, SameGroup, FeatureHolds, Compare3;
    NewestCompared(eng, db, scope, PointInTimeWhere(baseKey), ps, sym, Double(value), rows);
    assert ps + [Double(value)] == [Text(tenant), Text(name), Text(asOf), Double(value)];
  }

  // ----- the wide view -----

  /** The owners of a pivot are the owners of the family's rows. */
  lemma OwnersAre(rows: seq<Row>, family: string)
    ensures forall o :: o in Owners(rows, family) <==> exists r :: r in rows && OfFamily(family)(r) && Owner()(r) == o
  {
    FilterHas(OfFamily(family), rows);
    MapHas(Owner(), Filter(OfFamily(family), rows));
    DistinctIs(Map(Owner(), Filter(OfFamily(family), rows)));
    hide Filter, Map, Distinct;
  }

  /** A column of a pivot row is the tenant's newest value for that user. */
  lemma PivotCell(eng: Engine, db: Db, family: string, short: string, key: Value, tenant: string)
    requires Typed(db) && key.Text? && short !in {"user_id", "tenant_id"} && short in ViewColumns(db, family)
    ensures var row := PivotRow(db.features, family, ViewColumns(db, family), (key, Text(tenant)));
            Cell(row, short) == ArgMax(Filter(IsMatch(eng, key, FeatureName(family, short), None),
                 SliceOf(db, tenant).features))
  {
    var name := FeatureName(family, short);
    var owned := OwnedFeature((key, Text(tenant)), name);
    OwnedIsMatch(eng, db, name, key, tenant);
    assert Cell(PivotRow(db.features, family, ViewColumns(db, family), (key, Text(tenant))), short)
           == ArgMax(Filter(owned, db.features));
    hide *;
    WhereOverSlice(owned, IsMatch(eng, key, name, None), db.features, tenant);
  }

  lemma OwnedIsMatch(eng: Engine, db: Db, name: string, key: Value, tenant: string)
    requires Typed(db) && key.Text?
    ensures forall r :: r in db.features ==>
              OwnedFeature((key, Text(tenant)), name)(r) == (OfTenant(tenant)(r) && IsMatch(eng, key, name, None)(r))
  {
    forall r | r in db.features
      ensures OwnedFeature((key, Text(tenant)), name)(r) == (OfTenant(tenant)(r) && IsMatch(eng, key, name, None)(r))
    {
      assert TypedFeature(r);
      assert Owner()(r) == (Cell(r, "user_id"), Cell(r, "tenant_id"));
      assert SameValue(eng, Cell(r, "user_id"), key) == (Cell(r, "user_id") == key) || Cell(r, "user_id").Null?;
    }
  }

  lemma WideRow(eng: Engine, db: Db, scope: Scope, baseKey: string, short: string, sym: Symbol, tenant: string,
                value: Value)
    requires Base in scope && F in scope && TextOrNull(Cell(scope[F], "tenant_id"))
    ensures Holes(WideWhere(baseKey, short, sym)) == 2
    ensures EvalCond(eng, db, scope, WideWhere(baseKey, short, sym), [Text(tenant), value]) == True
            <==> SameKey(eng, Cell(scope[F], "user_id"), Cell(scope[Base], baseKey)) && OfTenant(tenant)(scope[F])
                 && Compare3(eng, sym, Cell(scope[F], short), value) == True
  {
    var key, c := FeatureKeyEq(baseKey), Compare(sym, Column(F, short), Hole);
    assert EvalCond(eng, db, scope, key, []) == True
           <==> SameKey(eng, Cell(scope[F], "user_id"), Cell(scope[Base], baseKey));
    HoleTrue(eng, db, scope, sym, F, short, value);
    Scoped3True(eng, db, scope, F, key, c, tenant, [value]);
    hide EvalCond, OfTenant, Conj, Holes, SameKey, Compare3;
    assert [Text(tenant)] + [value] == [Text(tenant), value];
  }

  /** The wide view's row of owner `o` is the key's, the tenant's, and compares. */
  ghost predicate WideRowFits(eng: Engine, db: Db, family: string, short: string, sym: Symbol, key: Value,
                              tenant: string,
                              value: Value, o: (Value, Value)) {
    && SameKey(eng, o.0, key) && o.1 == Text(tenant)
    && Compare3(eng, sym, Cell(PivotRow(db.features, family, ViewColumns(db, family), o), short), value) == True
  }

  ghost predicate SomeWideRow(eng: Engine, db: Db, family: string, short: string, sym: Symbol, key: Value,
                              tenant: string, value: Value) {
    exists o :: o in Owners(db.features, family) && WideRowFits(eng, db, family, short, sym, key, tenant, value, o)
  }

  lemma OwnersTyped(db: Db, family: string)
    requires Typed(db)
    ensures forall o :: o in Owners(db.features, family) ==> TextOrNull(o.0) && TextOrNull(o.1)
  {
    OwnersAre(db.features, family);
  }

  lemma ExistsOverMap(eng: Engine, db: Db, scope: Scope, table: Table, where: Cond, ps: seq<Value>,
                      f: ((Value, Value)) -> Row, owners: seq<(Value, Value)>)
    requires |ps| == Holes(where) && Relation(db, table) == Map(f, owners)
    ensures EvalCond(eng, db, scope, Exists(false, table, F, where, NoGroup), ps) == True
            <==> exists o :: o in owners && EvalCond(eng, db, scope[F := f(o)], where, ps) == True
  {
    ExistsTrue(eng, db, scope, false, table, F, where, ps);
    MapHas(f, owners);
    hide EvalCond, Relation;
    assert forall o :: o in owners ==> f(o) in Relation(db, table);
  }

  lemma WideRowOf(eng: Engine, db: Db, scope: Scope, baseKey: string, family: string, short: string, sym: Symbol,
                  tenant: string,
                  value: Value, o: (Value, Value))
    requires Base in scope && TextOrNull(o.1)
    ensures var row := PivotRow(db.features, family, ViewColumns(db, family), o);
            && Holes(WideWhere(baseKey, short, sym)) == 2
            && (EvalCond(eng, db, scope[F := row], WideWhere(baseKey, short, sym), [Text(tenant), value]) == True
                <==> WideRowFits(eng, db, family, short, sym, Cell(scope[Base], baseKey), tenant, value, o))
  {
    var row := PivotRow(db.features, family, ViewColumns(db, family), o);
    assert Cell(row, "user_id") == o.0 && Cell(row, "tenant_id") == o.1;
    hide PivotRow;
    WideRow(eng, db, scope[F := row], baseKey, short, sym, tenant, value);
  }

  lemma WideExistsIn(eng: Engine, db: Db, scope: Scope, family: string, short: string, sym: Symbol, key: Value,
                     tenant: string, value: Value,
                     where: Cond, ps: seq<Value>, f: ((Value, Value)) -> Row, owners: seq<(Value, Value)>)
    requires |ps| == Holes(where) && Relation(db, FeatureWide(family)) == Map(f, owners)
    requires forall o :: o in owners ==>
               (EvalCond(eng, db, scope[F := f(o)], where, ps) == True <==>
                WideRowFits(eng, db, family, short, sym, key, tenant, value, o))
    ensures EvalCond(eng, db, scope, Exists(false, FeatureWide(family), F, where, NoGroup), ps) == True
            <==> exists o :: o in owners && WideRowFits(eng, db, family, short, sym, key, tenant, value, o)
  {
    hide WideRowFits, Relation;
    ExistsOverMap(eng, db, scope, FeatureWide(family), where, ps, f, owners);
    hide EvalCond;
  }

  lemma WideRows(eng: Engine, db: Db, scope: Scope, baseKey: string, family: string, short: string, sym: Symbol,
                 tenant: string, value: Value)
    requires Typed(db) && Base in scope
    ensures Holes(WideWhere(baseKey, short, sym)) == 2
    ensures forall o :: o in Owners(db.features, family) ==>
              (EvalCond(eng, db, scope[F := ToPivotRow(db.features, family, ViewColumns(db, family))(o)],
                        WideWhere(baseKey, short, sym), [Text(tenant), value]) == True
               <==> WideRowFits(eng, db, family, short, sym, Cell(scope[Base], baseKey), tenant, value, o))
  {
    WideRowOf(eng, db, scope, baseKey, family, short, sym, tenant, value, (Null, Null));
    OwnersTyped(db, family);
    hide WideWhere, EvalCond, Owners, WideRowFits;
    forall o | o in Owners(db.features, family)
      ensures EvalCond(eng, db, scope[F := ToPivotRow(db.features, family, ViewColumns(db, family))(o)],
                       WideWhere(baseKey, short, sym), [Text(tenant), value]) == True
              <==> WideRowFits(eng, db, family, short, sym, Cell(scope[Base], baseKey), tenant, value, o)
    {
      WideRowOf(eng, db, scope, baseKey, family, short, sym, tenant, value, o);
      assert ToPivotRow(db.features, family, ViewColumns(db, family))(o)
             == PivotRow(db.features, family, ViewColumns(db, family), o);
    }
  }

  lemma WideRelation(db: Db, family: string)
    ensures Relation(db, FeatureWide(family))
            == Map(ToPivotRow(db.features, family, ViewColumns(db, family)), Owners(db.features, family))
  {
  }

  lemma WideExists(eng: Engine, db: Db, scope: Scope, baseKey: string, family: string, short: string, sym: Symbol,
                   tenant: string, value: Value)
    requires Typed(db) && Base in scope
    ensures Holes(WideWhere(baseKey, short, sym)) == 2
    ensures EvalCond(eng, db, scope, Exists(false, FeatureWide(family), F, WideWhere(baseKey, short, sym), NoGroup),
            [Text(tenant), value]) == True
            <==> SomeWideRow(eng, db, family, short, sym, Cell(scope[Base], baseKey), tenant, value)
  {
    hide *;
    WideRelation(db, family);
    WideRows(eng, db, scope, baseKey, family, short, sym, tenant, value);
    WideExistsIn(eng, db, scope, family, short, sym, Cell(scope[Base], baseKey), tenant, value,
                 WideWhere(baseKey, short, sym),
                 [Text(tenant), value], ToPivotRow(db.features, family, ViewColumns(db, family)),
                   Owners(db.features, family));
    SomeWideRowIs(eng, db, family, short, sym, Cell(scope[Base], baseKey), tenant, value);
  }

  lemma SomeWideRowIs(eng: Engine, db: Db, family: string, short: string, sym: Symbol, key: Value, tenant: string,
                      value: Value)
    ensures SomeWideRow(eng, db, family, short, sym, key, tenant, value)
            <==> exists o :: o in Owners(db.features, family)
                  && WideRowFits(eng, db, family, short, sym, key, tenant, value, o)
  {
    hide WideRowFits, Owners;
  }

  /** The tenant's rows for a feature make their user an owner in its family, and their column exists. */
  lemma MatchedOwner(eng: Engine, db: Db, key: Value, family: string, short: string, tenant: string)
    requires Typed(db) && ViewsCover(db) && TextOrNull(key) && ValidIdent(family) && ValidIdent(short)
    requires Filter(IsMatch(eng, key, FeatureName(family, short), None), SliceOf(db, tenant).features) != []
    ensures (key, Text(tenant)) in Owners(db.features, family)
    ensures short in ViewColumns(db, family) && key.Text?
  {
    var kept := Filter(IsMatch(eng, key, FeatureName(family, short), None), SliceOf(db, tenant).features);
    FilterHas(IsMatch(eng, key, FeatureName(family, short), None), SliceOf(db, tenant).features);
    TenantRowsHave(db.features, tenant);
    var r := kept[0];
    assert r in kept && r in db.features && TypedFeature(r);
    assert OfTenant(tenant)(r) && Matches(eng, key, FeatureName(family, short), None, r);
    assert Owner()(r) == (key, Text(tenant));
    assert FeatureName(family, short)[..|family| + 1] == family + ".";
    OwnersAre(db.features, family);
  }

  /** Only the tenant's own row for the key can fit. */
  lemma OnlyOwnRow(eng: Engine, db: Db, key: Value, family: string, short: string, tenant: string, sym: Symbol,
                   value: Value)
    requires Typed(db) && TextOrNull(key)
    ensures SomeWideRow(eng, db, family, short, sym, key, tenant, value)
            <==> key.Text? && (key, Text(tenant)) in Owners(db.features, family)
                 && Compare3(eng, sym, Cell(PivotRow(db.features, family, ViewColumns(db, family), (key, Text(tenant))),
                   short), value) == True
  {
    OwnersTyped(db, family);
    hide Owners, PivotRow, Compare3;
    assert forall o :: o in Owners(db.features, family) && SameKey(eng, o.0, key) ==> o.0 == key && key.Text?;
    if key.Text? {
      assert SameKey(eng, key, key);
    }
  }

  /** The wide view answers as the feature store does, because it covers every stored feature. */
  lemma WideCorrect(eng: Engine, db: Db, key: Value, family: string, short: string, tenant: string, op: Cmp,
                    value: real, sym: Symbol)
    requires Typed(db) && ViewsCover(db) && TextOrNull(key) && FeatureSymbol(op) == Ok(sym)
    requires ValidIdent(family) && ValidIdent(short) && short !in {"user_id", "tenant_id"}
    ensures SomeWideRow(eng, db, family, short, sym, key, tenant, Double(value))
            <==> FeatureHolds(eng, SliceOf(db, tenant), key, FeatureName(family, short), op, value, None)
  {
    FeatureHoldsIff(eng, SliceOf(db, tenant), key, FeatureName(family, short), op, value, None, sym);
    OnlyOwnRow(eng, db, key, family, short, tenant, sym, Double(value));
    if Filter(IsMatch(eng, key, FeatureName(family, short), None), SliceOf(db, tenant).features) != [] {
      MatchedOwner(eng, db, key, family, short, tenant);
    }
    if short in ViewColumns(db, family) && key.Text? {
      PivotCell(eng, db, family, short, key, tenant);
    }
    hide ViewsCover, Owners, SliceOf, FeatureHolds, SomeWideRow, IsMatch, Filter, Typed;
  }

  lemma FeatureCorrect(eng: Engine, db: Db, scope: Scope, q: SegmentQuery, name: string, op: Cmp, value: real,
                       tenant: string, f: Frag)
    requires Typed(db) && ViewsCover(db) && Base in scope && TextOrNull(Cell(scope[Base], q.key))
    requires FeatureFrag(name, op, value, q.key, tenant, q.asOf) == Ok(f)
    requires q.asOf.None? ==> SplitFeatureName(name).value.1 !in {"user_id", "tenant_id"}
    ensures |f.params| == Holes(f.cond)
    ensures EvalCond(eng, db, scope, f.cond, f.params) == True
            <==> FeatureHolds(eng, SliceOf(db, tenant), Cell(scope[Base], q.key), name, op, value, Bound(eng, q.asOf))
  {
    var (family, short) := SplitFeatureName(name).value;
    var sym := FeatureSymbol(op).value;
    if q.asOf.Some? {
      PointInTimeCorrect(eng, db, scope, q.key, tenant, name, q.asOf.value, op, value, sym);
      hide EvalCond, PointInTimeCond, FeatureHolds, SliceOf;
    } else {
      WideExists(eng, db, scope, q.key, family, short, sym, tenant, Double(value));
      WideCorrect(eng, db, Cell(scope[Base], q.key), family, short, tenant, op, value, sym);
      hide EvalCond, WideWhere, FeatureHolds, SomeWideRow, SliceOf;
    }
  }

  // ----- one op -----

  /** The op reads no wide-view feature that is called like one of the view's own columns. */
  ghost predicate NoShadowOp(q: SegmentQuery, op: Op) {
    q.asOf.None? && op.Feature? && SplitFeatureName(op.name).Some? ==>
      SplitFeatureName(op.name).value.1 !in {"user_id", "tenant_id"}
  }

  ghost predicate Context(eng: Engine, db: Db, opts: Options) {
    Typed(db) && ViewsCover(db) && opts.rules.Valid()
  }

  lemma LapsedCorrect(eng: Engine, db: Db, scope: Scope, m: EventMatch, baseKey: string, tenant: string, f: Frag)
    requires Typed(db) && Base in scope && LapsedFrag(m, baseKey, tenant) == Ok(f)
    ensures |f.params| == Holes(f.cond)
    ensures EvalCond(eng, db, scope, f.cond, f.params) == True
            <==> SomeEarlier(eng, SliceOf(db, tenant), m, Cell(scope[Base], baseKey))
                 && !SomeRecent(eng, SliceOf(db, tenant), m, Cell(scope[Base], baseKey))
  {
    var before := EventFrag(m, baseKey, SymLt, tenant).value;
    var recent := EventFrag(m, baseKey, SymGe, tenant).value;
    EventExistsCorrect(eng, db, scope, m, baseKey, SymLt, tenant, false, before);
    EventExistsCorrect(eng, db, scope, m, baseKey, SymGe, tenant, true, recent);
    AndTrue(eng, db, scope, Exists(false, Raw(m.event), E, before.cond, NoGroup),
            Exists(true, Raw(m.event), E, recent.cond, NoGroup),
            before.params, recent.params);
    hide EvalCond, SomeEarlier, SomeRecent, SliceOf, EventFrag;
  }

  lemma NarrowCorrect(eng: Engine, db: Db, q: SegmentQuery, op: Op, row: Row, opts: Options, f: Frag)
    requires Context(eng, db, opts) && IsNarrowing(op) && NoShadowOp(q, op) && TypedRaw(row)
    requires NarrowFrag(op, q, opts) == Ok(f)
    ensures |f.params| == Holes(f.cond)
    ensures EvalCond(eng, db, map[Base := row], f.cond, f.params) == True
            <==> Holds(eng, SliceOf(db, opts.tenant), opts.rules, q, op, row)
  {
    var scope: Scope := map[Base := row];
    assert TextOrNull(Cell(row, q.key)) by {
      assert q.key in row ==> TextOrNull(row[q.key]);
    }
    match op
    case FilterOp(p) =>
      PredicateCorrect(eng, db, scope, Base, p, f);
      hide EvalCond, PredicateHolds;
    case Recency(m) =>
      EventExistsCorrect(eng, db, scope, m, q.key, SymGe, opts.tenant, false,
                         EventFrag(m, q.key, SymGe, opts.tenant).value);
      hide EvalCond, EventFrag, SliceOf, SomeRecent;
    case Lapsed(m) =>
      LapsedCorrect(eng, db, scope, m, q.key, opts.tenant, f);
      hide EvalCond, LapsedFrag, SliceOf, SomeRecent, SomeEarlier;
    case Feature(name, cmp, value) =>
      FeatureCorrect(eng, db, scope, q, name, cmp, value, opts.tenant, f);
      hide EvalCond, FeatureFrag, SliceOf, FeatureHolds;
    case Exclude(campaignId) =>
      ExcludeCorrect(eng, db, scope, campaignId, q.key, opts);
      hide EvalCond, ExcludeFrag, SliceOf, NotSuppressed;
  }

  // ----- the loop -----

  /** What the vectors hold after `i` ops: a WHERE clause true of exactly the tenant's rows the first `i` ops hold
      of. */
  ghost predicate AccMeans(eng: Engine, db: Db, q: SegmentQuery, acc: Acc, i: nat, opts: Options)
    requires i <= |q.ops|
  {
    && acc.conjuncts != []
    && |acc.params| == Holes(Conj(acc.conjuncts))
    && forall r :: r in RawRows(db, q.source) ==>
         (EvalCond(eng, db, map[Base := r], Conj(acc.conjuncts), acc.params) == True
          <==> OfTenant(opts.tenant)(r) && HoldsUpTo(eng, SliceOf(db, opts.tenant), opts.rules, q, i, r))
  }

  lemma StartMeans(eng: Engine, db: Db, q: SegmentQuery, opts: Options)
    requires Typed(db)
    ensures AccMeans(eng, db, q, Start(q, opts.tenant), 0, opts)
  {
    var acc := Start(q, opts.tenant);
    assert Conj(acc.conjuncts) == TenantEq(Base);
    forall r | r in RawRows(db, q.source)
      ensures EvalCond(eng, db, map[Base := r], TenantEq(Base), acc.params) == True <==> OfTenant(opts.tenant)(r)
    {
      RawCellTyped(db, q.source, r, "tenant_id");
      TenantEqTrue(eng, db, map[Base := r], Base, opts.tenant);
    }
    hide EvalCond, OfTenant, Holds, SliceOf;
  }

  lemma HoldsUpToNext(eng: Engine, slice: Slice, rules: SuppressionRules, q: SegmentQuery, i: nat, row: Row)
    requires i < |q.ops|
    ensures HoldsUpTo(eng, slice, rules, q, i + 1, row)
            <==> HoldsUpTo(eng, slice, rules, q, i, row) && Holds(eng, slice, rules, q, q.ops[i], row)
  {
    hide Holds;
  }

  lemma ExtendMeans(eng: Engine, db: Db, q: SegmentQuery, acc: Acc, i: nat, opts: Options, f: Frag)
    requires i < |q.ops| && Context(eng, db, opts) && IsNarrowing(q.ops[i]) && NoShadowOp(q, q.ops[i])
    requires NarrowFrag(q.ops[i], q, opts) == Ok(f) && AccMeans(eng, db, q, acc, i, opts)
    ensures AccMeans(eng, db, q, Extend(acc, q.ops[i], f), i + 1, opts)
  {
    NarrowCorrect(eng, db, q, q.ops[i], map[], opts, f);
    ConjSnoc(eng, db, map[Base := map[]], acc.conjuncts, f.cond, acc.params, f.params);
    forall r | r in RawRows(db, q.source)
      ensures EvalCond(eng, db, map[Base := r], Conj(acc.conjuncts + [f.cond]), acc.params + f.params) == True
              <==> OfTenant(opts.tenant)(r) && HoldsUpTo(eng, SliceOf(db, opts.tenant), opts.rules, q, i + 1, r)
    {
      RawRowTyped(db, q.source, r);
      hide Context, NarrowFrag, EvalCond, Conj, Holds, HoldsUpTo, SliceOf, OfTenant, NoShadowOp, Holes, TypedRaw;
      NarrowCorrect(eng, db, q, q.ops[i], r, opts, f);
      ConjSnoc(eng, db, map[Base := r], acc.conjuncts, f.cond, acc.params, f.params);
      HoldsUpToNext(eng, SliceOf(db, opts.tenant), opts.rules, q, i, r);
    }
    hide EvalCond, Conj, Holds, HoldsUpTo, SliceOf, OfTenant, NarrowFrag, Holes;
  }

  lemma RawRowTyped(db: Db, d: Dataset, r: Row)
    requires Typed(db) && r in RawRows(db, d)
    ensures TypedRaw(r)
  {
    assert d in db.raw && r in db.raw[d];
  }

  // ----- queries -----

  lemma SelectKeysAre(eng: Engine, db: Db, table: Table, key: string, where: Cond, ps: seq<Value>)
    requires |ps| == Holes(where)
    ensures var keys := EvalQuery(eng, db, SelectKeys(table, key, where, None), ps);
            && NoDup(keys)
            && Elements(keys) == set r | r in Relation(db, table)
              && EvalCond(eng, db, map[Base := r], where, ps) == True :: Cell(r, key)
  {
    var kept := Filter(Satisfies(eng, db, map[], Base, where, ps), Relation(db, table));
    forall r
      ensures Satisfies(eng, db, map[], Base, where, ps)(r) <==> EvalCond(eng, db, map[Base := r], where, ps) == True
    {
      assert map[][Base := r] == map[Base := r];
    }
    FilterHas(Satisfies(eng, db, map[], Base, where, ps), Relation(db, table));
    MapHas(Project(key), kept);
    DistinctIs(Map(Project(key), kept));
    hide EvalCond, Relation, Filter, Map, Distinct, Satisfies;
  }

  lemma SelectedKeys(eng: Engine, db: Db, q: SegmentQuery, acc: Acc, i: nat, opts: Options)
    requires i <= |q.ops| && AccMeans(eng, db, q, acc, i, opts)
    ensures var keys := EvalQuery(eng, db, BaseSelect(q, acc.conjuncts), acc.params);
            NoDup(keys) && Elements(keys) == KeysUpTo(eng, SliceOf(db, opts.tenant), opts.rules, q, i)
  {
    SelectKeysAre(eng, db, Raw(q.source), q.key, Conj(acc.conjuncts), acc.params);
    SliceRowsAre(db, opts.tenant, q.source);
    TenantRowsHave(RawRows(db, q.source), opts.tenant);
    hide EvalQuery, EvalCond, Conj, HoldsUpTo, SliceOf, SliceRows, Holes;
  }

  lemma CombineIs(eng: Engine, db: Db, kind: SetOpKind, l: Query, r: Query, pl: seq<Value>, pr: seq<Value>)
    requires |pl| == QueryHoles(l) && |pr| == QueryHoles(r)
    ensures var keys := EvalQuery(eng, db, Combine(kind, l, r), pl + pr);
            && NoDup(keys)
            && Elements(keys) == CombineSets(kind, Elements(EvalQuery(eng, db, l, pl)),
              Elements(EvalQuery(eng, db, r, pr)))
  {
    assert (pl + pr)[..|pl|] == pl && (pl + pr)[|pl|..] == pr;
    var a, b := EvalQuery(eng, db, l, pl), EvalQuery(eng, db, r, pr);
    assert kind.Intersect? ==> EvalQuery(eng, db, Combine(kind, l, r), pl + pr) == Distinct(Filter(InSeq(b), a));
    assert kind.Union? ==> EvalQuery(eng, db, Combine(kind, l, r), pl + pr) == Distinct(a + b);
    assert kind.Minus? ==> EvalQuery(eng, db, Combine(kind, l, r), pl + pr) == Distinct(Filter(NotInSeq(b), a));
    hide EvalQuery, Distinct, Filter;
    FilterHas(InSeq(b), a);
    FilterHas(NotInSeq(b), a);
    DistinctIs(Filter(InSeq(b), a));
    DistinctIs(a + b);
    DistinctIs(Filter(NotInSeq(b), a));
    match kind
    case Intersect =>
    case Union =>
    case Minus =>
  }

  // ----- the main theorem -----

  /** Bound left to right, the compiled query returns each denoted key once and nothing else. */
  ghost predicate Correct(eng: Engine, db: Db, q: SegmentQuery, opts: Options, c: Compiled) {
    && c.sql.Keys?
    && |c.params| == StatementHoles(c.sql)
    && NoDup(EvalQuery(eng, db, c.sql.query, c.params))
    && Elements(EvalQuery(eng, db, c.sql.query, c.params)) == Denote(eng, SliceOf(db, opts.tenant), opts.rules, q)
  }

  lemma BaseOnlyCorrect(eng: Engine, db: Db, q: SegmentQuery, acc: Acc, opts: Options)
    requires AccMeans(eng, db, q, acc, |q.ops|, opts)
    requires forall j :: 0 <= j < |q.ops| ==> !q.ops[j].SetOp?
    ensures Correct(eng, db, q, opts, Compiled(Keys(BaseSelect(q, acc.conjuncts)), acc.params, acc.sources))
  {
    SelectedKeys(eng, db, q, acc, |q.ops|, opts);
    hide EvalQuery, EvalCond, Conj, KeysUpTo, SliceOf;
  }

  lemma SetOpKeepsKeys(eng: Engine, slice: Slice, rules: SuppressionRules, q: SegmentQuery, n: nat)
    requires n < |q.ops| && q.ops[n].SetOp?
    ensures KeysUpTo(eng, slice, rules, q, n) == KeysUpTo(eng, slice, rules, q, n + 1)
  {
    forall r
      ensures HoldsUpTo(eng, slice, rules, q, n, r) <==> HoldsUpTo(eng, slice, rules, q, n + 1, r)
    {
      HoldsUpToNext(eng, slice, rules, q, n, r);
    }
    hide HoldsUpTo;
  }

  lemma SetOpCorrect(eng: Engine, db: Db, q: SegmentQuery, acc: Acc, opts: Options, c: Compiled)
    requires q.ops != [] && q.ops[|q.ops| - 1].SetOp?
    requires AccMeans(eng, db, q, acc, |q.ops| - 1, opts)
    requires Correct(eng, db, q.ops[|q.ops| - 1].other, opts, c)
    ensures Correct(eng, db, q, opts, Compiled(Combined(q.ops[|q.ops| - 1].kind, BaseSelect(q, acc.conjuncts), c.sql),
                                               acc.params + c.params, acc.sources + c.sources))
  {
    var n := |q.ops| - 1;
    var slice := SliceOf(db, opts.tenant);
    SelectedKeys(eng, db, q, acc, n, opts);
    hide EvalCond, Conj, AccMeans;
    CombineIs(eng, db, q.ops[n].kind, BaseSelect(q, acc.conjuncts), c.sql.query, acc.params, c.params);
    SetOpKeepsKeys(eng, slice, opts.rules, q, n);
    hide EvalQuery, EvalCond, Conj, KeysUpTo, SliceOf, CombineSets, AccMeans;
  }

  lemma CompileFromCorrect(eng: Engine, db: Db, q: SegmentQuery, i: nat, acc: Acc, depth: nat, opts: Options,
                           c: Compiled)
    requires i <= |q.ops| && Context(eng, db, opts) && NoShadow(q) && opts.deriveLimit.None?
    requires AccMeans(eng, db, q, acc, i, opts) && CompileFrom(q, i, acc, depth, opts) == Ok(c)
    requires forall j :: 0 <= j < i ==> !q.ops[j].SetOp?
    ensures Correct(eng, db, q, opts, c)
    decreases q, |q.ops| - i
  {
    hide Context, AccMeans, Correct, NarrowFrag, Conj, EvalCond;
    if i == |q.ops| {
      BaseOnlyCorrect(eng, db, q, acc, opts);
    } else if q.ops[i].SetOp? {
      var inner := CompileSpec(q.ops[i].other, depth + 1, opts).value;
      CompileCorrect(eng, db, q.ops[i].other, depth + 1, opts, inner);
      SetOpCorrect(eng, db, q, acc, opts, inner);
    } else {
      var f := NarrowFrag(q.ops[i], q, opts).value;
      ExtendMeans(eng, db, q, acc, i, opts, f);
      CompileFromCorrect(eng, db, q, i + 1, Extend(acc, q.ops[i], f), depth, opts, c);
    }
  }

  /** Compilation preserves meaning: for every segment that compiles, over every catalogue, tenant, rules and clock. */
  lemma CompileCorrect(eng: Engine, db: Db, q: SegmentQuery, depth: nat, opts: Options, c: Compiled)
    requires Context(eng, db, opts) && NoShadow(q) && opts.deriveLimit.None?
    requires CompileSpec(q, depth, opts) == Ok(c)
    ensures Correct(eng, db, q, opts, c)
    decreases q, |q.ops| + 1
  {
    StartMeans(eng, db, q, opts);
    hide AccMeans, Correct, NoShadow;
    CompileFromCorrect(eng, db, q, 0, Start(q, opts.tenant), depth, opts, c);
  }
}
