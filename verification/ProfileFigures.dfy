/** What the three profile queries compute from the marked events, and the figures they stand for. */
module ProfileFigures {
  import opened Sequences
  import opened Values
  import opened Ast
  import opened Sql
  import opened Compiler
  import opened Denotation
  import opened CompilerProof
  import opened Derive
  import opened Profile

  // ----- SQL's aggregates -----

  /** CAST(... AS DOUBLE) */
  function AmountOf(eng: Engine, v: Value): Option<real> {
    match v
    case Text(s) => Some(eng.parseDouble(s))
    case Double(d) => Some(d)
    case _ => None
  }

  /** SUM: NULL when there is nothing to add. */
  function Summed(xs: seq<Option<real>>): Option<real> {
    if xs == [] then None
    else
      var rest := Summed(xs[1..]);
      if xs[0].None? then rest else if rest.None? then xs[0] else Some(xs[0].value + rest.value)
  }

  function IsPresent(): Option<real> -> bool {
    (x: Option<real>) => x.Some?
  }

  /** ... * 1.0 / NULLIF(n, 0) */
  function Over(total: Option<real>, n: nat): Option<real> {
    if total.None? || n == 0 then None else Some(total.value / n as real)
  }

  /** AVG */
  function Average(xs: seq<Option<real>>): Option<real> {
    Over(Summed(xs), |Filter(IsPresent(), xs)|)
  }

  function Present(): Value -> bool {
    (v: Value) => !v.Null?
  }

  /** COUNT(DISTINCT ...) */
  function CountDistinct(vs: seq<Value>): nat {
    |Distinct(Filter(Present(), vs))|
  }

  /** MAX over timestamps. */
  function Latest(vs: seq<Value>): Option<int> {
    if vs == [] then None
    else
      var rest := Latest(vs[1..]);
      if !vs[0].Ts? || (rest.Some? && rest.value >= vs[0].t) then rest else Some(vs[0].t)
  }

  datatype Metrics = Metrics(
    segUsers: nat, baseUsers: nat,
    segAov: Option<real>, baseAov: Option<real>,
    segFreq: Option<real>, baseFreq: Option<real>,
    segOrders: nat, baseOrders: nat)

  // ----- over the marked events, as the queries say -----

  function Inside(): Ev -> bool {
    (e: Ev) => e.inSegment
  }

  function UserOf(): Ev -> Value {
    (e: Ev) => e.user
  }

  function First(): Ev -> Value {
    (e: Ev) => if e.cells == [] then Null else e.cells[0]
  }

  function Amount(eng: Engine): Ev -> Option<real> {
    (e: Ev) => AmountOf(eng, First()(e))
  }

  function MetricsOf(eng: Engine, size: nat, ev: seq<Ev>): Metrics {
    var seg := Filter(Inside(), ev);
    Metrics(
      size, CountDistinct(Map(UserOf(), ev)),
      Over(Summed(Map(Amount(eng), seg)), |seg|), Over(Summed(Map(Amount(eng), ev)), |ev|),
      Over(Some(|seg| as real), CountDistinct(Map(UserOf(), seg))),
           Over(Some(|ev| as real), CountDistinct(Map(UserOf(), ev))),
      |seg|, |ev|)
  }

  function IsUser(u: Value): Ev -> bool {
    (e: Ev) => e.user == u
  }

  function Stamp(eng: Engine): Ev -> Value {
    (e: Ev) => CastTs(eng, First()(e))
  }

  function Age(eng: Engine, last: Option<int>): Option<real> {
    if last.None? then None else Some((eng.now - last.value) as real / SECONDS_PER_DAY as real)
  }

  /** per_user: one group for each user, NULL included, with bool_or(in_seg) and max(ts). */
  function UserInside(ev: seq<Ev>): Value -> bool {
    (u: Value) => Filter(Inside(), Filter(IsUser(u), ev)) != []
  }

  function UserAge(eng: Engine, ev: seq<Ev>): Value -> Option<real> {
    (u: Value) => Age(eng, Latest(Map(Stamp(eng), Filter(IsUser(u), ev))))
  }

  function RecencyOf(eng: Engine, ev: seq<Ev>): (Option<real>, Option<real>) {
    var users := Distinct(Map(UserOf(), ev));
    (Average(Map(UserAge(eng, ev), Filter(UserInside(ev), users))), Average(Map(UserAge(eng, ev), users)))
  }

  function IsCategory(c: Value): Ev -> bool {
    (e: Ev) => First()(e) == c
  }

  /** One group of the category query: how many of its events are inside, and how many there are. */
  function CategoryOf(ev: seq<Ev>, c: Value): (nat, nat) {
    (|Filter(Inside(), Filter(IsCategory(c), ev))|, |Filter(IsCategory(c), ev)|)
  }

  function SegmentCount(ev: seq<Ev>): Value -> nat {
    (c: Value) => CategoryOf(ev, c).0
  }

  const TOP: nat := 3

  /** ORDER BY ... DESC LIMIT 3: that many groups by falling count, and none left out that has more than one kept. Among
      groups with equal counts the engine chooses. */
  ghost predicate IsTop(kept: seq<Value>, groups: set<Value>, count: Value -> nat) {
    && NoDup(kept) && Elements(kept) <= groups && |kept| == (if |groups| < TOP then |groups| else TOP)
    && (forall i, j :: 0 <= i < j < |kept| ==> count(kept[i]) >= count(kept[j]))
    && (forall c, i :: c in groups && c !in kept && 0 <= i < |kept| ==> count(c) <= count(kept[i]))
  }

  // ----- over the tenant's events, as they are meant -----

  function RowCell(column: string): Row -> Value {
    (e: Row) => Cell(e, column)
  }

  /** How many of the events in a category are by the segment's members. */
  ghost function MemberCount(segment: set<Value>, events: seq<Row>, column: string): Value -> nat {
    (c: Value) => |Filter(ByUser(segment), Filter(ByRowCell(column, c), events))|
  }

  function RowUser(): Row -> Value {
    (e: Row) => Cell(e, "user_id")
  }

  function RowAmount(eng: Engine, column: string): Row -> Option<real> {
    (e: Row) => AmountOf(eng, Cell(e, column))
  }

  function RowStamp(eng: Engine, column: string): Row -> Value {
    (e: Row) => CastTs(eng, Cell(e, column))
  }

  function ByRowUser(u: Value): Row -> bool {
    (e: Row) => Cell(e, "user_id") == u
  }

  function ByRowCell(column: string, v: Value): Row -> bool {
    (e: Row) => Cell(e, column) == v
  }

  ghost function Member(segment: set<Value>): Value -> bool {
    (u: Value) => !u.Null? && u in segment
  }

  /** Users, average order value, orders per user and orders: of the events whose user is in the segment, and of all. */
  ghost function DenoteMetrics(eng: Engine, segment: set<Value>, events: seq<Row>, column: string): Metrics {
    var inside := Filter(ByUser(segment), events);
    Metrics(
      |segment|, CountDistinct(Map(RowUser(), events)),
      Over(Summed(Map(RowAmount(eng, column), inside)), |inside|),
           Over(Summed(Map(RowAmount(eng, column), events)), |events|),
      Over(Some(|inside| as real), CountDistinct(Map(RowUser(), inside))),
           Over(Some(|events| as real), CountDistinct(Map(RowUser(), events))),
      |inside|, |events|)
  }

  ghost function RowAge(eng: Engine, events: seq<Row>, column: string): Value -> Option<real> {
    (u: Value) => Age(eng, Latest(Map(RowStamp(eng, column), Filter(ByRowUser(u), events))))
  }

  /** The average age in days of each user's last event: of the users with events who are in the segment, and of all. */
  ghost function DenoteRecency(eng: Engine, segment: set<Value>, events: seq<Row>,
                               column: string): (Option<real>, Option<real>) {
    var users := Distinct(Map(RowUser(), events));
    (Average(Map(RowAge(eng, events, column), Filter(Member(segment), users))),
      Average(Map(RowAge(eng, events, column), users)))
  }

  // ----- they agree -----

  lemma MarkedIs(columns: seq<string>, segment: set<Value>, e: Row)
    requires |columns| == 1
    ensures var v := Marked(columns, segment)(e);
            v.user == Cell(e, "user_id") && First()(v) == Cell(e, columns[0]) && v.inSegment == ByUser(segment)(e)
  {
    var v := Marked(columns, segment)(e);
    assert v == EvRow(columns, ByUser(segment)(e), e);
    assert |v.cells| == 1 && v.cells[0] == Cell(e, columns[0]);
  }

  lemma MarkedSelected(columns: seq<string>, segment: set<Value>, events: seq<Row>)
    requires |columns| == 1
    ensures Filter(Inside(), Map(Marked(columns, segment), events))
            == Map(Marked(columns, segment), Filter(ByUser(segment), events))
  {
    forall e | e in events
      ensures ByUser(segment)(e) == Inside()(Marked(columns, segment)(e))
    {
      MarkedIs(columns, segment, e);
    }
    FilterMap(Inside(), Marked(columns, segment), ByUser(segment), events);
  }

  lemma MarkedRead(eng: Engine, column: string, segment: set<Value>, events: seq<Row>)
    ensures Map(UserOf(), Map(Marked([column], segment), events)) == Map(RowUser(), events)
    ensures Map(Amount(eng), Map(Marked([column], segment), events)) == Map(RowAmount(eng, column), events)
    ensures Map(Stamp(eng), Map(Marked([column], segment), events)) == Map(RowStamp(eng, column), events)
  {
    forall e | e in events
      ensures UserOf()(Marked([column], segment)(e)) == RowUser()(e)
      ensures Amount(eng)(Marked([column], segment)(e)) == RowAmount(eng, column)(e)
      ensures Stamp(eng)(Marked([column], segment)(e)) == RowStamp(eng, column)(e)
    {
      MarkedIs([column], segment, e);
    }
    MapMap(UserOf(), Marked([column], segment), RowUser(), events);
    MapMap(Amount(eng), Marked([column], segment), RowAmount(eng, column), events);
    MapMap(Stamp(eng), Marked([column], segment), RowStamp(eng, column), events);
  }

  /** The metrics query's figures are those of the tenant's events. */
  lemma MetricsAgree(eng: Engine, column: string, segment: set<Value>, events: seq<Row>)
    ensures MetricsOf(eng, |segment|, Map(Marked([column], segment), events))
            == DenoteMetrics(eng, segment, events, column)
  {
    MarkedSelected([column], segment, events);
    MarkedRead(eng, column, segment, events);
    MarkedRead(eng, column, segment, Filter(ByUser(segment), events));
    hide Map, Filter, Summed, CountDistinct, Over, Marked, UserOf, Amount, RowUser, RowAmount, Inside, ByUser;
  }

  lemma MarkedOfUser(column: string, segment: set<Value>, events: seq<Row>, u: Value)
    ensures Filter(IsUser(u), Map(Marked([column], segment), events))
            == Map(Marked([column], segment), Filter(ByRowUser(u), events))
  {
    forall e | e in events
      ensures ByRowUser(u)(e) == IsUser(u)(Marked([column], segment)(e))
    {
      MarkedIs([column], segment, e);
    }
    FilterMap(IsUser(u), Marked([column], segment), ByRowUser(u), events);
  }

  /** Whether a user's events are inside is whether the user is. */
  lemma UserInsideIs(column: string, segment: set<Value>, events: seq<Row>, u: Value)
    requires u in Map(RowUser(), events)
    ensures UserInside(Map(Marked([column], segment), events))(u) == Member(segment)(u)
  {
    var own := Filter(ByRowUser(u), events);
    MarkedOfUser(column, segment, events, u);
    MarkedSelected([column], segment, own);
    FilterHas(ByRowUser(u), events);
    FilterHas(ByUser(segment), own);
    MapHas(RowUser(), events);
    var e :| e in events && RowUser()(e) == u;
    assert e in own;
    NonEmptyHasMember(Filter(ByUser(segment), own));
    hide Map, Filter;
    assert forall x :: x in own ==> ByUser(segment)(x) == Member(segment)(u);
  }

  /** The recency query's figures are those of the tenant's events: no user's last event is counted twice. */
  lemma RecencyAgrees(eng: Engine, column: string, segment: set<Value>, events: seq<Row>)
    ensures RecencyOf(eng, Map(Marked([column], segment), events)) == DenoteRecency(eng, segment, events, column)
  {
    var ev := Map(Marked([column], segment), events);
    var users := Distinct(Map(RowUser(), events));
    MarkedRead(eng, column, segment, events);
    DistinctIs(Map(RowUser(), events));
    forall u | u in users
      ensures UserInside(ev)(u) == Member(segment)(u) && UserAge(eng, ev)(u) == RowAge(eng, events, column)(u)
    {
      UserInsideIs(column, segment, events, u);
      MarkedOfUser(column, segment, events, u);
      MarkedRead(eng, column, segment, Filter(ByRowUser(u), events));
      hide Map, Filter, Distinct, UserInside, Member;
    }
    FilterCong(UserInside(ev), Member(segment), users);
    FilterHas(Member(segment), users);
    MapCong(UserAge(eng, ev), RowAge(eng, events, column), users);
    MapCong(UserAge(eng, ev), RowAge(eng, events, column), Filter(Member(segment), users));
    hide Map, Filter, Distinct, UserInside, Member, UserAge, RowAge, Average;
  }

  /** A group of the category query counts the tenant's events of that category, inside and in all. */
  lemma CategoriesAgree(column: string, segment: set<Value>, events: seq<Row>, c: Value)
    ensures var own := Filter(ByRowCell(column, c), events);
            CategoryOf(Map(Marked([column], segment), events), c) == (|Filter(ByUser(segment), own)|, |own|)
  {
    var own := Filter(ByRowCell(column, c), events);
    forall e | e in events
      ensures ByRowCell(column, c)(e) == IsCategory(c)(Marked([column], segment)(e))
    {
      MarkedIs([column], segment, e);
    }
    FilterMap(IsCategory(c), Marked([column], segment), ByRowCell(column, c), events);
    MarkedSelected([column], segment, own);
    hide Map, Filter, Marked, IsCategory, ByRowCell, ByUser, Inside;
  }

  lemma Ahead(b: seq<Value>, groups: set<Value>, count: Value -> nat, i: nat, c: Value)
    requires IsTop(b, groups, count) && i < |b| && c in groups && count(c) > count(b[i])
    ensures c in b[..i]
  {
    var m :| 0 <= m < |b| && b[m] == c;
    assert m < i;
    assert b[..i][m] == c;
  }

  lemma Leaders(a: seq<Value>, groups: set<Value>, count: Value -> nat, i: nat)
    requires IsTop(a, groups, count) && i < |a|
    ensures |Elements(a[..i + 1])| == i + 1
    ensures forall c :: c in a[..i + 1] ==> c in groups && count(c) >= count(a[i])
  {
    var first := a[..i + 1];
    assert NoDup(first);
    NoDupSize(first);
    forall c | c in first
      ensures c in groups && count(c) >= count(a[i])
    {
      var k :| 0 <= k < |first| && first[k] == c;
      assert a[k] == c && c in a && c in Elements(a);
    }
  }

  /** Whoever has more than the other list's `i`-th is among that list's first `i`, which are too few. */
  lemma AheadOf(a: seq<Value>, b: seq<Value>, groups: set<Value>, count: Value -> nat, i: nat)
    requires IsTop(a, groups, count) && IsTop(b, groups, count) && i < |a|
    ensures count(a[i]) <= count(b[i])
  {
    if count(a[i]) > count(b[i]) {
      Leaders(a, groups, count, i);
      assert NoDup(b[..i]);
      NoDupSize(b[..i]);
      forall c | c in Elements(a[..i + 1])
        ensures c in Elements(b[..i])
      {
        Ahead(b, groups, count, i, c);
      }
      hide IsTop;
      SubsetSize(Elements(a[..i + 1]), Elements(b[..i]));
    }
  }

  lemma SubsetSize<T>(a: set<T>, b: set<T>)
    requires a <= b
    ensures |a| <= |b|
  {
    assert b == a + (b - a);
  }

  /** The choice among ties does not show in the counts. */
  lemma TopCounts(a: seq<Value>, b: seq<Value>, groups: set<Value>, count: Value -> nat)
    requires IsTop(a, groups, count) && IsTop(b, groups, count)
    ensures |a| == |b| && forall i :: 0 <= i < |a| ==> count(a[i]) == count(b[i])
  {
    forall i | 0 <= i < |a|
      ensures count(a[i]) == count(b[i])
    {
      AheadOf(a, b, groups, count, i);
      AheadOf(b, a, groups, count, i);
    }
  }

  lemma MarkedCells(column: string, segment: set<Value>, events: seq<Row>)
    ensures Map(First(), Map(Marked([column], segment), events)) == Map(RowCell(column), events)
  {
    forall e | e in events
      ensures First()(Marked([column], segment)(e)) == RowCell(column)(e)
    {
      MarkedIs([column], segment, e);
    }
    MapMap(First(), Marked([column], segment), RowCell(column), events);
  }

  lemma TopCong(kept: seq<Value>, groups: set<Value>, f: Value -> nat, g: Value -> nat)
    requires forall c :: f(c) == g(c)
    ensures IsTop(kept, groups, f) <==> IsTop(kept, groups, g)
  {
  }

  /** The categories the query keeps are the segment's top categories. */
  lemma TopAgrees(column: string, segment: set<Value>, events: seq<Row>, kept: seq<Value>)
    ensures var ev := Map(Marked([column], segment), events);
            IsTop(kept, Elements(Map(First(), ev)), SegmentCount(ev))
            <==> IsTop(kept, Elements(Map(RowCell(column), events)), MemberCount(segment, events, column))
  {
    MarkedCells(column, segment, events);
    forall c
      ensures SegmentCount(Map(Marked([column], segment), events))(c) == MemberCount(segment, events, column)(c)
    {
      CategoriesAgree(column, segment, events, c);
    }
    hide *;
    TopCong(kept, Elements(Map(RowCell(column), events)), SegmentCount(Map(Marked([column], segment), events)),
            MemberCount(segment, events, column));
  }

  /** The profile of a segment keyed by `user_id`: the figures of the tenant's own events, those of the segment's
      members against all. */
  lemma ProfileFiguresCorrect(eng: Engine, db: Db, q: SegmentQuery, opts: Options, ps: ProfileQueries, c: Value,
                              kept: seq<Value>)
    requires Context(eng, db, opts) && NoShadow(q) && opts.deriveLimit.None? && q.key == "user_id"
    requires CompileCharacterize(q, opts) == Ok(ps)
    ensures |ps.metrics.params| == ProfileHoles(ps.metrics) && EvalProfile(eng, db, ps.metrics).Some?
    ensures |ps.recency.params| == ProfileHoles(ps.recency) && EvalProfile(eng, db, ps.recency).Some?
    ensures |ps.categories.params| == ProfileHoles(ps.categories) && EvalProfile(eng, db, ps.categories).Some?
    ensures var op, slice := q.ops[|q.ops| - 1], SliceOf(db, opts.tenant);
            var segment, events := Denote(eng, slice, opts.rules, StripLast(q)), SliceRows(slice, op.event);
            var own := Filter(ByRowCell(op.categoryColumn, c), events);
            var (size, m) := EvalProfile(eng, db, ps.metrics).value;
            && MetricsOf(eng, size, m) == DenoteMetrics(eng, segment, events, op.monetaryColumn)
            && RecencyOf(eng, EvalProfile(eng, db, ps.recency).value.1)
              == DenoteRecency(eng, segment, events, op.tsColumn)
            && CategoryOf(EvalProfile(eng, db, ps.categories).value.1, c) == (|Filter(ByUser(segment), own)|, |own|)
    ensures var op, slice := q.ops[|q.ops| - 1], SliceOf(db, opts.tenant);
            var segment, events := Denote(eng, slice, opts.rules, StripLast(q)), SliceRows(slice, op.event);
            var ev := EvalProfile(eng, db, ps.categories).value.1;
            IsTop(kept, Elements(Map(First(), ev)), SegmentCount(ev))
            <==> IsTop(kept, Elements(Map(RowCell(op.categoryColumn), events)),
              MemberCount(segment, events, op.categoryColumn))
  {
    var op, slice := q.ops[|q.ops| - 1], SliceOf(db, opts.tenant);
    var segment, events := Denote(eng, slice, opts.rules, StripLast(q)), SliceRows(slice, op.event);
    ProfileCorrect(eng, db, q, opts, ps);
    hide EvalProfile, Denote, CompileCharacterize, SliceOf, SliceRows, Context, NoShadow, Map, Filter, Marked,
         MetricsOf, RecencyOf, CategoryOf, IsTop,
         SegmentCount, MemberCount, DenoteMetrics, DenoteRecency, ProfileHoles, StripLast;
    MetricsAgree(eng, op.monetaryColumn, segment, events);
    RecencyAgrees(eng, op.tsColumn, segment, events);
    CategoriesAgree(op.categoryColumn, segment, events, c);
    TopAgrees(op.categoryColumn, segment, events, kept);
  }
}
