/** Keyed writes to a raw table: what a deduplicated, chunked MERGE does, against one row at a time. */
module Upsert {
  import opened Sequences
  import opened Values
  import opened Denotation

  // ----- one row at a time -----

  predicate HasKey(key: string, rows: seq<Row>, k: Value) {
    exists i :: 0 <= i < |rows| && Cell(rows[i], key) == k
  }

  /** MERGE's update: a target row with the source row's key takes over all of the source row's columns. */
  function Update(key: string, s: Row): Row -> Row {
    t => if Cell(t, key) == Cell(s, key) then t + s else t
  }

  /** Upserting one row: update whatever has its key, or else insert it. */
  function UpsertOne(key: string, table: seq<Row>, s: Row): seq<Row> {
    if HasKey(key, table, Cell(s, key)) then Map(Update(key, s), table) else table + [s]
  }

  function UpsertAll(key: string, table: seq<Row>, rows: seq<Row>): seq<Row> {
    if rows == [] then table
    else UpsertOne(key, UpsertAll(key, table, rows[..|rows| - 1]), rows[|rows| - 1])
  }

  // ----- one MERGE statement -----

  function Find(key: string, rows: seq<Row>, k: Value): Option<Row> {
    if rows == [] then None
    else if Cell(rows[0], key) == k then Some(rows[0])
    else Find(key, rows[1..], k)
  }

  function Found(key: string, source: seq<Row>): Row -> Row {
    t => var s := Find(key, source, Cell(t, key)); if s.Some? then t + s.value else t
  }

  function Unmatched(key: string, table: seq<Row>): Row -> bool {
    s => !HasKey(key, table, Cell(s, key))
  }

  /** MERGE INTO table USING source ON table.key = source.key WHEN MATCHED THEN UPDATE WHEN NOT MATCHED THEN INSERT,
      against the table as it was when the statement began. */
  function MergeInto(key: string, table: seq<Row>, source: seq<Row>): seq<Row> {
    Map(Found(key, source), table) + Filter(Unmatched(key, table), source)
  }

  /** A row as the writer sends it: the batch's columns, with the key present. */
  ghost predicate SourceRow(key: string, columns: set<string>, s: Row) {
    s.Keys == columns && key in columns && s[key].Text?
  }

  ghost predicate SourceRows(key: string, columns: set<string>, rows: seq<Row>) {
    forall i :: 0 <= i < |rows| ==> SourceRow(key, columns, rows[i])
  }

  /** No two rows share a key; rows without one do not count. */
  ghost predicate UniqueKeys(key: string, rows: seq<Row>) {
    forall i, j :: 0 <= i < j < |rows| && !Cell(rows[i], key).Null? ==> Cell(rows[i], key) != Cell(rows[j], key)
  }

  // ----- finding a row -----

  lemma {:induction false} FindIs(key: string, rows: seq<Row>, k: Value)
    ensures Find(key, rows, k).Some? <==> HasKey(key, rows, k)
    ensures Find(key, rows, k).Some? ==> Find(key, rows, k).value in rows && Cell(Find(key, rows, k).value, key) == k
  {
    if rows != [] && Cell(rows[0], key) != k {
      FindIs(key, rows[1..], k);
      forall i | 0 <= i < |rows| && Cell(rows[i], key) == k
        ensures HasKey(key, rows[1..], k)
      {
        assert rows[1..][i - 1] == rows[i];
      }
    }
  }

  lemma {:induction false} FindAppend(key: string, rows: seq<Row>, s: Row, k: Value)
    ensures Find(key, rows + [s], k)
            == if Find(key, rows, k).Some? then Find(key, rows, k) else if Cell(s, key) == k then Some(s) else None
  {
    if rows == [] {
      assert rows + [s] == [s];
    } else {
      assert (rows + [s])[1..] == rows[1..] + [s];
      FindAppend(key, rows[1..], s, k);
    }
  }

  lemma {:induction false} FindUpdated(key: string, rows: seq<Row>, s: Row, k: Value)
    requires key in s
    ensures Find(key, Map(Update(key, s), rows), k)
            == if Find(key, rows, k).None? then None else Some(Update(key, s)(Find(key, rows, k).value))
  {
    if rows != [] {
      FindUpdated(key, rows[1..], s, k);
      assert Map(Update(key, s), rows)[1..] == Map(Update(key, s), rows[1..]);
    }
  }

  /** What a look-up sees after an upsert. */
  lemma FindUpserted(key: string, table: seq<Row>, s: Row, k: Value)
    requires key in s
    ensures k != Cell(s, key) ==> Find(key, UpsertOne(key, table, s), k) == Find(key, table, k)
    ensures Find(key, UpsertOne(key, table, s), Cell(s, key))
            == Some(if Find(key, table, Cell(s, key)).Some? then Find(key, table, Cell(s, key)).value + s else s)
  {
    FindIs(key, table, Cell(s, key));
    FindIs(key, table, k);
    FindUpdated(key, table, s, k);
    FindUpdated(key, table, s, Cell(s, key));
    FindAppend(key, table, s, k);
    FindAppend(key, table, s, Cell(s, key));
    hide Find, HasKey;
  }

  lemma SameColumns(s: Row, t: Row)
    requires s.Keys == t.Keys
    ensures t + s == s
  {
  }

  /** On a table whose rows all have the batch's columns, an upserted row replaces the old one outright. */
  lemma FindReplaced(key: string, columns: set<string>, table: seq<Row>, s: Row)
    requires SourceRow(key, columns, s) && SourceRows(key, columns, table)
    ensures Find(key, UpsertOne(key, table, s), Cell(s, key)) == Some(s)
  {
    FindUpserted(key, table, s, Cell(s, key));
    FindIs(key, table, Cell(s, key));
    var was := Find(key, table, Cell(s, key));
    if was.Some? {
      var i :| 0 <= i < |table| && table[i] == was.value;
      SameColumns(s, was.value);
    }
  }

  // ----- one MERGE is one upsert after another -----

  lemma HasKeyMapped(key: string, rows: seq<Row>, f: Row -> Row, k: Value)
    requires forall t :: t in rows ==> Cell(f(t), key) == Cell(t, key)
    ensures HasKey(key, Map(f, rows), k) <==> HasKey(key, rows, k)
  {
    forall i | 0 <= i < |rows|
      ensures Cell(Map(f, rows)[i], key) == Cell(rows[i], key)
    {
      MapAt(f, rows, i);
    }
    hide Map;
  }

  lemma HasKeyAppend(key: string, a: seq<Row>, b: seq<Row>, k: Value)
    ensures HasKey(key, a + b, k) <==> HasKey(key, a, k) || HasKey(key, b, k)
  {
    if HasKey(key, a, k) {
      var i :| 0 <= i < |a| && Cell(a[i], key) == k;
      assert (a + b)[i] == a[i];
    }
    if HasKey(key, b, k) {
      var i :| 0 <= i < |b| && Cell(b[i], key) == k;
      assert (a + b)[|a| + i] == b[i];
    }
  }

  lemma FoundKeepsKey(key: string, source: seq<Row>, t: Row)
    requires forall s :: s in source ==> key in s
    ensures Cell(Found(key, source)(t), key) == Cell(t, key)
  {
    FindIs(key, source, Cell(t, key));
  }

  /** After a MERGE the table's keys are its old keys and the source's. */
  lemma MergedKeys(key: string, table: seq<Row>, source: seq<Row>, k: Value)
    requires forall s :: s in source ==> key in s
    ensures HasKey(key, MergeInto(key, table, source), k) <==> HasKey(key, table, k) || HasKey(key, source, k)
  {
    var added := Filter(Unmatched(key, table), source);
    forall t | t in table
      ensures Cell(Found(key, source)(t), key) == Cell(t, key)
    {
      FoundKeepsKey(key, source, t);
    }
    HasKeyMapped(key, table, Found(key, source), k);
    HasKeyAppend(key, Map(Found(key, source), table), added, k);
    FilterHas(Unmatched(key, table), source);
    FindIs(key, added, k);
    FindIs(key, source, k);
    if !HasKey(key, table, k) && HasKey(key, source, k) {
      var s := Find(key, source, k).value;
      assert s in added;
      var i :| 0 <= i < |added| && added[i] == s;
    }
    if HasKey(key, added, k) {
      var s := Find(key, added, k).value;
      var i :| 0 <= i < |source| && source[i] == s;
    }
  }

  /** The matched half of `MergeUpsert`: one target row. */
  lemma FoundUpserted(key: string, columns: set<string>, source: seq<Row>, s: Row, t: Row)
    requires SourceRow(key, columns, s) && SourceRows(key, columns, source)
    ensures Update(key, s)(Found(key, source)(t)) == Found(key, UpsertOne(key, source, s))(t)
  {
    var k := Cell(t, key);
    assert forall x :: x in source ==> key in x;
    FoundKeepsKey(key, source, t);
    FindUpserted(key, source, s, k);
    FindIs(key, source, k);
    var f := Find(key, source, k);
    if k == Cell(s, key) {
      FindReplaced(key, columns, source, s);
      if f.Some? {
        var i :| 0 <= i < |source| && source[i] == f.value;
      }
    }
  }

  /** The unmatched half of `MergeUpsert`. */
  lemma FreshUpserted(key: string, table: seq<Row>, source: seq<Row>, s: Row)
    requires key in s
    ensures HasKey(key, source, Cell(s, key)) ==>
              Map(Update(key, s), Filter(Unmatched(key, table), source))
                  == Filter(Unmatched(key, table), UpsertOne(key, source, s))
    ensures !HasKey(key, source, Cell(s, key)) ==>
              Filter(Unmatched(key, table), UpsertOne(key, source, s))
              == Filter(Unmatched(key, table), source) + (if HasKey(key, table, Cell(s, key)) then [] else [s])
  {
    var p := Unmatched(key, table);
    if HasKey(key, source, Cell(s, key)) {
      assert forall x :: x in source ==> p(x) == p(Update(key, s)(x));
      FilterMap(p, Update(key, s), p, source);
    } else {
      FilterAppend(p, source, [s]);
      FilterCons(p, [s]);
    }
  }

  lemma UpdateMisses(key: string, s: Row, rows: seq<Row>)
    requires !HasKey(key, rows, Cell(s, key))
    ensures Map(Update(key, s), rows) == rows
  {
    forall i | 0 <= i < |rows|
      ensures Map(Update(key, s), rows)[i] == rows[i]
    {
      MapAt(Update(key, s), rows, i);
      assert Cell(rows[i], key) != Cell(s, key);
    }
    hide Map;
  }

  /** Upserting one more row after a MERGE is merging a source with that row upserted into it. */
  lemma MergeUpsert(key: string, columns: set<string>, table: seq<Row>, source: seq<Row>, s: Row)
    requires SourceRow(key, columns, s) && SourceRows(key, columns, source)
    ensures UpsertOne(key, MergeInto(key, table, source), s) == MergeInto(key, table, UpsertOne(key, source, s))
  {
    var up, was, added := Update(key, s), Map(Found(key, source), table), Filter(Unmatched(key, table), source);
    var after := UpsertOne(key, source, s);
    forall t | t in table
      ensures up(Found(key, source)(t)) == Found(key, after)(t)
    {
      FoundUpserted(key, columns, source, s, t);
    }
    MapMap(up, Found(key, source), Found(key, after), table);
    FreshUpserted(key, table, source, s);
    assert forall x :: x in source ==> key in x;
    MergedKeys(key, table, source, Cell(s, key));
    MapAppend(up, was, added);
    FreshHasNone(key, table, source, Cell(s, key));
    var k := Cell(s, key);
    assert MergeInto(key, table, source) == was + added;
    if HasKey(key, source, k) {
      hide HasKey, Map, Filter;
      return;
    }
    UpdateMisses(key, s, added);
    if HasKey(key, table, k) {
      hide HasKey, Map, Filter;
      return;
    }
    UpdateMisses(key, s, was + added);
    HasKeyAppend(key, was, added, k);
    UpdateMisses(key, s, was);
    hide HasKey, Map, Filter;
    assert (was + added) + [s] == was + (added + [s]);
  }

  lemma FreshHasNone(key: string, table: seq<Row>, source: seq<Row>, k: Value)
    ensures !HasKey(key, source, k) ==> !HasKey(key, Filter(Unmatched(key, table), source), k)
  {
    var added := Filter(Unmatched(key, table), source);
    FilterHas(Unmatched(key, table), source);
    if HasKey(key, added, k) {
      var i :| 0 <= i < |added| && Cell(added[i], key) == k;
      assert added[i] in added;
      var j :| 0 <= j < |source| && source[j] == added[i];
    }
  }

  lemma UpsertKeepsSource(key: string, columns: set<string>, source: seq<Row>, s: Row)
    requires SourceRow(key, columns, s) && SourceRows(key, columns, source)
    ensures SourceRows(key, columns, UpsertOne(key, source, s))
  {
    if HasKey(key, source, Cell(s, key)) {
      forall i | 0 <= i < |source|
        ensures SourceRow(key, columns, Map(Update(key, s), source)[i])
      {
        MapAt(Update(key, s), source, i);
        hide Map;
        assert SourceRow(key, columns, source[i]);
        if Cell(source[i], key) == Cell(s, key) {
          SameColumns(s, source[i]);
        }
      }
    }
  }

  lemma {:induction false} UpsertAllKeepsSource(key: string, columns: set<string>, table: seq<Row>, rows: seq<Row>)
    requires SourceRows(key, columns, table) && SourceRows(key, columns, rows)
    ensures SourceRows(key, columns, UpsertAll(key, table, rows))
  {
    if rows != [] {
      var front := rows[..|rows| - 1];
      UpsertAllKeepsSource(key, columns, table, front);
      UpsertKeepsSource(key, columns, UpsertAll(key, table, front), rows[|rows| - 1]);
    }
  }

  lemma MergeNothing(key: string, table: seq<Row>)
    ensures MergeInto(key, table, []) == table
  {
    forall i | 0 <= i < |table|
      ensures Map(Found(key, []), table)[i] == table[i]
    {
      MapAt(Found(key, []), table, i);
    }
    hide Map;
  }

  /** Rows upserted in order leave the table that one MERGE of their deduplication leaves, where deduplicating is
      upserting into an empty table. */
  lemma {:induction false} UpsertsAreOneMerge(key: string, columns: set<string>, table: seq<Row>, rows: seq<Row>)
    requires SourceRows(key, columns, rows)
    ensures UpsertAll(key, table, rows) == MergeInto(key, table, UpsertAll(key, [], rows))
  {
    if rows == [] {
      MergeNothing(key, table);
      return;
    }
    var front, last := rows[..|rows| - 1], rows[|rows| - 1];
    UpsertsAreOneMerge(key, columns, table, front);
    UpsertAllKeepsSource(key, columns, [], front);
    hide MergeInto, UpsertOne;
    MergeUpsert(key, columns, table, UpsertAll(key, [], front), last);
  }

  lemma {:induction false} UpsertUnique(key: string, columns: set<string>, rows: seq<Row>)
    requires SourceRows(key, columns, rows) && UniqueKeys(key, rows)
    ensures UpsertAll(key, [], rows) == rows
  {
    if rows != [] {
      var front, last := rows[..|rows| - 1], rows[|rows| - 1];
      UpsertUnique(key, columns, front);
      forall i | 0 <= i < |front|
        ensures Cell(front[i], key) != Cell(last, key)
      {
        assert front[i] == rows[i] && SourceRow(key, columns, rows[i]);
      }
      assert !HasKey(key, front, Cell(last, key));
      assert front + [last] == rows;
    }
  }

  /** A MERGE whose source has no repeated key does what upserting its rows one by one does. */
  lemma MergeIsUpsertAll(key: string, columns: set<string>, table: seq<Row>, rows: seq<Row>)
    requires SourceRows(key, columns, rows) && UniqueKeys(key, rows)
    ensures MergeInto(key, table, rows) == UpsertAll(key, table, rows)
  {
    hide UpsertAll, MergeInto, SourceRows, UniqueKeys;
    UpsertsAreOneMerge(key, columns, table, rows);
    UpsertUnique(key, columns, rows);
  }

  lemma {:induction false} UpsertAllAppend(key: string, table: seq<Row>, a: seq<Row>, b: seq<Row>)
    ensures UpsertAll(key, table, a + b) == UpsertAll(key, UpsertAll(key, table, a), b)
  {
    if b == [] {
      assert a + b == a;
      return;
    }
    var front, last := b[..|b| - 1], b[|b| - 1];
    UpsertAllAppend(key, table, a, front);
    assert (a + b)[..|a + b| - 1] == a + front && (a + b)[|a + b| - 1] == last;
    hide UpsertOne;
  }

  // ----- how many rows a MERGE affects -----

  function Matched(key: string, source: seq<Row>): Row -> bool {
    t => HasKey(key, source, Cell(t, key))
  }

  /** The updated target rows and the inserted source rows. */
  function Affected(key: string, table: seq<Row>, source: seq<Row>): nat {
    |Filter(Matched(key, source), table)| + |Filter(Unmatched(key, table), source)|
  }

  function KeyOf(key: string): Row -> Value {
    r => Cell(r, key)
  }

  ghost predicate AllKeyed(key: string, rows: seq<Row>) {
    forall r :: r in rows ==> !Cell(r, key).Null?
  }

  lemma KeyList(key: string, rows: seq<Row>)
    requires UniqueKeys(key, rows) && AllKeyed(key, rows)
    ensures NoDup(Map(KeyOf(key), rows))
    ensures forall k :: k in Map(KeyOf(key), rows) <==> HasKey(key, rows, k)
  {
    forall i | 0 <= i < |rows|
      ensures Map(KeyOf(key), rows)[i] == Cell(rows[i], key)
    {
      MapAt(KeyOf(key), rows, i);
      assert rows[i] in rows;
    }
    hide Map;
    var keys := Map(KeyOf(key), rows);
    forall i, j | 0 <= i < j < |keys|
      ensures keys[i] != keys[j]
    {
      assert rows[i] in rows;
    }
    forall k
      ensures k in keys <==> HasKey(key, rows, k)
    {
      if i :| 0 <= i < |rows| && Cell(rows[i], key) == k {
        assert keys[i] == k;
      }
    }
  }

  lemma SameKeysSameSize(key: string, a: seq<Row>, b: seq<Row>)
    requires UniqueKeys(key, a) && AllKeyed(key, a) && UniqueKeys(key, b) && AllKeyed(key, b)
    requires forall k :: HasKey(key, a, k) <==> HasKey(key, b, k)
    ensures |a| == |b|
  {
    KeyList(key, a);
    KeyList(key, b);
    var ka, kb := Map(KeyOf(key), a), Map(KeyOf(key), b);
    hide UniqueKeys, AllKeyed, Map;
    assert Elements(ka) == Elements(kb);
    NoDupSize(ka);
    NoDupSize(kb);
  }

  lemma FilteredKeys(key: string, p: Row -> bool, rows: seq<Row>, k: Value)
    ensures HasKey(key, Filter(p, rows), k) <==> exists r :: r in rows && p(r) && Cell(r, key) == k
  {
    var kept := Filter(p, rows);
    FilterHas(p, rows);
    hide Filter;
    if i :| 0 <= i < |kept| && Cell(kept[i], key) == k {
      assert kept[i] in kept;
    }
    if r :| r in rows && p(r) && Cell(r, key) == k {
      assert r in kept;
      var i :| 0 <= i < |kept| && kept[i] == r;
    }
  }

  /** The rows that match on either side are as many. */
  lemma MatchedBothWays(key: string, table: seq<Row>, source: seq<Row>)
    requires UniqueKeys(key, table) && UniqueKeys(key, source) && AllKeyed(key, source)
    ensures |Filter(Matched(key, source), table)| == |Filter(Matched(key, table), source)|
  {
    var a, b := Filter(Matched(key, source), table), Filter(Matched(key, table), source);
    FilterKeepsUnique(key, Matched(key, source), table);
    FilterKeepsUnique(key, Matched(key, table), source);
    FilterHas(Matched(key, source), table);
    FilterHas(Matched(key, table), source);
    forall r | r in a
      ensures !Cell(r, key).Null?
    {
      var i :| 0 <= i < |source| && Cell(source[i], key) == Cell(r, key);
      assert source[i] in source;
    }
    forall k
      ensures HasKey(key, a, k) <==> HasKey(key, b, k)
    {
      FilteredKeys(key, Matched(key, source), table, k);
      FilteredKeys(key, Matched(key, table), source, k);
      hide Filter, UniqueKeys, AllKeyed;
      if i :| 0 <= i < |source| && Cell(source[i], key) == k {
        assert source[i] in source;
      }
      if i :| 0 <= i < |table| && Cell(table[i], key) == k {
        assert table[i] in table;
      }
    }
    hide Filter, UniqueKeys, HasKey;
    SameKeysSameSize(key, a, b);
  }

  lemma {:induction false} FilterSplits(p: Row -> bool, q: Row -> bool, rows: seq<Row>)
    requires forall r :: p(r) == !q(r)
    ensures |Filter(p, rows)| + |Filter(q, rows)| == |rows|
  {
    if rows != [] {
      FilterSplits(p, q, rows[1..]);
      FilterCons(p, rows);
      FilterCons(q, rows);
      hide Filter;
    }
  }

  /** Where keys are unique each source row affects exactly one row. */
  lemma AffectsEachOnce(key: string, table: seq<Row>, source: seq<Row>)
    requires UniqueKeys(key, table) && UniqueKeys(key, source) && AllKeyed(key, source)
    ensures Affected(key, table, source) == |source|
  {
    MatchedBothWays(key, table, source);
    FilterSplits(Matched(key, table), Unmatched(key, table), source);
    hide Filter, UniqueKeys, AllKeyed;
  }

  // ----- unique keys, over every run -----

  lemma UpsertKeepsUnique(key: string, table: seq<Row>, s: Row)
    requires key in s && UniqueKeys(key, table)
    ensures UniqueKeys(key, UpsertOne(key, table, s))
  {
    if HasKey(key, table, Cell(s, key)) {
      forall i | 0 <= i < |table|
        ensures Cell(Map(Update(key, s), table)[i], key) == Cell(table[i], key)
      {
        MapAt(Update(key, s), table, i);
      }
      hide Map, HasKey;
    }
  }

  lemma {:induction false} UpsertAllKeepsUnique(key: string, table: seq<Row>, rows: seq<Row>)
    requires (forall s :: s in rows ==> key in s) && UniqueKeys(key, table)
    ensures UniqueKeys(key, UpsertAll(key, table, rows))
  {
    if rows != [] {
      var front, last := rows[..|rows| - 1], rows[|rows| - 1];
      assert forall s :: s in front ==> s in rows;
      UpsertAllKeepsUnique(key, table, front);
      assert last in rows;
      UpsertKeepsUnique(key, UpsertAll(key, table, front), last);
    }
  }

  lemma {:induction false} FilterKeepsUnique(key: string, p: Row -> bool, rows: seq<Row>)
    requires UniqueKeys(key, rows)
    ensures UniqueKeys(key, Filter(p, rows))
  {
    if rows == [] {
      return;
    }
    FilterKeepsUnique(key, p, rows[1..]);
    FilterHas(p, rows[1..]);
    FilterCons(p, rows);
    hide Filter;
    var kept := Filter(p, rows[1..]);
    forall j | 0 <= j < |kept|
      ensures !Cell(rows[0], key).Null? ==> Cell(kept[j], key) != Cell(rows[0], key)
    {
      assert kept[j] in kept;
      var i :| 0 <= i < |rows[1..]| && rows[1..][i] == kept[j];
      assert rows[i + 1] == kept[j];
    }
  }

  // ----- deletes -----

  /** ON t.key = s.key AND t.tenant_id = ? WHEN MATCHED THEN DELETE */
  function Kept(key: string, keys: seq<string>, tenant: string): Row -> bool {
    t => !(Cell(t, key).Text? && Cell(t, key).s in keys && OfTenant(tenant)(t))
  }

  function DeleteAll(key: string, table: seq<Row>, keys: seq<string>, tenant: string): seq<Row> {
    Filter(Kept(key, keys, tenant), table)
  }

  /** Deleting chunk by chunk is deleting at once. */
  lemma DeleteAppend(key: string, table: seq<Row>, a: seq<string>, b: seq<string>, tenant: string)
    ensures DeleteAll(key, DeleteAll(key, table, a, tenant), b, tenant) == DeleteAll(key, table, a + b, tenant)
  {
    FilterFilter(Kept(key, b, tenant), Kept(key, a, tenant), table);
    FilterCong(Both(Kept(key, a, tenant), Kept(key, b, tenant)), Kept(key, a + b, tenant), table);
  }

  lemma {:induction false} FindDeleted(key: string, table: seq<Row>, keys: seq<string>, tenant: string, k: string)
    requires forall t :: t in table ==> OfTenant(tenant)(t)
    ensures Find(key, DeleteAll(key, table, keys, tenant), Text(k)) == if k in keys then None
            else Find(key, table, Text(k))
  {
    if table != [] {
      var p := Kept(key, keys, tenant);
      FindDeleted(key, table[1..], keys, tenant, k);
      FilterCons(p, table);
      assert table[0] in table;
      var rest := Filter(p, table[1..]);
      assert ([table[0]] + rest)[1..] == rest && [] + rest == rest;
      hide Filter;
    }
  }

  /** One committed keyed write to a table. */
  datatype KeyedWrite = UpsertRows(rows: seq<Row>) | DeleteKeys(keys: seq<string>, tenant: string)

  function AfterWrites(key: string, table: seq<Row>, writes: seq<KeyedWrite>): seq<Row> {
    if writes == [] then table
    else
      var before := AfterWrites(key, table, writes[..|writes| - 1]);
      match writes[|writes| - 1]
      case UpsertRows(rows) => UpsertAll(key, before, rows)
      case DeleteKeys(keys, tenant) => DeleteAll(key, before, keys, tenant)
  }

  /** A table whose keys are unique keeps them unique over every run of upserts and deletes by that key. */
  lemma {:induction false} RunKeepsUnique(key: string, table: seq<Row>, writes: seq<KeyedWrite>)
    requires UniqueKeys(key, table)
    requires forall i, s :: 0 <= i < |writes| && writes[i].UpsertRows? && s in writes[i].rows ==> key in s
    ensures UniqueKeys(key, AfterWrites(key, table, writes))
  {
    if writes != [] {
      var before := AfterWrites(key, table, writes[..|writes| - 1]);
      RunKeepsUnique(key, table, writes[..|writes| - 1]);
      match writes[|writes| - 1]
      case UpsertRows(rows) => UpsertAllKeepsUnique(key, before, rows);
      case DeleteKeys(keys, tenant) => FilterKeepsUnique(key, Kept(key, keys, tenant), before);
    }
  }

  // ----- whose rows an upsert touches -----

  function OfOthers(tenant: string): Row -> bool {
    t => !OfTenant(tenant)(t)
  }

  /** Does another tenant's row have one of the batch's keys? */
  ghost predicate Collides(key: string, table: seq<Row>, rows: seq<Row>, tenant: string) {
    exists i :: 0 <= i < |table| && OfOthers(tenant)(table[i]) && HasKey(key, rows, Cell(table[i], key))
  }

  lemma CollidesCons(key: string, table: seq<Row>, rows: seq<Row>, tenant: string)
    requires table != []
    ensures Collides(key, table, rows, tenant)
            <==> (OfOthers(tenant)(table[0]) && HasKey(key, rows, Cell(table[0], key)))
                  || Collides(key, table[1..], rows, tenant)
  {
    hide HasKey;
    if Collides(key, table[1..], rows, tenant) {
      var i :| 0 <= i < |table[1..]| && OfOthers(tenant)(table[1..][i]) && HasKey(key, rows, Cell(table[1..][i], key));
      assert table[i + 1] == table[1..][i];
    }
    if i :| 0 <= i < |table| && OfOthers(tenant)(table[i]) && HasKey(key, rows, Cell(table[i], key)) {
      if i > 0 {
        assert table[i] == table[1..][i - 1];
      }
    }
  }

  lemma FoundTenant(key: string, source: seq<Row>, tenant: string, t: Row)
    requires forall s :: s in source ==> Stamped(tenant, s)
    ensures OfOthers(tenant)(Found(key, source)(t)) <==> OfOthers(tenant)(t) && !HasKey(key, source, Cell(t, key))
    ensures OfOthers(tenant)(Found(key, source)(t)) ==> Found(key, source)(t) == t
  {
    FindIs(key, source, Cell(t, key));
    hide HasKey;
    var f := Find(key, source, Cell(t, key));
    if f.Some? {
      assert Stamped(tenant, f.value);
      assert Cell(t + f.value, "tenant_id") == Cell(f.value, "tenant_id");
    }
  }

  /** Other tenants' rows lose exactly those the source matches. */
  lemma {:induction false} OthersAfterFound(key: string, table: seq<Row>, source: seq<Row>, tenant: string)
    requires forall s :: s in source ==> Stamped(tenant, s)
    ensures |Filter(OfOthers(tenant), Map(Found(key, source), table))| <= |Filter(OfOthers(tenant), table)|
    ensures !Collides(key, table, source, tenant) ==>
              Filter(OfOthers(tenant), Map(Found(key, source), table)) == Filter(OfOthers(tenant), table)
    ensures Collides(key, table, source, tenant) ==>
              |Filter(OfOthers(tenant), Map(Found(key, source), table))| < |Filter(OfOthers(tenant), table)|
  {
    if table == [] {
      return;
    }
    var p, f := OfOthers(tenant), Found(key, source);
    OthersAfterFound(key, table[1..], source, tenant);
    CollidesCons(key, table, source, tenant);
    FoundTenant(key, source, tenant, table[0]);
    assert Map(f, table)[0] == f(table[0]) && Map(f, table)[1..] == Map(f, table[1..]);
    FilterCons(p, Map(f, table));
    FilterCons(p, table);
    hide Filter, Map, Collides, HasKey, Found, OfOthers;
  }

  lemma OthersAfterMerge(key: string, table: seq<Row>, source: seq<Row>, tenant: string)
    requires forall s :: s in source ==> Stamped(tenant, s)
    ensures Filter(OfOthers(tenant), MergeInto(key, table, source)) == Filter(OfOthers(tenant), table)
            <==> !Collides(key, table, source, tenant)
  {
    OthersAfterFound(key, table, source, tenant);
    var added := Filter(Unmatched(key, table), source);
    FilterHas(Unmatched(key, table), source);
    FilterNone(OfOthers(tenant), added);
    FilterAppend(OfOthers(tenant), Map(Found(key, source), table), added);
    hide HasKey, Collides, Filter, Map;
    assert MergeInto(key, table, source) == Map(Found(key, source), table) + added;
    assert Filter(OfOthers(tenant), Map(Found(key, source), table)) + []
           == Filter(OfOthers(tenant), Map(Found(key, source), table));
  }

  lemma UpsertedKeys(key: string, table: seq<Row>, s: Row, k: Value)
    requires key in s
    ensures HasKey(key, UpsertOne(key, table, s), k) <==> HasKey(key, table, k) || Cell(s, key) == k
  {
    FindUpserted(key, table, s, k);
    FindIs(key, table, k);
    FindIs(key, UpsertOne(key, table, s), k);
    hide HasKey, Find, UpsertOne;
  }

  predicate Stamped(tenant: string, s: Row) {
    "tenant_id" in s && OfTenant(tenant)(s)
  }

  lemma UpsertKeepsStamp(key: string, table: seq<Row>, s: Row, tenant: string)
    requires Stamped(tenant, s) && forall t :: t in table ==> Stamped(tenant, t)
    ensures forall t :: t in UpsertOne(key, table, s) ==> Stamped(tenant, t)
  {
    MapHas(Update(key, s), table);
    hide HasKey, Map;
  }

  lemma {:induction false} UpsertAllStamped(key: string, columns: set<string>, rows: seq<Row>, tenant: string)
    requires SourceRows(key, columns, rows) && forall s :: s in rows ==> Stamped(tenant, s)
    ensures forall s :: s in UpsertAll(key, [], rows) ==> Stamped(tenant, s)
    ensures forall k :: HasKey(key, UpsertAll(key, [], rows), k) <==> HasKey(key, rows, k)
  {
    if rows == [] {
      return;
    }
    var front, last := rows[..|rows| - 1], rows[|rows| - 1];
    assert rows == front + [last] && last in rows && forall s :: s in front ==> s in rows;
    UpsertAllStamped(key, columns, front, tenant);
    assert SourceRow(key, columns, rows[|rows| - 1]);
    var before := UpsertAll(key, [], front);
    assert UpsertAll(key, [], rows) == UpsertOne(key, before, last);
    UpsertKeepsStamp(key, before, last, tenant);
    hide UpsertAll, UpsertOne;
    forall k
      ensures HasKey(key, UpsertOne(key, before, last), k) <==> HasKey(key, rows, k)
    {
      UpsertedKeys(key, before, last, k);
      HasKeyAppend(key, front, [last], k);
      assert HasKey(key, [last], k) <==> [last][0] == last && Cell(last, key) == k;
    }
  }

  /** The merge condition is the key alone. An upsert leaves other tenants' rows as they are exactly when none of them
      has a key of the batch; where one does, it is overwritten and re-stamped. */
  lemma OthersUntouchedIff(key: string, columns: set<string>, table: seq<Row>, rows: seq<Row>, tenant: string)
    requires SourceRows(key, columns, rows) && forall s :: s in rows ==> Stamped(tenant, s)
    ensures Filter(OfOthers(tenant), UpsertAll(key, table, rows)) == Filter(OfOthers(tenant), table)
            <==> !Collides(key, table, rows, tenant)
  {
    var source := UpsertAll(key, [], rows);
    UpsertsAreOneMerge(key, columns, table, rows);
    UpsertAllStamped(key, columns, rows, tenant);
    assert Collides(key, table, rows, tenant) <==> Collides(key, table, source, tenant) by {
      hide HasKey, UpsertAll;
    }
    hide *;
    OthersAfterMerge(key, table, source, tenant);
  }

  /** Two tenants with the same key: the second tenant's upsert takes the first one's row. */
  lemma UpsertTakesOver()
    ensures var theirs := map["id" := Text("7"), "tenant_id" := Text("acme")];
            var ours := map["id" := Text("7"), "tenant_id" := Text("globex")];
            UpsertAll("id", [theirs], [ours]) == [ours]
  {
    var theirs := map["id" := Text("7"), "tenant_id" := Text("acme")];
    var ours := map["id" := Text("7"), "tenant_id" := Text("globex")];
    assert [ours][..0] == [];
    assert Cell([theirs][0], "id") == Cell(ours, "id");
    assert UpsertAll("id", [theirs], [ours]) == UpsertOne("id", [theirs], ours);
    SameColumns(ours, theirs);
    assert Map(Update("id", ours), [theirs]) == [ours] + Map(Update("id", ours), []);
  }
}
