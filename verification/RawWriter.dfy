/** The writer's keyed operations on raw tables: validation, deduplication, chunked MERGE, and the CDC transaction. */
module RawWriter {
  import opened Sequences
  import opened Values
  import opened Ast
  import opened Sql
  import opened Denotation
  import opened Upsert
  import opened Chunks

  /** One incoming row: a cell per column, `None` for NULL. */
  type Cells = seq<Option<string>>

  const MERGE_CHUNK: nat := 500

  /** Where the chunk that begins at `done` ends. */
  function ChunkEnd(done: nat, total: nat): (next: nat)
    requires done < total
    ensures done < next <= total
    ensures WholeChunks(done) && next < total ==> WholeChunks(next)
  {
    if total - done < MERGE_CHUNK then total else done + MERGE_CHUNK
  }

  predicate WholeChunks(done: nat) {
    done % MERGE_CHUNK == 0
  }

  function CellValue(c: Option<string>): Value {
    if c.Some? then Text(c.value) else Null
  }

  /** The row MERGE sends: the batch's columns and the writer's tenant. */
  function RowOf(columns: seq<string>, cells: Cells, tenant: string): Row {
    if columns == [] || cells == [] then map["tenant_id" := Text(tenant)]
    else RowOf(columns[1..], cells[1..], tenant)[columns[0] := CellValue(cells[0])]
  }

  function ToRow(columns: seq<string>, tenant: string): Cells -> Row {
    c => RowOf(columns, c, tenant)
  }

  /** The values bound for a row: its cells and the writer's tenant. */
  function BindCells(tenant: string): Cells -> seq<Value> {
    (c: Cells) => Map(CellValue, c) + [Text(tenant)]
  }

  /** A row of a MERGE's source: its values under the listed names. */
  function NamedRow(names: seq<string>): seq<Value> -> Row {
    vs => Named(names, vs)
  }

  function Named(names: seq<string>, vs: seq<Value>): Row {
    if names == [] || vs == [] then map[] else Named(names[1..], vs[1..])[names[0] := vs[0]]
  }

  lemma {:induction false} NamedIsRowOf(columns: seq<string>, cells: Cells, tenant: string)
    requires |cells| == |columns|
    ensures Named(columns + ["tenant_id"], BindCells(tenant)(cells)) == RowOf(columns, cells, tenant)
  {
    if columns == [] {
      assert columns + ["tenant_id"] == ["tenant_id"];
      assert BindCells(tenant)(cells) == [Text(tenant)];
      assert Named(["tenant_id"][1..], [Text(tenant)][1..]) == map[];
      return;
    }
    NamedIsRowOf(columns[1..], cells[1..], tenant);
    var vs := BindCells(tenant)(cells);
    assert (columns + ["tenant_id"])[1..] == columns[1..] + ["tenant_id"];
    assert vs[0] == CellValue(cells[0]) && vs[1..] == BindCells(tenant)(cells[1..]);
  }

  function KeyAt(cells: Cells, keyIdx: nat): Option<string> {
    if keyIdx < |cells| then cells[keyIdx] else None
  }

  function HasKeyAt(keyIdx: nat): Cells -> bool {
    c => KeyAt(c, keyIdx).Some?
  }

  /** The rows a batch asks to upsert, in order: those with a key. */
  function Upserts(columns: seq<string>, keyIdx: nat, tenant: string, rows: seq<Cells>): seq<Row> {
    Map(ToRow(columns, tenant), Filter(HasKeyAt(keyIdx), rows))
  }

  ghost predicate Rectangular(columns: seq<string>, rows: seq<Cells>) {
    forall i :: 0 <= i < |rows| ==> |rows[i]| == |columns|
  }

  /** Columns a table can have beside `tenant_id`. */
  predicate TableColumns(columns: seq<string>) {
    "tenant_id" !in columns && forall i, j :: 0 <= i < j < |columns| ==> columns[i] != columns[j]
  }

  ghost function AllColumns(columns: seq<string>): set<string> {
    Elements(columns) + {"tenant_id"}
  }

  lemma {:induction false} RowOfIs(columns: seq<string>, cells: Cells, tenant: string)
    requires |cells| == |columns| && TableColumns(columns)
    ensures RowOf(columns, cells, tenant).Keys == AllColumns(columns)
    ensures forall i :: 0 <= i < |columns| ==> Cell(RowOf(columns, cells, tenant), columns[i]) == CellValue(cells[i])
    ensures Stamped(tenant, RowOf(columns, cells, tenant))
  {
    if columns != [] {
      RowOfIs(columns[1..], cells[1..], tenant);
      var rest := RowOf(columns[1..], cells[1..], tenant);
      assert Elements(columns) == {columns[0]} + Elements(columns[1..]);
      forall i | 0 < i < |columns|
        ensures Cell(RowOf(columns, cells, tenant), columns[i]) == CellValue(cells[i])
      {
        assert columns[1..][i - 1] == columns[i] && cells[1..][i - 1] == cells[i];
      }
    }
  }

  lemma RowKey(columns: seq<string>, keyIdx: nat, cells: Cells, tenant: string)
    requires |cells| == |columns| && TableColumns(columns) && keyIdx < |columns| && KeyAt(cells, keyIdx).Some?
    ensures SourceRow(columns[keyIdx], AllColumns(columns), RowOf(columns, cells, tenant))
    ensures Cell(RowOf(columns, cells, tenant), columns[keyIdx]) == Text(KeyAt(cells, keyIdx).value)
  {
    RowOfIs(columns, cells, tenant);
    hide RowOf;
    assert columns[keyIdx] in columns;
  }

  // ----- deduplication -----

  function KeyIndex(deduped: seq<Cells>, k: string, keyIdx: nat): (r: nat)
    ensures r <= |deduped|
    ensures r < |deduped| ==> KeyAt(deduped[r], keyIdx) == Some(k)
    ensures forall i :: 0 <= i < r ==> KeyAt(deduped[i], keyIdx) != Some(k)
  {
    if deduped == [] || KeyAt(deduped[0], keyIdx) == Some(k) then 0
    else 1 + KeyIndex(deduped[1..], k, keyIdx)
  }

  /** A row takes the slot of an earlier row with its key, or a new slot; a row with no key takes none. */
  function Place(deduped: seq<Cells>, cells: Cells, keyIdx: nat): seq<Cells> {
    if KeyAt(cells, keyIdx).None? then deduped
    else
      var i := KeyIndex(deduped, KeyAt(cells, keyIdx).value, keyIdx);
      if i < |deduped| then deduped[i := cells] else deduped + [cells]
  }

  function Dedup(rows: seq<Cells>, keyIdx: nat): seq<Cells> {
    if rows == [] then [] else Place(Dedup(rows[..|rows| - 1], keyIdx), rows[|rows| - 1], keyIdx)
  }

  /** Every slot holds a different key. */
  ghost predicate Slots(deduped: seq<Cells>, keyIdx: nat) {
    && (forall i :: 0 <= i < |deduped| ==> KeyAt(deduped[i], keyIdx).Some?)
    && (forall i, j :: 0 <= i < j < |deduped| ==> KeyAt(deduped[i], keyIdx) != KeyAt(deduped[j], keyIdx))
  }

  /** `dedup_by_key`: a hash map from each key to its slot. */
  method DedupByKey(rows: seq<Cells>, keyIdx: nat) returns (deduped: seq<Cells>)
    ensures deduped == Dedup(rows, keyIdx) && Slots(deduped, keyIdx)
  {
    deduped := [];
    var seen: map<string, nat> := map[];
    var n := 0;
    while n < |rows|
      invariant 0 <= n <= |rows|
      invariant deduped == Dedup(rows[..n], keyIdx)
      invariant forall k :: k in seen ==> seen[k] < |deduped| && KeyAt(deduped[seen[k]], keyIdx) == Some(k)
      invariant forall i :: 0 <= i < |deduped| ==>
                  KeyAt(deduped[i], keyIdx).Some? && KeyAt(deduped[i], keyIdx).value in seen
                        && seen[KeyAt(deduped[i], keyIdx).value] == i
    {
      var row := rows[n];
      assert rows[..n + 1][..n] == rows[..n];
      n := n + 1;
      var k := KeyAt(row, keyIdx);
      if k.None? {
        continue;
      }
      if k.value in seen {
        deduped := deduped[seen[k.value] := row];
      } else {
        seen := seen[k.value := |deduped|];
        deduped := deduped + [row];
      }
    }
    assert rows[..|rows|] == rows;
  }

  ghost function RowsOf(columns: seq<string>, tenant: string, rows: seq<Cells>): seq<Row> {
    Map(ToRow(columns, tenant), rows)
  }

  lemma RowsOfSource(columns: seq<string>, keyIdx: nat, tenant: string, rows: seq<Cells>)
    requires TableColumns(columns) && keyIdx < |columns| && Rectangular(columns, rows)
    requires forall i :: 0 <= i < |rows| ==> KeyAt(rows[i], keyIdx).Some?
    ensures SourceRows(columns[keyIdx], AllColumns(columns), RowsOf(columns, tenant, rows))
    ensures forall s :: s in RowsOf(columns, tenant, rows) ==> Stamped(tenant, s)
    ensures forall i :: 0 <= i < |rows| ==>
              Cell(RowsOf(columns, tenant, rows)[i], columns[keyIdx]) == Text(KeyAt(rows[i], keyIdx).value)
  {
    forall i | 0 <= i < |rows|
      ensures SourceRow(columns[keyIdx], AllColumns(columns), RowsOf(columns, tenant, rows)[i])
      ensures Stamped(tenant, RowsOf(columns, tenant, rows)[i])
      ensures Cell(RowsOf(columns, tenant, rows)[i], columns[keyIdx]) == Text(KeyAt(rows[i], keyIdx).value)
    {
      MapAt(ToRow(columns, tenant), rows, i);
      RowKey(columns, keyIdx, rows[i], tenant);
      RowOfIs(columns, rows[i], tenant);
    }
    hide Map, SourceRow, Stamped, AllColumns;
  }

  /** A slot's row has the key of a row sent exactly when the slot has. */
  lemma SlotKeys(columns: seq<string>, keyIdx: nat, tenant: string, deduped: seq<Cells>, cells: Cells)
    requires TableColumns(columns) && keyIdx < |columns| && Rectangular(columns, deduped) && |cells| == |columns|
    requires Slots(deduped, keyIdx) && KeyAt(cells, keyIdx).Some?
    ensures var rows, s := RowsOf(columns, tenant, deduped), RowOf(columns, cells, tenant);
            forall j :: 0 <= j < |deduped| ==>
              (Cell(rows[j], columns[keyIdx]) == Cell(s, columns[keyIdx]) <==>
               KeyAt(deduped[j], keyIdx) == KeyAt(cells, keyIdx))
  {
    RowsOfSource(columns, keyIdx, tenant, deduped);
    RowKey(columns, keyIdx, cells, tenant);
    hide RowOf, RowsOf, AllColumns, TableColumns, SourceRow, SourceRows, Stamped;
  }

  /** A row whose key has no slot takes a new one. */
  lemma PlaceMiss(columns: seq<string>, keyIdx: nat, tenant: string, deduped: seq<Cells>, cells: Cells)
    requires TableColumns(columns) && keyIdx < |columns| && Rectangular(columns, deduped) && |cells| == |columns|
    requires Slots(deduped, keyIdx) && KeyAt(cells, keyIdx).Some?
    requires forall j :: 0 <= j < |deduped| ==> KeyAt(deduped[j], keyIdx) != KeyAt(cells, keyIdx)
    ensures RowsOf(columns, tenant, deduped + [cells])
            == UpsertOne(columns[keyIdx], RowsOf(columns, tenant, deduped), RowOf(columns, cells, tenant))
  {
    SlotKeys(columns, keyIdx, tenant, deduped, cells);
    var f := ToRow(columns, tenant);
    hide RowOf, TableColumns, Slots, Rectangular, KeyAt;
    MapAppend(f, deduped, [cells]);
    assert Map(f, [cells]) == [f(cells)];
    hide Map;
  }

  /** A row whose key has slot `i` takes it. */
  lemma PlaceHit(columns: seq<string>, keyIdx: nat, tenant: string, deduped: seq<Cells>, cells: Cells, i: nat)
    requires TableColumns(columns) && keyIdx < |columns| && Rectangular(columns, deduped) && |cells| == |columns|
    requires Slots(deduped, keyIdx) && i < |deduped| && KeyAt(deduped[i], keyIdx) == KeyAt(cells, keyIdx)
    ensures RowsOf(columns, tenant, deduped[i := cells])
            == UpsertOne(columns[keyIdx], RowsOf(columns, tenant, deduped), RowOf(columns, cells, tenant))
  {
    var key, s, f := columns[keyIdx], RowOf(columns, cells, tenant), ToRow(columns, tenant);
    var rows := RowsOf(columns, tenant, deduped);
    SlotKeys(columns, keyIdx, tenant, deduped, cells);
    RowsOfSource(columns, keyIdx, tenant, deduped);
    RowKey(columns, keyIdx, cells, tenant);
    assert Cell(rows[i], key) == Cell(s, key);
    assert SourceRow(key, AllColumns(columns), rows[i]);
    SameColumns(s, rows[i]);
    hide RowOf, TableColumns, Rectangular, KeyAt, AllColumns, SourceRow, SourceRows, Stamped;
    forall j | 0 <= j < |deduped|
      ensures Update(key, s)(rows[j]) == if j == i then s else rows[j]
    {
    }
    hide Update;
    ReplacedAt(f, Update(key, s), deduped, rows, i, cells);
  }

  /** Replacing an element before mapping is mapping and then replacing its image. */
  lemma ReplacedAt<T, U>(f: T -> U, g: U -> U, s: seq<T>, mapped: seq<U>, i: nat, x: T)
    requires i < |s| && mapped == Map(f, s)
    requires forall j :: 0 <= j < |s| ==> g(mapped[j]) == if j == i then f(x) else mapped[j]
    ensures Map(f, s[i := x]) == Map(g, mapped)
  {
    forall j | 0 <= j < |s|
      ensures Map(f, s[i := x])[j] == Map(g, mapped)[j]
    {
      MapAt(f, s, j);
      MapAt(f, s[i := x], j);
      MapAt(g, mapped, j);
      hide Map;
    }
    hide Map;
  }

  /** Taking a slot is upserting the row among the slots. */
  lemma PlaceIsUpsert(columns: seq<string>, keyIdx: nat, tenant: string, deduped: seq<Cells>, cells: Cells)
    requires TableColumns(columns) && keyIdx < |columns| && Rectangular(columns, deduped) && |cells| == |columns|
    requires Slots(deduped, keyIdx) && KeyAt(cells, keyIdx).Some?
    ensures RowsOf(columns, tenant, Place(deduped, cells, keyIdx))
            == UpsertOne(columns[keyIdx], RowsOf(columns, tenant, deduped), RowOf(columns, cells, tenant))
  {
    var i := KeyIndex(deduped, KeyAt(cells, keyIdx).value, keyIdx);
    hide KeyIndex, RowsOf, RowOf, UpsertOne, TableColumns;
    if i < |deduped| {
      PlaceHit(columns, keyIdx, tenant, deduped, cells, i);
    } else {
      PlaceMiss(columns, keyIdx, tenant, deduped, cells);
    }
  }

  lemma UpsertsSnoc(columns: seq<string>, keyIdx: nat, tenant: string, front: seq<Cells>, last: Cells)
    ensures Upserts(columns, keyIdx, tenant, front + [last])
            == Upserts(columns, keyIdx, tenant, front)
              + (if KeyAt(last, keyIdx).Some? then [RowOf(columns, last, tenant)] else [])
  {
    var f, p := ToRow(columns, tenant), HasKeyAt(keyIdx);
    FilterAppend(p, front, [last]);
    FilterCons(p, [last]);
    assert Filter(p, [last]) == if KeyAt(last, keyIdx).Some? then [last] else [];
    MapAppend(f, Filter(p, front), Filter(p, [last]));
    assert Map(f, [last]) == [f(last)];
    hide RowOf;
  }

  lemma UpsertAllSnoc(key: string, table: seq<Row>, rows: seq<Row>, s: Row)
    ensures UpsertAll(key, table, rows + [s]) == UpsertOne(key, UpsertAll(key, table, rows), s)
  {
    assert (rows + [s])[..|rows + [s]| - 1] == rows;
    hide UpsertOne;
  }

  lemma PlaceKeepsSlots(columns: seq<string>, keyIdx: nat, deduped: seq<Cells>, cells: Cells)
    requires Slots(deduped, keyIdx) && Rectangular(columns, deduped) && |cells| == |columns|
    ensures Slots(Place(deduped, cells, keyIdx), keyIdx) && Rectangular(columns, Place(deduped, cells, keyIdx))
  {
  }

  /** Deduplicating a batch is upserting its rows, in order, into an empty table. */
  lemma {:induction false} DedupIsUpsertAll(columns: seq<string>, keyIdx: nat, tenant: string, rows: seq<Cells>)
    requires TableColumns(columns) && keyIdx < |columns| && Rectangular(columns, rows)
    ensures Slots(Dedup(rows, keyIdx), keyIdx) && Rectangular(columns, Dedup(rows, keyIdx))
    ensures RowsOf(columns, tenant, Dedup(rows, keyIdx))
            == UpsertAll(columns[keyIdx], [], Upserts(columns, keyIdx, tenant, rows))
  {
    if rows == [] {
      return;
    }
    var front, last := rows[..|rows| - 1], rows[|rows| - 1];
    assert Rectangular(columns, front) && |last| == |columns|;
    assert rows == front + [last];
    var before := Dedup(front, keyIdx);
    assert Dedup(rows, keyIdx) == Place(before, last, keyIdx);
    assert KeyAt(last, keyIdx).None? ==> Place(before, last, keyIdx) == before;
    assert Upserts(columns, keyIdx, tenant, front) + [] == Upserts(columns, keyIdx, tenant, front);
    hide *;
    DedupIsUpsertAll(columns, keyIdx, tenant, front);
    PlaceKeepsSlots(columns, keyIdx, before, last);
    UpsertsSnoc(columns, keyIdx, tenant, front, last);
    if KeyAt(last, keyIdx).Some? {
      PlaceIsUpsert(columns, keyIdx, tenant, before, last);
      UpsertAllSnoc(columns[keyIdx], [], Upserts(columns, keyIdx, tenant, front), RowOf(columns, last, tenant));
    }
  }

  lemma SlotsUnique(columns: seq<string>, keyIdx: nat, tenant: string, rows: seq<Cells>)
    requires TableColumns(columns) && keyIdx < |columns| && Rectangular(columns, rows) && Slots(rows, keyIdx)
    ensures UniqueKeys(columns[keyIdx], RowsOf(columns, tenant, rows))
  {
    RowsOfSource(columns, keyIdx, tenant, rows);
    hide RowsOf, TableColumns;
  }

  /** Merging one deduplicated chunk after another is upserting the batch's rows one by one. */
  lemma DedupedUpserts(columns: seq<string>, keyIdx: nat, tenant: string, rows: seq<Cells>, table: seq<Row>)
    requires TableColumns(columns) && keyIdx < |columns| && Rectangular(columns, rows)
    ensures UpsertAll(columns[keyIdx], table, RowsOf(columns, tenant, Dedup(rows, keyIdx)))
            == UpsertAll(columns[keyIdx], table, Upserts(columns, keyIdx, tenant, rows))
  {
    var key, deduped, asked := columns[keyIdx], Dedup(rows, keyIdx), Upserts(columns, keyIdx, tenant, rows);
    DedupIsUpsertAll(columns, keyIdx, tenant, rows);
    SlotsUnique(columns, keyIdx, tenant, deduped);
    RowsOfSource(columns, keyIdx, tenant, deduped);
    UpsertsSource(columns, keyIdx, tenant, rows);
    hide *;
    MergeIsUpsertAll(key, AllColumns(columns), table, RowsOf(columns, tenant, deduped));
    UpsertsAreOneMerge(key, AllColumns(columns), table, asked);
  }

  lemma UpsertsSource(columns: seq<string>, keyIdx: nat, tenant: string, rows: seq<Cells>)
    requires TableColumns(columns) && keyIdx < |columns| && Rectangular(columns, rows)
    ensures SourceRows(columns[keyIdx], AllColumns(columns), Upserts(columns, keyIdx, tenant, rows))
    ensures forall s :: s in Upserts(columns, keyIdx, tenant, rows) ==> Stamped(tenant, s)
  {
    var keyed := Filter(HasKeyAt(keyIdx), rows);
    FilterHas(HasKeyAt(keyIdx), rows);
    forall i | 0 <= i < |keyed|
      ensures |keyed[i]| == |columns| && KeyAt(keyed[i], keyIdx).Some?
    {
      assert keyed[i] in keyed;
      var j :| 0 <= j < |rows| && rows[j] == keyed[i];
    }
    hide Filter;
    RowsOfSource(columns, keyIdx, tenant, keyed);
  }

  // ----- merging -----

  /** A group of placeholders for each row: its columns and the tenant. */
  function Placeholders(rows: nat, columns: seq<string>): nat {
    rows * (|columns| + 1)
  }

  /** The source rows of a MERGE as the engine deals the parameters out to them. */
  function SourceOfParams(columns: seq<string>, params: seq<Value>): seq<Row> {
    Map(NamedRow(columns + ["tenant_id"]), Regrouped(params, |columns| + 1))
  }

  lemma {:induction false} MapRows(columns: seq<string>, tenant: string, chunk: seq<Cells>)
    requires Rectangular(columns, chunk)
    ensures Map(NamedRow(columns + ["tenant_id"]), Map(BindCells(tenant), chunk)) == RowsOf(columns, tenant, chunk)
  {
    forall c | c in chunk
      ensures NamedRow(columns + ["tenant_id"])(BindCells(tenant)(c)) == ToRow(columns, tenant)(c)
    {
      NamedIsRowOf(columns, c, tenant);
    }
    MapMap(NamedRow(columns + ["tenant_id"]), BindCells(tenant), ToRow(columns, tenant), chunk);
  }

  /** Rows as wide as the column list reach the MERGE as they are, and fill its placeholders. */
  lemma AlignedSource(columns: seq<string>, tenant: string, chunk: seq<Cells>)
    requires Rectangular(columns, chunk)
    ensures |Params(BindCells(tenant), chunk)| == Placeholders(|chunk|, columns)
    ensures SourceOfParams(columns, Params(BindCells(tenant), chunk)) == RowsOf(columns, tenant, chunk)
  {
    forall c | c in chunk
      ensures |BindCells(tenant)(c)| == |columns| + 1
    {
    }
    ParamsSize(BindCells(tenant), chunk, |columns| + 1);
    ParamsRegrouped(BindCells(tenant), chunk, |columns| + 1);
    hide Map, Params, Regrouped, BindCells;
    MapRows(columns, tenant, chunk);
  }

  lemma ChunkMerged(columns: seq<string>, keyIdx: nat, tenant: string, deduped: seq<Cells>, done: nat, next: nat,
                    table: seq<Row>)
    requires TableColumns(columns) && keyIdx < |columns| && Rectangular(columns, deduped) && Slots(deduped, keyIdx)
    requires done <= next <= |deduped|
    ensures var before, source := UpsertAll(columns[keyIdx], table, RowsOf(columns, tenant, deduped[..done])),
            RowsOf(columns, tenant, deduped[done..next]);
            && MergeInto(columns[keyIdx], before, source)
              == UpsertAll(columns[keyIdx], table, RowsOf(columns, tenant, deduped[..next]))
            && (UniqueKeys(columns[keyIdx], table) ==> Affected(columns[keyIdx], before, source) == next - done)
  {
    var key, chunk := columns[keyIdx], deduped[done..next];
    var source, earlier := RowsOf(columns, tenant, chunk), RowsOf(columns, tenant, deduped[..done]);
    SlotsUnique(columns, keyIdx, tenant, chunk);
    RowsOfSource(columns, keyIdx, tenant, chunk);
    RowsOfSource(columns, keyIdx, tenant, deduped[..done]);
    MapAppend(ToRow(columns, tenant), deduped[..done], chunk);
    assert deduped[..done] + chunk == deduped[..next];
    assert forall s :: s in earlier ==> key in s;
    assert AllKeyed(key, source);
    var before := UpsertAll(key, table, earlier);
    hide MergeInto, UpsertAll, Map, SourceRows, UniqueKeys, Affected, AllKeyed;
    MergeIsUpsertAll(key, AllColumns(columns), before, source);
    UpsertAllAppend(key, table, earlier, source);
    if UniqueKeys(key, table) {
      UpsertAllKeepsUnique(key, table, earlier);
      AffectsEachOnce(key, before, source);
    }
  }

  /** Every chunk of so many rows stays within the engine's limit on parameters: the first does, which no other
      exceeds. */
  predicate MergeFits(rows: nat, columns: seq<string>) {
    Placeholders(if rows < MERGE_CHUNK then rows else MERGE_CHUNK, columns) <= MAX_PARAMS
  }

  /** The size of a chunk does not depend on its rows' width, so a full chunk fits up to 130 columns only. */
  lemma MergeFitsIff(rows: nat, columns: seq<string>)
    ensures rows >= MERGE_CHUNK ==> (MergeFits(rows, columns) <==> |columns| <= 130)
    ensures MergeFits(rows, columns) <==>
              forall n: nat :: n <= rows && n <= MERGE_CHUNK ==> Placeholders(n, columns) <= MAX_PARAMS
  {
    var most := if rows < MERGE_CHUNK then rows else MERGE_CHUNK;
    forall n: nat | n <= rows && n <= MERGE_CHUNK
      ensures Placeholders(n, columns) <= Placeholders(most, columns)
    {
      ProductMonotone(n, most, |columns| + 1);
    }
  }

  /** `merge_upserts`: one MERGE for each chunk, in order, until one fails. A chunk whose cells do not fill its
      placeholders is refused, and so is one with more of them than a statement may have. */
  method MergeUpserts(table: seq<Row>, columns: seq<string>, keyIdx: nat, tenant: string, deduped: seq<Cells>,
                      healthy: bool)
    returns (merged: seq<Row>, done: nat, affected: nat)
    requires TableColumns(columns) && keyIdx < |columns| && Slots(deduped, keyIdx)
    ensures done <= |deduped| && (done == |deduped| || WholeChunks(done))
    ensures Rectangular(columns, deduped) ==>
              merged == UpsertAll(columns[keyIdx], table, RowsOf(columns, tenant, deduped[..done]))
    ensures Rectangular(columns, deduped) && UniqueKeys(columns[keyIdx], table) ==> affected == done
    ensures |Params(BindCells(tenant), deduped[..done])| == Placeholders(done, columns)
    ensures !MergeFits(|deduped|, columns) ==> done == 0 < |deduped|
    ensures healthy && Rectangular(columns, deduped) ==> (done == |deduped| <==> MergeFits(|deduped|, columns))
  {
    merged, done, affected := table, 0, 0;
    MergedNone(table, columns, keyIdx, tenant, deduped);
    assert WholeChunks(0);
    assert |deduped| == 0 ==> MergeFits(0, columns);
    var stopped := false;
    hide *;
    while done < |deduped| && !stopped
      invariant 0 <= done <= |deduped| && (done < |deduped| ==> WholeChunks(done))
      invariant MergedTo(table, columns, keyIdx, tenant, deduped, done, merged, affected)
      invariant !MergeFits(|deduped|, columns) ==> done == 0 < |deduped|
      invariant stopped && healthy && Rectangular(columns, deduped) ==> !MergeFits(|deduped|, columns)
      decreases |deduped| - done, !stopped
    {
      var next := ChunkEnd(done, |deduped|);
      var params := Params(BindCells(tenant), deduped[done..next]);
      var failed: bool := *;
      ChunkFits(columns, tenant, deduped, done, next);
      if (failed && !healthy) || |params| != Placeholders(next - done, columns) || |params| > MAX_PARAMS {
        stopped := true;
      } else {
        var source := SourceOfParams(columns, params);
        MergedNext(table, columns, keyIdx, tenant, deduped, done, next, merged, affected);
        affected := affected + Affected(columns[keyIdx], merged, source);
        merged := MergeInto(columns[keyIdx], merged, source);
        done := next;
      }
    }
    MergedMeans(table, columns, keyIdx, tenant, deduped, done, merged, affected);
  }

  /** Aligned rows fill a chunk's placeholders, and if any chunk is too wide the first one is. */
  lemma ChunkFits(columns: seq<string>, tenant: string, deduped: seq<Cells>, done: nat, next: nat)
    requires done < |deduped| && next == ChunkEnd(done, |deduped|)
    ensures Rectangular(columns, deduped) ==>
              |Params(BindCells(tenant), deduped[done..next])| == Placeholders(next - done, columns)
    ensures MergeFits(|deduped|, columns) ==> Placeholders(next - done, columns) <= MAX_PARAMS
    ensures !MergeFits(|deduped|, columns) && done == 0 ==> Placeholders(next - done, columns) > MAX_PARAMS
  {
    if Rectangular(columns, deduped) {
      RectangularChunk(columns, deduped, done, next);
      AlignedSource(columns, tenant, deduped[done..next]);
    }
    hide Params, BindCells, Rectangular;
    MergeFitsIff(|deduped|, columns);
    assert next - done <= |deduped| && next - done <= MERGE_CHUNK;
  }

  /** What holds of a merge after its first `done` rows. */
  ghost predicate MergedTo(table: seq<Row>, columns: seq<string>, keyIdx: nat, tenant: string, deduped: seq<Cells>,
                           done: nat,
                           merged: seq<Row>, affected: nat)
    requires keyIdx < |columns| && done <= |deduped|
  {
    && (Rectangular(columns, deduped) ==> merged == UpsertAll(columns[keyIdx], table,
      RowsOf(columns, tenant, deduped[..done])))
    && (Rectangular(columns, deduped) && UniqueKeys(columns[keyIdx], table) ==> affected == done)
    && |Params(BindCells(tenant), deduped[..done])| == Placeholders(done, columns)
  }

  lemma MergedMeans(table: seq<Row>, columns: seq<string>, keyIdx: nat, tenant: string, deduped: seq<Cells>, done: nat,
                    merged: seq<Row>, affected: nat)
    requires keyIdx < |columns| && done <= |deduped|
             && MergedTo(table, columns, keyIdx, tenant, deduped, done, merged, affected)
    ensures Rectangular(columns, deduped) ==>
              merged == UpsertAll(columns[keyIdx], table, RowsOf(columns, tenant, deduped[..done]))
    ensures Rectangular(columns, deduped) && UniqueKeys(columns[keyIdx], table) ==> affected == done
    ensures |Params(BindCells(tenant), deduped[..done])| == Placeholders(done, columns)
  {
    hide Rectangular, UniqueKeys, RowsOf, UpsertAll, Params, Placeholders;
  }

  lemma MergedNone(table: seq<Row>, columns: seq<string>, keyIdx: nat, tenant: string, deduped: seq<Cells>)
    requires keyIdx < |columns|
    ensures MergedTo(table, columns, keyIdx, tenant, deduped, 0, table, 0)
  {
    assert deduped[..0] == [];
    assert UpsertAll(columns[keyIdx], table, RowsOf(columns, tenant, [])) == table;
    hide Rectangular, UniqueKeys;
  }

  lemma AddGroups(done: nat, next: nat, columns: seq<string>)
    requires done <= next
    ensures Placeholders(done, columns) + Placeholders(next - done, columns) == Placeholders(next, columns)
  {
  }

  lemma MergedNext(table: seq<Row>, columns: seq<string>, keyIdx: nat, tenant: string, deduped: seq<Cells>, done: nat,
                   next: nat,
                   merged: seq<Row>, affected: nat)
    requires TableColumns(columns) && keyIdx < |columns| && Slots(deduped, keyIdx) && done <= next <= |deduped|
    requires MergedTo(table, columns, keyIdx, tenant, deduped, done, merged, affected)
    requires |Params(BindCells(tenant), deduped[done..next])| == Placeholders(next - done, columns)
    ensures var source := SourceOfParams(columns, Params(BindCells(tenant), deduped[done..next]));
            MergedTo(table, columns, keyIdx, tenant, deduped, next, MergeInto(columns[keyIdx], merged, source),
                     affected + Affected(columns[keyIdx], merged, source))
  {
    ParamsAppend(BindCells(tenant), deduped[..done], deduped[done..next]);
    assert deduped[..done] + deduped[done..next] == deduped[..next];
    AddGroups(done, next, columns);
    if Rectangular(columns, deduped) {
      RectangularChunk(columns, deduped, done, next);
      AlignedSource(columns, tenant, deduped[done..next]);
      ChunkMerged(columns, keyIdx, tenant, deduped, done, next, table);
    }
    hide Rectangular, UniqueKeys, RowsOf, UpsertAll, Params, SourceOfParams, MergeInto, Affected, BindCells,
         Placeholders;
  }

  lemma RectangularChunk(columns: seq<string>, rows: seq<Cells>, lo: nat, hi: nat)
    requires Rectangular(columns, rows) && lo <= hi <= |rows|
    ensures Rectangular(columns, rows[lo..hi])
  {
  }

  /** `merge_deletes`: chunked likewise, and restricted to the writer's tenant. */
  method MergeDeletes(table: seq<Row>, key: string, keys: seq<string>, tenant: string)
    returns (merged: seq<Row>, done: nat, affected: nat)
    ensures done <= |keys| && (done == |keys| || WholeChunks(done))
    ensures merged == DeleteAll(key, table, keys[..done], tenant)
    ensures affected == |table| - |merged|
  {
    merged, done, affected := table, 0, 0;
    FilterAll(Kept(key, [], tenant), table);
    assert keys[..0] == [];
    hide Filter;
    while done < |keys|
      invariant 0 <= done <= |keys| && (done < |keys| ==> WholeChunks(done))
      invariant merged == DeleteAll(key, table, keys[..done], tenant)
      invariant affected == |table| - |merged|
    {
      var next := ChunkEnd(done, |keys|);
      var failed: bool := *;
      if failed {
        return;
      }
      DeleteAppend(key, table, keys[..done], keys[done..next], tenant);
      assert keys[..done] + keys[done..next] == keys[..next];
      FilterSize(Kept(key, keys[done..next], tenant), merged);
      var kept := DeleteAll(key, merged, keys[done..next], tenant);
      affected := affected + (|merged| - |kept|);
      merged := kept;
      done := next;
    }
  }

  // ----- the writer -----

  function PutOffsets(offsets: map<(string, int), int>, source: string,
                      batch: seq<(int, int)>): map<(string, int), int> {
    if batch == [] then offsets
    else PutOffsets(offsets, source, batch[..|batch| - 1])[(source, batch[|batch| - 1].0) := batch[|batch| - 1].1]
  }

  /** `raw_<system>_<entity>`: the table a dataset is stored in. */
  function RawTable(d: Dataset): string {
    "raw_" + d.system + "_" + d.entity
  }

  lemma SplitAt(a: string, x: string, b: string, y: string)
    requires |a| < |b|
    ensures a + "_" + x == b + "_" + y <==> a + "_" <= b && x == b[|a| + 1..] + "_" + y
  {
    var s, t := a + "_" + x, b + "_" + y;
    if s == t {
      assert s[..|a|] == a && s[|a|] == '_' && s[|a| + 1..] == x;
      assert t[..|a|] == b[..|a|] && t[|a|] == b[|a|];
      assert b[..|a| + 1] == a + "_";
      assert t[|a| + 1..] == b[|a| + 1..] + "_" + y;
    }
    if a + "_" <= b && x == b[|a| + 1..] + "_" + y {
      assert b == a + "_" + b[|a| + 1..];
    }
  }

  lemma SameLength(a: string, x: string, b: string, y: string)
    requires |a| == |b|
    ensures a + "_" + x == b + "_" + y <==> a == b && x == y
  {
    var s, t := a + "_" + x, b + "_" + y;
    if s == t {
      assert s[..|a|] == a && t[..|a|] == b && s[|a| + 1..] == x && t[|a| + 1..] == y;
    }
  }

  /** Does `e` borrow the tail of `d`'s entity for its system? */
  predicate Borrows(d: Dataset, e: Dataset) {
    d.system + "_" <= e.system && d.entity == e.system[|d.system| + 1..] + "_" + e.entity
  }

  /** Underscores are legal in both parts, so two datasets can be one table: exactly when they are the same, or one's
      system goes on into the other's entity. */
  lemma OneTableIff(d: Dataset, e: Dataset)
    ensures RawTable(d) == RawTable(e) <==> d == e || Borrows(d, e) || Borrows(e, d)
  {
    var s, t := d.system + "_" + d.entity, e.system + "_" + e.entity;
    assert RawTable(d) == "raw_" + s && RawTable(e) == "raw_" + t;
    assert ("raw_" + s)[4..] == s && ("raw_" + t)[4..] == t;
    if |d.system| < |e.system| {
      SplitAt(d.system, d.entity, e.system, e.entity);
    } else if |e.system| < |d.system| {
      SplitAt(e.system, e.entity, d.system, d.entity);
    } else {
      SameLength(d.system, d.entity, e.system, e.entity);
    }
  }

  /** Two valid datasets in one table. */
  lemma TwoInOne()
    ensures ValidTable(Dataset("a_b", "c")) && ValidTable(Dataset("a", "b_c"))
    ensures RawTable(Dataset("a_b", "c")) == RawTable(Dataset("a", "b_c"))
  {
    assert "a_b"[2..] == "b";
    assert Borrows(Dataset("a", "b_c"), Dataset("a_b", "c"));
    OneTableIff(Dataset("a", "b_c"), Dataset("a_b", "c"));
  }

  function SourceKey(d: Dataset): string {
    d.system + "." + d.entity
  }

  predicate ValidTable(d: Dataset) {
    ValidIdent(d.system) && ValidIdent(d.entity)
  }

  /** What `upsert_raw` and `apply_cdc_batch` reject before they touch the catalogue. */
  predicate ValidUpsert(d: Dataset, columns: seq<string>, key: string) {
    columns != [] && (forall c :: c in columns ==> ValidIdent(c)) && ValidIdent(key) && key in columns && ValidTable(d)
  }

  function Position(columns: seq<string>, key: string): (r: nat)
    requires key in columns
    ensures r < |columns| && columns[r] == key
  {
    if columns[0] == key then 0 else 1 + Position(columns[1..], key)
  }

  function TableRows(tables: RawTables, name: string): seq<Row> {
    if name in tables then tables[name] else []
  }

  /** The table a batch of upserts leaves. */
  ghost function Upserted(table: seq<Row>, columns: seq<string>, key: string, tenant: string,
                          rows: seq<Cells>): seq<Row>
    requires key in columns
  {
    UpsertAll(key, table, Upserts(columns, Position(columns, key), tenant, rows))
  }

  /** The table after some leading chunks of the deduplicated batch. */
  ghost predicate SomeUpserted(table: seq<Row>, after: seq<Row>, columns: seq<string>, key: string, tenant: string,
                               rows: seq<Cells>)
    requires key in columns
  {
    var deduped := Dedup(rows, Position(columns, key));
    exists done: nat | done <= |deduped| && WholeChunks(done) ::
      after == UpsertAll(key, table, RowsOf(columns, tenant, deduped[..done]))
  }

  ghost predicate SomeDeleted(table: seq<Row>, after: seq<Row>, key: string, keys: seq<string>, tenant: string) {
    exists done: nat | done <= |keys| && WholeChunks(done) :: after == DeleteAll(key, table, keys[..done], tenant)
  }

  /** Deduplicate, then merge in chunks. */
  method UpsertTable(table: seq<Row>, columns: seq<string>, key: string, tenant: string, rows: seq<Cells>,
                     healthy: bool)
    returns (merged: seq<Row>, ok: bool, affected: nat)
    requires TableColumns(columns) && key in columns
    ensures Rectangular(columns, rows) ==>
              if ok then merged == Upserted(table, columns, key, tenant, rows)
                  else SomeUpserted(table, merged, columns, key, tenant, rows)
    ensures ok && Rectangular(columns, rows) && UniqueKeys(key, table)
            ==> affected == |Dedup(rows, Position(columns, key))|
    ensures ok ==> Fills(columns, tenant, Dedup(rows, Position(columns, key)))
    ensures ok ==> MergeFits(|Dedup(rows, Position(columns, key))|, columns)
    ensures healthy && Rectangular(columns, rows)
            ==> (ok <==> MergeFits(|Dedup(rows, Position(columns, key))|, columns))
  {
    var keyIdx := Position(columns, key);
    var deduped := DedupByKey(rows, keyIdx);
    if Rectangular(columns, rows) {
      DedupIsUpsertAll(columns, keyIdx, tenant, rows);
      DedupedUpserts(columns, keyIdx, tenant, rows, table);
    }
    var done;
    merged, done, affected := MergeUpserts(table, columns, keyIdx, tenant, deduped, healthy);
    hide Dedup, UpsertAll, RowsOf, Upserts, TableColumns, Slots, Rectangular, UniqueKeys, Params, Placeholders,
         MergeFits;
    ok := done == |deduped|;
    assert ok ==> deduped[..done] == deduped;
  }

  /** The cells of a batch fill the placeholders of its rows. */
  ghost predicate Fills(columns: seq<string>, tenant: string, rows: seq<Cells>) {
    |Params(BindCells(tenant), rows)| == Placeholders(|rows|, columns)
  }

  type RawTables = map<string, seq<Row>>

  /** Only this one table may differ, and it is there afterwards if it does. */
  predicate OnlyTable(before: RawTables, after: RawTables, name: string) {
    after == before || (name in after && after == before[name := after[name]])
  }

  /** What `upsert_raw` does to the tables for a tenant, and what it answers. */
  ghost predicate UpsertEffect(before: RawTables, after: RawTables, tenant: string, d: Dataset, columns: seq<string>,
                               key: string,
                               rows: seq<Cells>, r: Result<nat, WriteError>) {
    && (r == Err(InvalidInput) <==> !ValidUpsert(d, columns, key))
    && (r == Err(InvalidInput) ==> after == before)
    && OnlyTable(before, after, RawTable(d))
    && (r.Ok? && Rectangular(columns, rows) ==>
          && after == before[RawTable(d) := Upserted(TableRows(before, RawTable(d)), columns, key, tenant, rows)]
          && (UniqueKeys(key, TableRows(before, RawTable(d))) ==> r.value == |Dedup(rows, Position(columns, key))|))
    && (r.Ok? ==>
          && Fills(columns, tenant, Dedup(rows, Position(columns, key)))
          && MergeFits(|Dedup(rows, Position(columns, key))|, columns))
    && (r == Err(Storage) && after != before && Rectangular(columns, rows) ==>
          SomeUpserted(TableRows(before, RawTable(d)), after[RawTable(d)], columns, key, tenant, rows))
  }

  /** What `delete_raw` does. */
  ghost predicate DeleteEffect(before: RawTables, after: RawTables, tenant: string, d: Dataset, key: string,
                               keys: seq<string>,
                               r: Result<nat, WriteError>) {
    && (r == Err(InvalidInput) <==> !(ValidIdent(key) && ValidTable(d)))
    && (r == Err(InvalidInput) ==> after == before)
    && OnlyTable(before, after, RawTable(d))
    && (r.Ok? && keys == [] ==> after == before && r.value == 0)
    && (r.Ok? && keys != [] ==>
          && RawTable(d) in before
          && after == before[RawTable(d) := DeleteAll(key, before[RawTable(d)], keys, tenant)]
          && r.value == |before[RawTable(d)]| - |after[RawTable(d)]|)
    && (r == Err(Storage) && after != before ==>
          RawTable(d) in before && SomeDeleted(before[RawTable(d)], after[RawTable(d)], key, keys, tenant))
  }

  /** What `apply_cdc_batch` does: all of it or nothing. */
  ghost predicate CdcEffect(before: RawTables, after: RawTables, tenant: string, d: Dataset, columns: seq<string>,
                            key: string,
                            upserts: seq<Cells>, deletes: seq<string>, r: Result<nat, WriteError>) {
    && (r == Err(InvalidInput) <==> !ValidUpsert(d, columns, key))
    && (r.Err? ==> after == before)
    && OnlyTable(before, after, RawTable(d))
    && (r.Ok? ==>
          && RawTable(d) in after
          && Fills(columns, tenant, Dedup(upserts, Position(columns, key)))
          && MergeFits(|Dedup(upserts, Position(columns, key))|, columns))
    && (r.Ok? && Rectangular(columns, upserts) ==>
          && after[RawTable(d)] ==
               DeleteAll(key, Upserted(TableRows(before, RawTable(d)), columns, key, tenant, upserts), deletes, tenant)
          && (UniqueKeys(key, TableRows(before, RawTable(d))) ==> r.value == |Dedup(upserts, Position(columns, key))|))
  }

  class Writer {
    /** By table name. */
    var tables: RawTables
    var offsets: map<(string, int), int>
    var tenant: string
    var generation: nat

    constructor (tenant: string)
      ensures tables == map[] && offsets == map[] && this.tenant == tenant && generation == 0
    {
      tables, offsets, generation := map[], map[], 0;
      this.tenant := tenant;
    }

    /** `upsert_raw`: not one transaction. On a storage failure the table may hold the upserts of some leading chunks. A
        batch with rows narrower or wider than its columns succeeds only if the cells still fill the placeholders. */
    method UpsertRaw(d: Dataset, columns: seq<string>, key: string, rows: seq<Cells>)
      returns (r: Result<nat, WriteError>)
      modifies this`tables, this`generation
      ensures UpsertEffect(old(tables), tables, tenant, d, columns, key, rows, r)
      ensures generation == old(generation) + if r.Ok? && rows != [] then 1 else 0
    {
      if !ValidUpsert(d, columns, key) {
        return Err(InvalidInput);
      }
      var created: bool := *;
      if !created || !TableColumns(columns) {
        return Err(Storage);
      }
      hide Upserted, SomeUpserted, Fills, MergeFits, Rectangular, UniqueKeys, TableColumns, RawTable, Dedup;
      var name := RawTable(d);
      var table := TableRows(tables, name);
      tables := tables[name := table];
      if rows == [] {
        UpsertedNone(table, columns, key, tenant);
        return Ok(0);
      }
      var healthy: bool := *;
      var merged, ok, affected := UpsertTable(table, columns, key, tenant, rows, healthy);
      tables := tables[name := merged];
      assert tables == old(tables)[name := merged];
      if !ok {
        return Err(Storage);
      }
      generation := generation + 1;
      r := Ok(affected);
    }

    /** `delete_raw`. Deleting from a table that does not exist is a storage failure. The count is of the rows gone. */
    method DeleteRaw(d: Dataset, key: string, keys: seq<string>) returns (r: Result<nat, WriteError>)
      modifies this`tables, this`generation
      ensures DeleteEffect(old(tables), tables, tenant, d, key, keys, r)
      ensures generation == old(generation) + if r.Ok? && keys != [] then 1 else 0
    {
      if !ValidIdent(key) || !ValidTable(d) {
        return Err(InvalidInput);
      }
      if keys == [] {
        return Ok(0);
      }
      var name := RawTable(d);
      hide RawTable;
      if name !in tables {
        return Err(Storage);
      }
      var merged, done, affected := MergeDeletes(tables[name], key, keys, tenant);
      tables := tables[name := merged];
      if done != |keys| {
        return Err(Storage);
      }
      assert keys[..done] == keys;
      generation := generation + 1;
      r := Ok(affected);
    }

    /** `apply_cdc_batch`: table, upserts, deletes and offsets in one transaction. Either all of it is in the
        catalogue or none of it. */
    method ApplyCdcBatch(d: Dataset, columns: seq<string>, key: string, upserts: seq<Cells>, deletes: seq<string>,
                         batch: seq<(int, int)>)
      returns (r: Result<nat, WriteError>)
      modifies this`tables, this`offsets, this`generation
      ensures CdcEffect(old(tables), tables, tenant, d, columns, key, upserts, deletes, r)
      ensures offsets == if r.Ok? then PutOffsets(old(offsets), SourceKey(d), batch) else old(offsets)
      ensures generation == old(generation) + if r.Ok? then 1 else 0
    {
      if !ValidUpsert(d, columns, key) {
        return Err(InvalidInput);
      }
      var begun: bool := *;
      if !begun || !TableColumns(columns) {
        return Err(Storage);
      }
      hide Upserted, SomeUpserted, DeleteAll, SourceKey, TableColumns, Fills, MergeFits, Rectangular, UniqueKeys,
           RawTable, Dedup;
      var tablesBefore, offsetsBefore := tables, offsets;
      var name := RawTable(d);
      var healthy: bool := *;
      var merged, ok, affected := UpsertTable(TableRows(tables, name), columns, key, tenant, upserts, healthy);
      tables := tables[name := merged];
      if ok {
        var kept, done, gone := MergeDeletes(merged, key, deletes, tenant);
        tables := tables[name := kept];
        ok := done == |deletes|;
        assert ok ==> deletes[..done] == deletes;
      }
      if ok {
        ok := CommitOffsets(SourceKey(d), batch);
      }
      if ok {
        ok := *;
      }
      if !ok {
        tables, offsets := tablesBefore, offsetsBefore;
        return Err(Storage);
      }
      generation := generation + 1;
      r := Ok(affected);
    }

    /** `upsert_cdc_offset` for each partition of a batch. */
    method CommitOffsets(source: string, batch: seq<(int, int)>) returns (ok: bool)
      modifies this`offsets
      ensures ok ==> offsets == PutOffsets(old(offsets), source, batch)
    {
      ok := true;
      var i := 0;
      while ok && i < |batch|
        invariant 0 <= i <= |batch|
        invariant offsets == PutOffsets(old(offsets), source, batch[..i])
      {
        ok := *;
        if ok {
          assert batch[..i + 1][..i] == batch[..i];
          offsets := offsets[(source, batch[i].0) := batch[i].1];
          i := i + 1;
        }
      }
      assert batch[..|batch|] == batch;
    }
  }

  lemma UpsertedNone(table: seq<Row>, columns: seq<string>, key: string, tenant: string)
    requires key in columns
    ensures Upserted(table, columns, key, tenant, []) == table
  {
  }
}
