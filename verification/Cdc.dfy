/** Change data capture: envelopes to batches, a batch against its events in order, and the pump over crashes. */
module Cdc {
  import opened Sequences
  import opened Values
  import opened Ast
  import opened Sql
  import opened Denotation
  import opened Upsert
  import opened RawWriter

  // ----- from envelopes to batches -----

  datatype Doc = Object(fields: map<string, Json>) | NotAnObject

  datatype Envelope = Envelope(op: Option<string>, after: Option<Doc>, before: Option<Doc>, payload: Option<Envelope>)

  datatype Message = Tombstone | Unparseable | Parsed(env: Envelope)

  /** `render` prints a JSON value that is not a string. */
  datatype Mapper = Mapper(columns: seq<string>, key: string, render: Json -> string) {
    ghost predicate Valid() {
      TableColumns(columns) && key in columns
    }
  }

  function TextOf(m: Mapper, v: Json): string {
    if v.JString? then v.s else m.render(v)
  }

  function RowFromJson(m: Mapper, doc: Doc): (r: Cells)
    ensures |r| == |m.columns|
  {
    seq(|m.columns|, i requires 0 <= i < |m.columns| =>
      if doc.Object? && m.columns[i] in doc.fields && !doc.fields[m.columns[i]].JNull?
          then Some(TextOf(m, doc.fields[m.columns[i]]))
      else None)
  }

  datatype Mapped = Mapped(upserts: seq<Cells>, deletes: seq<string>)

  /** `map`: a create, update, snapshot read or missing op upserts `after`; `d` deletes the key of `before`. */
  function MapEnvelope(m: Mapper, outer: Envelope): Mapped {
    var env := if outer.payload.Some? then outer.payload.value else outer;
    if env.op in {Some("c"), Some("u"), Some("r"), None} then
      Mapped(if env.after.Some? then [RowFromJson(m, env.after.value)] else [], [])
    else if env.op == Some("d") && env.before.Some? && env.before.value.Object? && m.key in env.before.value.fields then
      Mapped([], [TextOf(m, env.before.value.fields[m.key])])
    else
      Mapped([], [])
  }

  function MapMessage(m: Mapper, msg: Message): Mapped {
    if msg.Parsed? then MapEnvelope(m, msg.env) else Mapped([], [])
  }

  datatype Delivery = Delivery(partition: int, offset: int, msg: Message)

  function UpsertsOf(m: Mapper, ds: seq<Delivery>): seq<Cells> {
    if ds == [] then [] else UpsertsOf(m, ds[..|ds| - 1]) + MapMessage(m, ds[|ds| - 1].msg).upserts
  }

  function DeletesOf(m: Mapper, ds: seq<Delivery>): seq<string> {
    if ds == [] then [] else DeletesOf(m, ds[..|ds| - 1]) + MapMessage(m, ds[|ds| - 1].msg).deletes
  }

  /** The last offset delivered from each partition. */
  function LastOffsets(ds: seq<Delivery>): map<int, int> {
    if ds == [] then map[] else LastOffsets(ds[..|ds| - 1])[ds[|ds| - 1].partition := ds[|ds| - 1].offset]
  }

  const MAX_BATCH := 500

  datatype SourceBatch = SourceBatch(upserts: seq<Cells>, deletes: seq<string>, offsets: map<int, int>)

  /** `next_batch`: accumulates deliveries until the batch is full, the deadline passes, or polling fails. Every
      delivery moves its partition's offset, whether or not it carries a change. */
  method NextBatch(m: Mapper, inbox: seq<Delivery>) returns (batch: Option<SourceBatch>, taken: nat)
    ensures taken <= |inbox| && (batch.None? <==> taken == 0)
    ensures batch.Some? ==>
              && batch.value.upserts == UpsertsOf(m, inbox[..taken])
              && batch.value.deletes == DeletesOf(m, inbox[..taken])
              && batch.value.offsets == LastOffsets(inbox[..taken])
              && |batch.value.upserts| + |batch.value.deletes| <= MAX_BATCH
  {
    var upserts, deletes, offsets := [], [], map[];
    taken := 0;
    while |upserts| + |deletes| < MAX_BATCH && taken < |inbox|
      invariant 0 <= taken <= |inbox|
      invariant upserts == UpsertsOf(m, inbox[..taken])
      invariant deletes == DeletesOf(m, inbox[..taken])
      invariant offsets == LastOffsets(inbox[..taken])
      invariant |upserts| + |deletes| <= MAX_BATCH
      invariant offsets == map[] <==> taken == 0
      decreases |inbox| - taken
    {
      var received: bool := *;
      if !received {
        break;
      }
      var d := inbox[taken];
      assert inbox[..taken + 1][..taken] == inbox[..taken];
      taken := taken + 1;
      offsets := offsets[d.partition := d.offset];
      assert d.partition in offsets;
      if !d.msg.Parsed? {
        continue;
      }
      var mapped := MapEnvelope(m, d.msg.env);
      upserts := upserts + mapped.upserts;
      deletes := deletes + mapped.deletes;
    }
    if upserts == [] && deletes == [] && offsets == map[] {
      batch := None;
    } else {
      batch := Some(SourceBatch(upserts, deletes, offsets));
    }
  }

  /** The offset list handed to the writer: the batch's partitions in some order. */
  ghost predicate Enumerates(pairs: seq<(int, int)>, offsets: map<int, int>) {
    && (forall i, j :: 0 <= i < j < |pairs| ==> pairs[i].0 != pairs[j].0)
    && (forall i :: 0 <= i < |pairs| ==> pairs[i].0 in offsets && offsets[pairs[i].0] == pairs[i].1)
    && (forall p :: p in offsets ==> exists i :: 0 <= i < |pairs| && pairs[i].0 == p)
  }

  lemma {:induction false} PutOffsetsHit(before: map<(string, int), int>, source: string, pairs: seq<(int, int)>,
                                         i: nat)
    requires i < |pairs| && forall j, k :: 0 <= j < k < |pairs| ==> pairs[j].0 != pairs[k].0
    ensures (source, pairs[i].0) in PutOffsets(before, source, pairs)
    ensures PutOffsets(before, source, pairs)[(source, pairs[i].0)] == pairs[i].1
  {
    if i < |pairs| - 1 {
      PutOffsetsHit(before, source, pairs[..|pairs| - 1], i);
    }
  }

  lemma {:induction false} PutOffsetsMiss(before: map<(string, int), int>, source: string, pairs: seq<(int, int)>,
                                          at: (string, int))
    requires at.0 == source ==> forall i :: 0 <= i < |pairs| ==> pairs[i].0 != at.1
    ensures at in PutOffsets(before, source, pairs) <==> at in before
    ensures at in before ==> PutOffsets(before, source, pairs)[at] == before[at]
  {
    if pairs != [] {
      PutOffsetsMiss(before, source, pairs[..|pairs| - 1], at);
    }
  }

  /** The offsets a batch commits are, per partition, the last one delivered; other partitions and sources keep
      theirs. */
  lemma OffsetsCommitted(before: map<(string, int), int>, source: string, ds: seq<Delivery>, pairs: seq<(int, int)>,
                         at: (string, int))
    requires Enumerates(pairs, LastOffsets(ds))
    ensures var after := PutOffsets(before, source, pairs);
            if at.0 == source && at.1 in LastOffsets(ds) then at in after && after[at] == LastOffsets(ds)[at.1]
            else (at in after <==> at in before) && (at in after ==> after[at] == before[at])
  {
    var last := LastOffsets(ds);
    hide LastOffsets, PutOffsets;
    if at.0 == source && at.1 in last {
      var i :| 0 <= i < |pairs| && pairs[i].0 == at.1;
      PutOffsetsHit(before, source, pairs, i);
    } else {
      PutOffsetsMiss(before, source, pairs, at);
    }
  }

  // ----- one event at a time -----

  datatype Change = Put(row: Row) | Remove(k: string) | Nothing

  /** What one message asks of the table. A row without a key asks nothing. */
  function ChangeOf(m: Mapper, tenant: string, msg: Message): Change
    requires m.key in m.columns
  {
    var mapped := MapMessage(m, msg);
    if mapped.upserts != [] && KeyAt(mapped.upserts[0], Position(m.columns, m.key)).Some? then
      Put(RowOf(m.columns, mapped.upserts[0], tenant))
    else if mapped.deletes != [] then Remove(mapped.deletes[0])
    else Nothing
  }

  function Changes(m: Mapper, tenant: string, ds: seq<Delivery>): seq<Change>
    requires m.key in m.columns
  {
    if ds == [] then [] else Changes(m, tenant, ds[..|ds| - 1]) + [ChangeOf(m, tenant, ds[|ds| - 1].msg)]
  }

  function Puts(cs: seq<Change>): seq<Row> {
    if cs == [] then []
    else Puts(cs[..|cs| - 1]) + if cs[|cs| - 1].Put? then [cs[|cs| - 1].row] else []
  }

  function Removes(cs: seq<Change>): seq<string> {
    if cs == [] then []
    else Removes(cs[..|cs| - 1]) + if cs[|cs| - 1].Remove? then [cs[|cs| - 1].k] else []
  }

  /** A batch is applied as all of its upserts and then all of its deletes. */
  function ApplyChanges(key: string, table: seq<Row>, cs: seq<Change>, tenant: string): seq<Row> {
    DeleteAll(key, UpsertAll(key, table, Puts(cs)), Removes(cs), tenant)
  }

  function Step(key: string, table: seq<Row>, c: Change, tenant: string): seq<Row> {
    match c
    case Put(row) => UpsertOne(key, table, row)
    case Remove(k) => DeleteAll(key, table, [k], tenant)
    case Nothing => table
  }

  function Replay(key: string, table: seq<Row>, cs: seq<Change>, tenant: string): seq<Row> {
    if cs == [] then table else Step(key, Replay(key, table, cs[..|cs| - 1], tenant), cs[|cs| - 1], tenant)
  }

  lemma {:induction false} BatchChanges(m: Mapper, tenant: string, ds: seq<Delivery>)
    requires m.Valid()
    ensures Rectangular(m.columns, UpsertsOf(m, ds))
    ensures Upserts(m.columns, Position(m.columns, m.key), tenant, UpsertsOf(m, ds)) == Puts(Changes(m, tenant, ds))
    ensures DeletesOf(m, ds) == Removes(Changes(m, tenant, ds))
  {
    if ds == [] {
      return;
    }
    var front, last := ds[..|ds| - 1], ds[|ds| - 1];
    var cs, c := Changes(m, tenant, front), ChangeOf(m, tenant, last.msg);
    assert (cs + [c])[..|cs + [c]| - 1] == cs;
    assert Changes(m, tenant, ds) == cs + [c];
    var mapped := MapMessage(m, last.msg);
    OneChange(m, last.msg);
    assert mapped.upserts == [] || mapped.upserts == [mapped.upserts[0]];
    assert mapped.deletes == [] || mapped.deletes == [mapped.deletes[0]];
    hide MapMessage, Upserts, RowOf, KeyAt, Position;
    BatchChanges(m, tenant, front);
    assert Puts(cs) + [] == Puts(cs) && Removes(cs) + [] == Removes(cs)
           && DeletesOf(m, front) + [] == DeletesOf(m, front);
    if mapped.upserts != [] {
      UpsertsSnoc(m.columns, Position(m.columns, m.key), tenant, UpsertsOf(m, front), mapped.upserts[0]);
    } else {
      assert UpsertsOf(m, front) + [] == UpsertsOf(m, front);
    }
  }

  /** A message carries at most one change. */
  lemma OneChange(m: Mapper, msg: Message)
    ensures |MapMessage(m, msg).upserts| + |MapMessage(m, msg).deletes| <= 1
    ensures Rectangular(m.columns, MapMessage(m, msg).upserts)
  {
    hide RowFromJson, TextOf;
  }

  /** What the writer's transaction does with an accumulated batch, in terms of its messages. */
  lemma BatchApplied(m: Mapper, tenant: string, ds: seq<Delivery>, table: seq<Row>)
    requires m.Valid()
    ensures DeleteAll(m.key, Upserted(table, m.columns, m.key, tenant, UpsertsOf(m, ds)), DeletesOf(m, ds), tenant)
            == ApplyChanges(m.key, table, Changes(m, tenant, ds), tenant)
  {
    BatchChanges(m, tenant, ds);
    hide UpsertAll, DeleteAll, Upserts, Puts, Removes, Changes, UpsertsOf, DeletesOf;
  }

  // ----- what a look-up sees -----

  /** Rows of one tenant, all with the batch's columns. */
  ghost predicate Owned(key: string, columns: set<string>, tenant: string, rows: seq<Row>) {
    SourceRows(key, columns, rows) && forall s :: s in rows ==> Stamped(tenant, s)
  }

  ghost predicate WellFormed(key: string, columns: set<string>, tenant: string, c: Change) {
    c.Put? ==> SourceRow(key, columns, c.row) && Stamped(tenant, c.row)
  }

  lemma ChangeWellFormed(m: Mapper, tenant: string, msg: Message)
    requires m.Valid()
    ensures WellFormed(m.key, AllColumns(m.columns), tenant, ChangeOf(m, tenant, msg))
  {
    var mapped, keyIdx := MapMessage(m, msg), Position(m.columns, m.key);
    if mapped.upserts != [] && KeyAt(mapped.upserts[0], keyIdx).Some? {
      RowKey(m.columns, keyIdx, mapped.upserts[0], tenant);
      RowOfIs(m.columns, mapped.upserts[0], tenant);
    }
  }

  predicate Touches(key: string, c: Change, k: string) {
    (c.Put? && Cell(c.row, key) == Text(k)) || c == Remove(k)
  }

  function LastOn(key: string, cs: seq<Change>, k: string): Option<Change> {
    if cs == [] then None
    else if Touches(key, cs[|cs| - 1], k) then Some(cs[|cs| - 1])
    else LastOn(key, cs[..|cs| - 1], k)
  }

  function Lookup(key: string, table: seq<Row>, k: string): Option<Row> {
    Find(key, table, Text(k))
  }

  /** What is stored under a key whose last event is `last`, when `before` was stored. */
  function Outcome(before: Option<Row>, last: Option<Change>): Option<Row> {
    if last.None? then before else if last.value.Put? then Some(last.value.row) else None
  }

  lemma UpsertOwned(key: string, columns: set<string>, tenant: string, table: seq<Row>, row: Row)
    requires Owned(key, columns, tenant, table) && SourceRow(key, columns, row) && Stamped(tenant, row)
    ensures Owned(key, columns, tenant, UpsertOne(key, table, row))
  {
    UpsertKeepsSource(key, columns, table, row);
    UpsertKeepsStamp(key, table, row, tenant);
  }

  lemma DeleteOwned(key: string, columns: set<string>, tenant: string, table: seq<Row>, keys: seq<string>)
    requires Owned(key, columns, tenant, table)
    ensures Owned(key, columns, tenant, DeleteAll(key, table, keys, tenant))
  {
    FilterHas(Kept(key, keys, tenant), table);
    var left := DeleteAll(key, table, keys, tenant);
    assert left == Filter(Kept(key, keys, tenant), table);
    hide Filter, SourceRow, Stamped, Kept;
    forall i | 0 <= i < |left|
      ensures SourceRow(key, columns, left[i])
    {
      assert left[i] in left;
      var j :| 0 <= j < |table| && table[j] == left[i];
    }
  }

  lemma {:induction false} LookupReplay(key: string, columns: set<string>, tenant: string, table: seq<Row>,
                                        cs: seq<Change>, k: string)
    requires Owned(key, columns, tenant, table)
    requires forall i :: 0 <= i < |cs| ==> WellFormed(key, columns, tenant, cs[i])
    ensures Owned(key, columns, tenant, Replay(key, table, cs, tenant))
    ensures Lookup(key, Replay(key, table, cs, tenant), k) == Outcome(Lookup(key, table, k), LastOn(key, cs, k))
  {
    if cs == [] {
      return;
    }
    var front, last := cs[..|cs| - 1], cs[|cs| - 1];
    LookupReplay(key, columns, tenant, table, front, k);
    var before := Replay(key, table, front, tenant);
    assert WellFormed(key, columns, tenant, last);
    hide UpsertOne, DeleteAll, Find, Stamped, SourceRow, SourceRows;
    match last
    case Put(row) =>
      UpsertOwned(key, columns, tenant, before, row);
      FindReplacedElse(key, columns, before, row, k);
    case Remove(x) =>
      DeleteOwned(key, columns, tenant, before, [x]);
      StampedOf(tenant, before);
      FindDeleted(key, before, [x], tenant, k);
    case Nothing =>
  }

  lemma FindReplacedElse(key: string, columns: set<string>, table: seq<Row>, row: Row, k: string)
    requires SourceRow(key, columns, row) && SourceRows(key, columns, table)
    ensures Find(key, UpsertOne(key, table, row), Text(k)) == if Cell(row, key) == Text(k) then Some(row)
            else Find(key, table, Text(k))
  {
    FindReplaced(key, columns, table, row);
    FindUpserted(key, table, row, Text(k));
    hide UpsertOne, Find, SourceRows;
  }

  lemma StampedOf(tenant: string, rows: seq<Row>)
    requires forall s :: s in rows ==> Stamped(tenant, s)
    ensures forall s :: s in rows ==> OfTenant(tenant)(s)
  {
  }

  /** The last of the batch's rows for a key. */
  function LastRow(key: string, rows: seq<Row>, k: string): Option<Row> {
    if rows == [] then None
    else if Cell(rows[|rows| - 1], key) == Text(k) then Some(rows[|rows| - 1])
    else LastRow(key, rows[..|rows| - 1], k)
  }

  lemma {:induction false} LookupUpserts(key: string, columns: set<string>, tenant: string, table: seq<Row>,
                                         rows: seq<Row>, k: string)
    requires Owned(key, columns, tenant, table) && Owned(key, columns, tenant, rows)
    ensures Owned(key, columns, tenant, UpsertAll(key, table, rows))
    ensures Lookup(key, UpsertAll(key, table, rows), k)
            == if LastRow(key, rows, k).Some? then LastRow(key, rows, k) else Lookup(key, table, k)
  {
    if rows == [] {
      return;
    }
    var front, last := rows[..|rows| - 1], rows[|rows| - 1];
    assert last in rows && SourceRow(key, columns, rows[|rows| - 1]);
    assert forall s :: s in front ==> s in rows;
    LookupUpserts(key, columns, tenant, table, front, k);
    hide UpsertOne, Find, Stamped, SourceRow, SourceRows;
    UpsertOwned(key, columns, tenant, UpsertAll(key, table, front), last);
    FindReplacedElse(key, columns, UpsertAll(key, table, front), last, k);
  }

  lemma {:induction false} PutsOwned(key: string, columns: set<string>, tenant: string, cs: seq<Change>)
    requires forall i :: 0 <= i < |cs| ==> WellFormed(key, columns, tenant, cs[i])
    ensures Owned(key, columns, tenant, Puts(cs))
  {
    if cs != [] {
      PutsOwned(key, columns, tenant, cs[..|cs| - 1]);
      assert WellFormed(key, columns, tenant, cs[|cs| - 1]);
      hide SourceRow, Stamped;
    }
  }

  /** Without a delete of the key, the batch's last row for it is its last event. */
  lemma {:induction false} LastRowIs(key: string, cs: seq<Change>, k: string)
    ensures k in Removes(cs) || LastOn(key, cs, k) == if LastRow(key, Puts(cs), k).Some?
            then Some(Put(LastRow(key, Puts(cs), k).value)) else None
    ensures k in Removes(cs) ==> LastOn(key, cs, k).Some?
  {
    if cs == [] {
      return;
    }
    var front, last := cs[..|cs| - 1], cs[|cs| - 1];
    LastRowIs(key, front, k);
    if last.Put? {
      assert Puts(cs)[..|Puts(cs)| - 1] == Puts(front);
      assert Removes(cs) == Removes(front) + [];
      return;
    }
    assert Puts(cs) == Puts(front) + [] == Puts(front);
    assert Removes(cs) == Removes(front) + if last.Remove? then [last.k] else [];
    hide Puts, Removes, LastRow;
    if last.Remove? && last.k != k {
      assert k in Removes(cs) <==> k in Removes(front);
    } else if last.Remove? {
      assert last.k in [last.k] && k in Removes(cs);
    }
  }

  lemma LookupApply(key: string, columns: set<string>, tenant: string, table: seq<Row>, cs: seq<Change>, k: string)
    requires Owned(key, columns, tenant, table)
    requires forall i :: 0 <= i < |cs| ==> WellFormed(key, columns, tenant, cs[i])
    ensures Owned(key, columns, tenant, ApplyChanges(key, table, cs, tenant))
    ensures Lookup(key, ApplyChanges(key, table, cs, tenant), k)
            == if k in Removes(cs) then None else Outcome(Lookup(key, table, k), LastOn(key, cs, k))
  {
    PutsOwned(key, columns, tenant, cs);
    var mid := UpsertAll(key, table, Puts(cs));
    LookupUpserts(key, columns, tenant, table, Puts(cs), k);
    DeleteOwned(key, columns, tenant, mid, Removes(cs));
    StampedOf(tenant, mid);
    FindDeleted(key, mid, Removes(cs), tenant, k);
    LastRowIs(key, cs, k);
    hide UpsertAll, DeleteAll, Find, Puts, Removes, LastOn, LastRow, Owned;
  }

  /** No key is written again after it is deleted: each deleted key's last event is a delete. */
  ghost predicate NoReinsert(key: string, cs: seq<Change>) {
    forall k :: k in Removes(cs) ==> LastOn(key, cs, k) == Some(Remove(k))
  }

  /** A batch leaves every key as replaying its events in order would, exactly when it re-inserts no key. */
  lemma BatchIsReplayIff(key: string, columns: set<string>, tenant: string, table: seq<Row>, cs: seq<Change>)
    requires Owned(key, columns, tenant, table)
    requires forall i :: 0 <= i < |cs| ==> WellFormed(key, columns, tenant, cs[i])
    ensures (forall k :: Lookup(key, ApplyChanges(key, table, cs, tenant), k)
              == Lookup(key, Replay(key, table, cs, tenant), k))
            <==> NoReinsert(key, cs)
  {
    forall k
      ensures Lookup(key, ApplyChanges(key, table, cs, tenant), k) == Lookup(key, Replay(key, table, cs, tenant), k)
              <==> (k in Removes(cs) ==> LastOn(key, cs, k) == Some(Remove(k)))
    {
      LookupApply(key, columns, tenant, table, cs, k);
      LookupReplay(key, columns, tenant, table, cs, k);
      LastRowIs(key, cs, k);
      LastTouches(key, cs, k);
      hide ApplyChanges, Replay, Lookup, Removes, LastOn, Owned, WellFormed;
    }
  }

  lemma {:induction false} LastTouches(key: string, cs: seq<Change>, k: string)
    ensures LastOn(key, cs, k).Some? ==> Touches(key, LastOn(key, cs, k).value, k) && LastOn(key, cs, k).value in cs
  {
    if cs != [] && !Touches(key, cs[|cs| - 1], k) {
      LastTouches(key, cs[..|cs| - 1], k);
    }
  }

  /** Delete, then insert, of one key in one batch: replay keeps the new row and the batch loses it. */
  lemma ReinsertLost(key: string, tenant: string, row: Row)
    requires key != "tenant_id" && row == map[key := Text("7"), "tenant_id" := Text(tenant)]
    ensures var cs := [Remove("7"), Put(row)];
            Lookup(key, Replay(key, [], cs, tenant), "7") == Some(row)
                   && Lookup(key, ApplyChanges(key, [], cs, tenant), "7") == None
  {
    var cs := [Remove("7"), Put(row)];
    assert cs[..1] == [Remove("7")] && cs[..1][..0] == [];
    assert Removes(cs[..1]) == ["7"] && Removes(cs) == ["7"];
    assert LastOn(key, cs, "7") == Some(Put(row));
    LookupReplay(key, row.Keys, tenant, [], cs, "7");
    LookupApply(key, row.Keys, tenant, [], cs, "7");
  }
}
