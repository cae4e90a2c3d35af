/** The single writer's micro-batcher: buffers keyed by (tenant, system, entity), and what becomes of every row sent. */
module MicroBatch {
  import opened Sequences
  import opened Values
  import opened Ast
  import opened Sql
  import opened RawWriter
  import opened Chunks

  datatype BufferKey = BufferKey(tenant: string, system: string, entity: string)

  datatype PendingBatch = PendingBatch(columns: seq<string>, rows: seq<Cells>, tenant: string, since: nat)

  /** A row of a raw table, with the names it was inserted under. */
  datatype Entry = Entry(key: BufferKey, columns: seq<string>, cells: Cells)

  function TableOf(k: BufferKey): Dataset {
    Dataset(k.system, k.entity)
  }

  /** What `ingest_raw` checks before it touches the catalogue. */
  predicate Accepts(k: BufferKey, columns: seq<string>) {
    columns != [] && (forall c :: c in columns ==> ValidIdent(c)) && ValidTable(TableOf(k))
  }

  function ToEntry(k: BufferKey, columns: seq<string>): Cells -> Entry {
    c => Entry(k, columns, c)
  }

  function Entries(k: BufferKey, columns: seq<string>, rows: seq<Cells>): seq<Entry> {
    Map(ToEntry(k, columns), rows)
  }

  function CellOf(v: Value): Option<string> {
    if v.Text? then Some(v.s) else None
  }

  /** A row of values that landed in a table, read back under the batch's names and the tenant it was stamped with. */
  function EntryOf(k: BufferKey, columns: seq<string>): seq<Value> -> Entry {
    (vs: seq<Value>) =>
      if |vs| == |columns| + 1 && vs[|columns|].Text? then
        Entry(BufferKey(vs[|columns|].s, k.system, k.entity), columns, Map(CellOf, vs[..|columns|]))
      else
        Entry(k, columns, [])
  }

  lemma CellsBack(cells: Cells)
    ensures Map(CellOf, Map(CellValue, cells)) == cells
  {
    forall i | 0 <= i < |cells|
      ensures Map(CellOf, Map(CellValue, cells))[i] == cells[i]
    {
      MapAt(CellValue, cells, i);
      MapAt(CellOf, Map(CellValue, cells), i);
    }
    hide Map;
  }

  lemma EntryBack(k: BufferKey, columns: seq<string>, cells: Cells)
    requires |cells| == |columns|
    ensures EntryOf(k, columns)(BindCells(k.tenant)(cells)) == Entry(k, columns, cells)
  {
    CellsBack(cells);
    var vs := BindCells(k.tenant)(cells);
    assert vs[..|columns|] == Map(CellValue, cells) && vs[|columns|] == Text(k.tenant);
    hide Map;
  }

  ghost predicate AsWide(columns: seq<string>, rows: seq<Cells>) {
    forall c :: c in rows ==> |c| == |columns|
  }

  /** Rows as wide as their columns land as they were sent. */
  lemma EntriesLand(k: BufferKey, columns: seq<string>, rows: seq<Cells>)
    requires AsWide(columns, rows)
    ensures Map(EntryOf(k, columns), Map(BindCells(k.tenant), rows)) == Entries(k, columns, rows)
  {
    forall c | c in rows
      ensures EntryOf(k, columns)(BindCells(k.tenant)(c)) == ToEntry(k, columns)(c)
    {
      EntryBack(k, columns, c);
    }
    MapMap(EntryOf(k, columns), BindCells(k.tenant), ToEntry(k, columns), rows);
  }

  function OfKey(k: BufferKey): Entry -> bool {
    (e: Entry) => e.key == k
  }

  /** The rows of `k` whose names are valid. */
  function GoodOf(k: BufferKey): Entry -> bool {
    (e: Entry) => e.key == k && Accepts(e.key, e.columns)
  }

  function Buffer(pending: map<BufferKey, PendingBatch>, k: BufferKey): seq<Entry> {
    if k in pending then Entries(k, pending[k].columns, pending[k].rows) else []
  }

  // ----- the books -----

  /** Nothing appears or disappears: what `k` received is in its table, lost, or in its buffer. */
  ghost predicate Balanced(received: seq<Entry>, log: seq<Entry>, lost: seq<Entry>,
                           pending: map<BufferKey, PendingBatch>, k: BufferKey) {
    multiset(Filter(OfKey(k), received))
    == multiset(Filter(OfKey(k), log)) + multiset(Filter(OfKey(k), lost)) + multiset(Buffer(pending, k))
  }

  /** The table's rows followed by the buffered ones are the well-named rows received, in order of arrival. */
  ghost predicate InOrder(received: seq<Entry>, log: seq<Entry>, pending: map<BufferKey, PendingBatch>, k: BufferKey) {
    Filter(GoodOf(k), received) == Filter(OfKey(k), log) + Filter(GoodOf(k), Buffer(pending, k))
  }

  lemma {:induction false} EntriesOfKey(k0: BufferKey, columns: seq<string>, rows: seq<Cells>, k: BufferKey)
    ensures Filter(OfKey(k), Entries(k0, columns, rows)) == if k == k0 then Entries(k0, columns, rows) else []
    ensures Filter(GoodOf(k), Entries(k0, columns, rows)) == if k == k0 && Accepts(k0, columns)
            then Entries(k0, columns, rows) else []
  {
    var es := Entries(k0, columns, rows);
    forall e | e in es
      ensures e.key == k0 && e.columns == columns
    {
      MapHas(ToEntry(k0, columns), rows);
    }
    hide Accepts, Entries;
    if k == k0 {
      FilterAll(OfKey(k), es);
    } else {
      FilterNone(OfKey(k), es);
    }
    if k == k0 && Accepts(k0, columns) {
      FilterAll(GoodOf(k), es);
    } else {
      FilterNone(GoodOf(k), es);
    }
  }

  lemma EntriesAppend(k: BufferKey, columns: seq<string>, a: seq<Cells>, b: seq<Cells>)
    ensures Entries(k, columns, a + b) == Entries(k, columns, a) + Entries(k, columns, b)
  {
    MapAppend(ToEntry(k, columns), a, b);
  }

  /** Selecting a key's rows from a list that a batch has joined. */
  lemma Joined(s: seq<Entry>, k0: BufferKey, columns: seq<string>, rows: seq<Cells>, k: BufferKey)
    ensures Filter(OfKey(k), s + Entries(k0, columns, rows))
            == if k == k0 then Filter(OfKey(k), s) + Entries(k0, columns, rows) else Filter(OfKey(k), s)
    ensures Filter(GoodOf(k), s + Entries(k0, columns, rows))
            == if k == k0 && Accepts(k0, columns) then Filter(GoodOf(k), s) + Entries(k0, columns, rows)
              else Filter(GoodOf(k), s)
  {
    EntriesOfKey(k0, columns, rows, k);
    FilterAppend(OfKey(k), s, Entries(k0, columns, rows));
    FilterAppend(GoodOf(k), s, Entries(k0, columns, rows));
    hide *;
    assert Filter(OfKey(k), s) + [] == Filter(OfKey(k), s);
    assert Filter(GoodOf(k), s) + [] == Filter(GoodOf(k), s);
  }

  lemma GoodBuffer(pending: map<BufferKey, PendingBatch>, k: BufferKey)
    ensures Filter(GoodOf(k), Buffer(pending, k)) == if k in pending && Accepts(k, pending[k].columns)
            then Buffer(pending, k) else []
  {
    if k in pending {
      EntriesOfKey(k, pending[k].columns, pending[k].rows, k);
    }
  }

  lemma Joining(pending: map<BufferKey, PendingBatch>, k0: BufferKey, batch: PendingBatch, rows: seq<Cells>,
                k: BufferKey)
    requires k0 in pending ==> pending[k0].columns == batch.columns
    requires batch.rows == (if k0 in pending then pending[k0].rows else []) + rows
    ensures Buffer(pending[k0 := batch], k) == if k == k0 then Buffer(pending, k) + Entries(k0, batch.columns, rows)
            else Buffer(pending, k)
  {
    EntriesAppend(k0, batch.columns, if k0 in pending then pending[k0].rows else [], rows);
    assert Entries(k0, batch.columns, []) == [];
  }

  /** Rows that arrive join the end of their buffer. */
  lemma ReceiveBalances(received: seq<Entry>, log: seq<Entry>, lost: seq<Entry>, pending: map<BufferKey, PendingBatch>,
                        k0: BufferKey, batch: PendingBatch, rows: seq<Cells>, k: BufferKey)
    requires Balanced(received, log, lost, pending, k)
    requires k0 in pending ==> pending[k0].columns == batch.columns
    requires batch.rows == (if k0 in pending then pending[k0].rows else []) + rows
    ensures Balanced(received + Entries(k0, batch.columns, rows), log, lost, pending[k0 := batch], k)
  {
    Joined(received, k0, batch.columns, rows, k);
    Joining(pending, k0, batch, rows, k);
    hide Filter, Entries, Accepts, Buffer, OfKey, GoodOf;
  }

  lemma ReceiveInOrder(received: seq<Entry>, log: seq<Entry>, pending: map<BufferKey, PendingBatch>,
                       k0: BufferKey, batch: PendingBatch, rows: seq<Cells>, k: BufferKey)
    requires InOrder(received, log, pending, k)
    requires k0 in pending ==> pending[k0].columns == batch.columns
    requires batch.rows == (if k0 in pending then pending[k0].rows else []) + rows
    ensures InOrder(received + Entries(k0, batch.columns, rows), log, pending[k0 := batch], k)
  {
    var es := Entries(k0, batch.columns, rows);
    Joined(received, k0, batch.columns, rows, k);
    GoodBuffer(pending, k);
    GoodBuffer(pending[k0 := batch], k);
    Joining(pending, k0, batch, rows, k);
    assert k !in pending ==> Buffer(pending, k) == [];
    hide Filter, Entries, Accepts, Buffer, OfKey, GoodOf;
    Assoc(Filter(OfKey(k), log), Buffer(pending, k), es);
    assert [] + es == es;
  }

  lemma Leaving(pending: map<BufferKey, PendingBatch>, k0: BufferKey, done: nat, k: BufferKey)
    requires k0 in pending && done <= |pending[k0].rows|
    ensures var b := pending[k0];
            Entries(k0, b.columns, b.rows) == Entries(k0, b.columns, b.rows[..done])
                    + Entries(k0, b.columns, b.rows[done..])
    ensures Buffer(pending, k0) == Entries(k0, pending[k0].columns, pending[k0].rows)
            && Buffer(pending - {k0}, k0) == []
    ensures k != k0 ==> Buffer(pending - {k0}, k) == Buffer(pending, k)
    ensures done == 0 ==> Entries(k0, pending[k0].columns, pending[k0].rows[..done]) == []
    ensures done == |pending[k0].rows| ==> pending[k0].rows[..done] == pending[k0].rows
  {
    var b := pending[k0];
    EntriesAppend(k0, b.columns, b.rows[..done], b.rows[done..]);
    assert b.rows[..done] + b.rows[done..] == b.rows;
  }

  lemma Moved<T>(received: seq<T>, log: seq<T>, lost: seq<T>, buffer: seq<T>, kept: seq<T>, dropped: seq<T>)
    requires multiset(received) == multiset(log) + multiset(lost) + multiset(buffer) && buffer == kept + dropped
    ensures multiset(received) == multiset(log + kept) + multiset(lost + dropped) + multiset([])
  {
  }

  /** A flush moves a buffer: its first `done` rows to the table, the rest to the lost. */
  lemma FlushBalances(received: seq<Entry>, log: seq<Entry>, lost: seq<Entry>, pending: map<BufferKey, PendingBatch>,
                      k0: BufferKey, done: nat, k: BufferKey)
    requires Balanced(received, log, lost, pending, k)
    requires k0 in pending && done <= |pending[k0].rows|
    ensures var b := pending[k0];
            Balanced(received, log + Entries(k0, b.columns, b.rows[..done]),
                     lost + Entries(k0, b.columns, b.rows[done..]), pending - {k0}, k)
  {
    var b := pending[k0];
    var kept, dropped := Entries(k0, b.columns, b.rows[..done]), Entries(k0, b.columns, b.rows[done..]);
    Leaving(pending, k0, done, k);
    Joined(log, k0, b.columns, b.rows[..done], k);
    Joined(lost, k0, b.columns, b.rows[done..], k);
    hide Filter, Entries, Accepts, Buffer, OfKey, GoodOf;
    if k == k0 {
      Moved(Filter(OfKey(k), received), Filter(OfKey(k), log), Filter(OfKey(k), lost), Buffer(pending, k), kept,
            dropped);
    }
  }

  lemma FlushInOrder(received: seq<Entry>, log: seq<Entry>, pending: map<BufferKey, PendingBatch>, k0: BufferKey,
                     done: nat, k: BufferKey)
    requires InOrder(received, log, pending, k) && k0 in pending
    requires done == if Accepts(k0, pending[k0].columns) then |pending[k0].rows| else 0
    ensures var b := pending[k0];
            InOrder(received, log + Entries(k0, b.columns, b.rows[..done]), pending - {k0}, k)
  {
    var b := pending[k0];
    var was, kept := Filter(OfKey(k), log), Entries(k0, b.columns, b.rows[..done]);
    Leaving(pending, k0, done, k);
    Joined(log, k0, b.columns, b.rows[..done], k);
    GoodBuffer(pending, k);
    GoodBuffer(pending - {k0}, k);
    hide Filter, Entries, Accepts, Buffer, OfKey, GoodOf;
    if k == k0 {
      assert was + [] == was && (was + kept) + [] == was + kept;
    }
  }

  /** The whole state of the books. */
  datatype Ledger = Ledger(received: seq<Entry>, log: seq<Entry>, lost: seq<Entry>,
                           pending: map<BufferKey, PendingBatch>,
                           known: set<Dataset>, faulted: bool)

  /** Every row is as wide as the columns it was sent with. */
  ghost predicate Aligned(entries: seq<Entry>) {
    forall e :: e in entries ==> |e.cells| == |e.columns|
  }

  /** The books are kept of what was sent aligned: of other rows nothing is promised. */
  ghost predicate Kept(l: Ledger) {
    && (forall k :: k in l.pending ==> l.pending[k].tenant == k.tenant)
    && (Aligned(l.received) ==> Sound(l))
  }

  ghost predicate Sound(l: Ledger) {
    && (forall k :: Balanced(l.received, l.log, l.lost, l.pending, k))
    && (!l.faulted ==> forall k :: InOrder(l.received, l.log, l.pending, k))
    && (forall e :: e in l.log ==> Accepts(e.key, e.columns))
    && (!l.faulted ==> forall e :: e in l.lost ==> !Accepts(e.key, e.columns))
    && (!l.faulted ==> forall e :: e in l.log ==> TableOf(e.key) in l.known)
  }

  lemma ReceiveSound(l: Ledger, k0: BufferKey, batch: PendingBatch, rows: seq<Cells>)
    requires Sound(l)
    requires k0 in l.pending ==> l.pending[k0].columns == batch.columns
    requires batch.rows == (if k0 in l.pending then l.pending[k0].rows else []) + rows
    ensures Sound(l.(received := l.received + Entries(k0, batch.columns, rows), pending := l.pending[k0 := batch]))
  {
    hide Entries, Accepts, Balanced, InOrder;
    var received, pending := l.received + Entries(k0, batch.columns, rows), l.pending[k0 := batch];
    forall k
      ensures Balanced(received, l.log, l.lost, pending, k)
    {
      ReceiveBalances(l.received, l.log, l.lost, l.pending, k0, batch, rows, k);
    }
    forall k | !l.faulted
      ensures InOrder(received, l.log, pending, k)
    {
      ReceiveInOrder(l.received, l.log, l.pending, k0, batch, rows, k);
    }
  }

  lemma ReceiveKept(l: Ledger, k0: BufferKey, batch: PendingBatch, rows: seq<Cells>)
    requires Kept(l) && batch.tenant == k0.tenant
    requires k0 in l.pending ==> l.pending[k0].columns == batch.columns
    requires batch.rows == (if k0 in l.pending then l.pending[k0].rows else []) + rows
    ensures Kept(l.(received := l.received + Entries(k0, batch.columns, rows), pending := l.pending[k0 := batch]))
  {
    var received := l.received + Entries(k0, batch.columns, rows);
    hide Sound, Entries;
    if Aligned(received) {
      assert forall e :: e in l.received ==> e in received;
      ReceiveSound(l, k0, batch, rows);
    }
  }

  /** A flush that stores `done` rows keeps the books, whether the engine fails it or validation does. */
  lemma FlushSound(l: Ledger, k0: BufferKey, done: nat, known: set<Dataset>, faulted: bool)
    requires Sound(l) && k0 in l.pending && done <= |l.pending[k0].rows| && (l.faulted ==> faulted) && l.known <= known
    requires !Accepts(k0, l.pending[k0].columns) ==> done == 0
    requires !faulted ==> done == (if Accepts(k0, l.pending[k0].columns) then |l.pending[k0].rows| else 0)
    requires !faulted && Accepts(k0, l.pending[k0].columns) ==> TableOf(k0) in known
    ensures var b := l.pending[k0];
            Sound(Ledger(l.received, l.log + Entries(k0, b.columns, b.rows[..done]),
                  l.lost + Entries(k0, b.columns, b.rows[done..]),
                        l.pending - {k0}, known, faulted))
  {
    var b := l.pending[k0];
    AllNamed(k0, b.columns, b.rows[..done]);
    AllNamed(k0, b.columns, b.rows[done..]);
    Leaving(l.pending, k0, done, k0);
    assert done == |b.rows| ==> Entries(k0, b.columns, b.rows[done..]) == [];
    hide Entries, Accepts, Balanced, InOrder;
    var kept, dropped := Entries(k0, b.columns, b.rows[..done]), Entries(k0, b.columns, b.rows[done..]);
    var log, lost, pending := l.log + kept, l.lost + dropped, l.pending - {k0};
    forall k
      ensures Balanced(l.received, log, lost, pending, k)
    {
      FlushBalances(l.received, l.log, l.lost, l.pending, k0, done, k);
    }
    forall k | !faulted
      ensures InOrder(l.received, log, pending, k)
    {
      FlushInOrder(l.received, l.log, l.pending, k0, done, k);
    }
    forall e | e in l.log + kept
      ensures Accepts(e.key, e.columns) && (!faulted ==> TableOf(e.key) in known)
    {
      assert e in l.log || e in kept;
    }
    forall e | e in l.lost + dropped && !faulted
      ensures !Accepts(e.key, e.columns)
    {
      assert e in l.lost || e in dropped;
    }
  }

  /** What waits in a buffer was received. */
  lemma BufferAligned(l: Ledger, k0: BufferKey)
    requires Sound(l) && Aligned(l.received) && k0 in l.pending
    ensures AsWide(l.pending[k0].columns, l.pending[k0].rows)
  {
    var b := l.pending[k0];
    assert Balanced(l.received, l.log, l.lost, l.pending, k0);
    FilterHas(OfKey(k0), l.received);
    MapHas(ToEntry(k0, b.columns), b.rows);
    hide Filter, Map;
    forall c | c in b.rows
      ensures |c| == |b.columns|
    {
      var e := ToEntry(k0, b.columns)(c);
      assert e in Buffer(l.pending, k0);
      assert e in multiset(Buffer(l.pending, k0));
      assert e in multiset(Filter(OfKey(k0), l.received));
      assert e in Filter(OfKey(k0), l.received);
    }
  }

  /** A flush keeps the books, if what it added to the log is what it was given, wherever that is aligned. */
  lemma FlushKept(l: Ledger, k0: BufferKey, done: nat, log: seq<Entry>, known: set<Dataset>, faulted: bool)
    requires Kept(l) && k0 in l.pending && done <= |l.pending[k0].rows| && (l.faulted ==> faulted) && l.known <= known
    requires !Accepts(k0, l.pending[k0].columns) ==> done == 0
    requires !faulted ==> done == (if Accepts(k0, l.pending[k0].columns) then |l.pending[k0].rows| else 0)
    requires !faulted && Accepts(k0, l.pending[k0].columns) ==> TableOf(k0) in known
    requires AsWide(l.pending[k0].columns, l.pending[k0].rows)
             ==> log == l.log + Entries(k0, l.pending[k0].columns, l.pending[k0].rows[..done])
    ensures var b := l.pending[k0];
            Kept(Ledger(l.received, log, l.lost + Entries(k0, b.columns, b.rows[done..]), l.pending - {k0}, known,
                 faulted))
  {
    hide Sound, Entries, Accepts, AsWide;
    if Aligned(l.received) {
      BufferAligned(l, k0);
      FlushSound(l, k0, done, known, faulted);
    }
  }

  // ----- the tables -----

  /** An entry as its table holds it: its cells and its key's tenant. */
  function EntryRow(): Entry -> Row {
    (e: Entry) => RowOf(e.columns, e.cells, e.key.tenant)
  }

  function InTable(name: string): Entry -> bool {
    (e: Entry) => RawTable(TableOf(e.key)) == name
  }

  /** The rows of one table among some entries. */
  function RowsFor(name: string, es: seq<Entry>): seq<Row> {
    Map(EntryRow(), Filter(InTable(name), es))
  }

  /** Every table is as it was, followed by its rows among the entries. */
  ghost predicate Gained(before: RawTables, es: seq<Entry>, after: RawTables) {
    forall name :: TableRows(after, name) == TableRows(before, name) + RowsFor(name, es)
  }

  /** The log and the tables have grown by the same entries. */
  ghost predicate Grown(log: seq<Entry>, tables: RawTables, log': seq<Entry>, tables': RawTables) {
    log <= log' && Gained(tables, log'[|log|..], tables')
  }

  lemma RowsForAppend(name: string, a: seq<Entry>, b: seq<Entry>)
    ensures RowsFor(name, a + b) == RowsFor(name, a) + RowsFor(name, b)
  {
    FilterAppend(InTable(name), a, b);
    MapAppend(EntryRow(), Filter(InTable(name), a), Filter(InTable(name), b));
  }

  lemma GrownNot(log: seq<Entry>, tables: RawTables)
    ensures Grown(log, tables, log, tables)
  {
    assert log[|log|..] == [];
    forall name
      ensures TableRows(tables, name) == TableRows(tables, name) + RowsFor(name, [])
    {
      assert RowsFor(name, []) == [];
    }
  }

  lemma GrownTwice(log1: seq<Entry>, tables1: RawTables, log2: seq<Entry>, tables2: RawTables, log3: seq<Entry>,
                   tables3: RawTables)
    requires Grown(log1, tables1, log2, tables2) && Grown(log2, tables2, log3, tables3)
    ensures Grown(log1, tables1, log3, tables3)
  {
    var first, second := log2[|log1|..], log3[|log2|..];
    assert log3[|log1|..] == first + second;
    forall name
      ensures TableRows(tables3, name) == TableRows(tables1, name) + RowsFor(name, first + second)
    {
      RowsForAppend(name, first, second);
      Assoc(TableRows(tables1, name), RowsFor(name, first), RowsFor(name, second));
    }
  }

  /** A batch's entries are rows of its own table, stamped with its own tenant. */
  lemma RowsForBatch(k: BufferKey, columns: seq<string>, rows: seq<Cells>, name: string)
    ensures RowsFor(name, Entries(k, columns, rows)) == if name == RawTable(TableOf(k))
            then RowsOf(columns, k.tenant, rows) else []
  {
    var es := Entries(k, columns, rows);
    AllNamed(k, columns, rows);
    if name != RawTable(TableOf(k)) {
      FilterNone(InTable(name), es);
      return;
    }
    FilterAll(InTable(name), es);
    MapMap(EntryRow(), ToEntry(k, columns), ToRow(columns, k.tenant), rows);
  }

  /** Appending a batch's rows to its table is gaining its entries. */
  lemma GainedBatch(before: RawTables, k: BufferKey, columns: seq<string>, rows: seq<Cells>, landed: seq<Row>)
    requires landed == RowsOf(columns, k.tenant, rows)
    ensures var name := RawTable(TableOf(k));
            Gained(before, Entries(k, columns, rows), before[name := TableRows(before, name) + landed])
  {
    var own := RawTable(TableOf(k));
    var after := before[own := TableRows(before, own) + landed];
    hide RawTable, Entries, RowsOf, RowsFor;
    forall name
      ensures TableRows(after, name) == TableRows(before, name) + RowsFor(name, Entries(k, columns, rows))
    {
      RowsForBatch(k, columns, rows, name);
    }
  }

  // ----- the actor -----

  /** `Write` is a write to a table of another kind, and `Read` a command that writes nothing. */
  datatype Cmd =
    | Ingest(key: BufferKey, columns: seq<string>, rows: seq<Cells>)
    | CompactAll
    | UpsertRaw(tenant: string, d: Dataset, columns: seq<string>, keyColumn: string, rows: seq<Cells>)
    | DeleteRaw(tenant: string, d: Dataset, keyColumn: string, keys: seq<string>)
    | ApplyCdc(tenant: string, d: Dataset, columns: seq<string>, keyColumn: string, rows: seq<Cells>, keys: seq<string>,
               offsets: seq<(int, int)>)
    | Write(tenant: string)
    | Read
    | Shutdown
  {
    /** A write to a raw table that is not buffered. */
    predicate Keyed() {
      UpsertRaw? || DeleteRaw? || ApplyCdc?
    }
  }

  datatype Wake = Command(cmd: Cmd) | Timeout | Disconnected

  /** The rows a wake-up brings. */
  function Sent(w: Wake): seq<Entry> {
    if w.Command? && w.cmd.Ingest? then Entries(w.cmd.key, w.cmd.columns, w.cmd.rows) else []
  }

  function AllSent(ws: seq<Wake>): seq<Entry> {
    if ws == [] then [] else AllSent(ws[..|ws| - 1]) + Sent(ws[|ws| - 1])
  }

  /** The rows that statements leave in a table with these columns and the tenant's. */
  function LandedRows(columns: seq<string>, statements: seq<Chunks.Statement<Cells>>): seq<Row> {
    Map(NamedRow(columns + ["tenant_id"]), Landed(statements, |columns| + 1))
  }

  lemma StatementsLand(k: BufferKey, columns: seq<string>, inserted: seq<Cells>,
                       statements: seq<Chunks.Statement<Cells>>)
    requires AsWide(columns, inserted) && RowsIn(statements) == inserted
    requires forall i :: 0 <= i < |statements| ==> WellFormed(statements[i], |columns| + 1, BindCells(k.tenant))
    ensures Map(EntryOf(k, columns), Landed(statements, |columns| + 1)) == Entries(k, columns, inserted)
    ensures LandedRows(columns, statements) == RowsOf(columns, k.tenant, inserted)
  {
    var bind := BindCells(k.tenant);
    forall c | c in RowsIn(statements)
      ensures |bind(c)| == |columns| + 1
    {
    }
    assert Rectangular(columns, inserted);
    hide Map, Entries, Landed, RowsIn, Rectangular, RowsOf;
    LandsAligned(statements, |columns| + 1, bind);
    EntriesLand(k, columns, inserted);
    MapRows(columns, k.tenant, inserted);
  }

  lemma AlignedLand(k: BufferKey, columns: seq<string>, rows: seq<Cells>, statements: seq<Chunks.Statement<Cells>>)
    requires RowsIn(statements) <= rows
    requires forall i :: 0 <= i < |statements| ==> WellFormed(statements[i], |columns| + 1, BindCells(k.tenant))
    ensures AsWide(columns, rows) ==>
              && Map(EntryOf(k, columns), Landed(statements, |columns| + 1))
                == Entries(k, columns, rows[..|RowsIn(statements)|])
              && LandedRows(columns, statements) == RowsOf(columns, k.tenant, rows[..|RowsIn(statements)|])
  {
    if AsWide(columns, rows) {
      var inserted := RowsIn(statements);
      assert inserted == rows[..|inserted|];
      assert AsWide(columns, inserted);
      hide *;
      StatementsLand(k, columns, inserted, statements);
    }
  }

  /** The buffered rows that rows with these columns join; rows of another shape are flushed first. */
  function SameShape(pending: map<BufferKey, PendingBatch>, k: BufferKey, columns: seq<string>): seq<Cells> {
    if k in pending && pending[k].columns == columns then pending[k].rows else []
  }

  lemma SameShapeIs(before: map<BufferKey, PendingBatch>, between: map<BufferKey, PendingBatch>, k: BufferKey,
                    batch: PendingBatch, rows: seq<Cells>)
    requires between == if k in before && before[k].columns != batch.columns then before - {k} else before
    requires batch.rows == (if k in between then between[k].rows else []) + rows
    ensures batch.rows == SameShape(before, k, batch.columns) + rows
    ensures between[k := batch] - {k} == before - {k} && before - {k} - {k} == before - {k}
  {
  }

  class Actor {
    /** The rows of all raw tables in the order they were inserted. */
    var log: seq<Entry>
    var known: set<Dataset>
    const raw: Writer
    var pending: map<BufferKey, PendingBatch>
    const flushRows: nat
    const flushAge: nat
    /** Every row sent so far; every row dropped by a failed flush; whether the storage engine has failed. */
    ghost var received: seq<Entry>
    ghost var lost: seq<Entry>
    ghost var faulted: bool

    ghost function Books(): Ledger
      reads this
    {
      Ledger(received, log, lost, pending, known, faulted)
    }

    /** Between commands no buffer has reached the threshold, and none exists when buffering is off. */
    ghost predicate Valid()
      reads this
    {
      Kept(Books()) && forall k :: k in pending ==> |pending[k].rows| < flushRows
    }

    constructor (tenant: string, flushRows: nat, flushAge: nat)
      ensures Valid() && received == [] && lost == [] && log == [] && pending == map[] && !faulted
      ensures this.flushRows == flushRows && this.flushAge == flushAge
      ensures fresh(raw) && raw.tables == map[] && raw.tenant == tenant
    {
      this.flushRows, this.flushAge := flushRows, flushAge;
      raw := new Writer(tenant);
      log, known, pending, received, lost, faulted := [], {}, map[], [], [], false;
    }

    /** `ingest_raw`, which stamps the writer's tenant: validation, then the chunked insert, of which a failure may
        leave some chunks. The engine may fail, or refuse rows that do not fill their placeholders or do not fit a
        statement; either counts as a fault. */
    method InsertRows(k: BufferKey, columns: seq<string>, rows: seq<Cells>) returns (ok: bool, done: nat)
      requires k.tenant == raw.tenant
      modifies this`log, this`faulted, raw`tables, raw`generation
      ensures done <= |rows| && (ok ==> done == |rows| && Accepts(k, columns))
      ensures AsWide(columns, rows) ==>
                && log == old(log) + Entries(k, columns, rows[..done])
                && Gained(old(raw.tables), Entries(k, columns, rows[..done]), raw.tables)
      ensures !Accepts(k, columns) ==> done == 0 && log == old(log) && faulted == old(faulted)
                                        && raw.tables == old(raw.tables)
      ensures OnlyTable(old(raw.tables), raw.tables, RawTable(TableOf(k)))
      ensures raw.generation == old(raw.generation) + if ok && rows != [] then 1 else 0
      ensures old(faulted) ==> faulted
      ensures !faulted ==> ok == Accepts(k, columns)
    {
      var created: bool := *;
      var accepted := Accepts(k, columns);
      if !accepted || !created || !TableColumns(columns) {
        NothingLands(k, columns, rows, raw.tables);
        faulted := faulted || accepted;
        return false, 0;
      }
      var healthy: bool := *;
      var statements, r := InsertChunked(rows, |columns| + 1, BindCells(raw.tenant), healthy);
      hide *;
      Land(k, columns, rows, statements);
      done, ok := |RowsIn(statements)|, r.Inserted?;
      if ok && rows != [] {
        raw.generation := raw.generation + 1;
      }
      faulted := faulted || !ok;
    }

    /** The statements' rows join the table. */
    method Land(k: BufferKey, columns: seq<string>, rows: seq<Cells>, statements: seq<Chunks.Statement<Cells>>)
      requires RowsIn(statements) <= rows
      requires forall i :: 0 <= i < |statements| ==> WellFormed(statements[i], |columns| + 1, BindCells(k.tenant))
      modifies this`log, raw`tables
      ensures AsWide(columns, rows) ==>
                && log == old(log) + Entries(k, columns, rows[..|RowsIn(statements)|])
                && Gained(old(raw.tables), Entries(k, columns, rows[..|RowsIn(statements)|]), raw.tables)
      ensures OnlyTable(old(raw.tables), raw.tables, RawTable(TableOf(k)))
    {
      hide *;
      AlignedLand(k, columns, rows, statements);
      var name, landed := RawTable(TableOf(k)), LandedRows(columns, statements);
      if AsWide(columns, rows) {
        GainedBatch(raw.tables, k, columns, rows[..|RowsIn(statements)|], landed);
      }
      SetOne(raw.tables, name, TableRows(raw.tables, name) + landed);
      log := log + Map(EntryOf(k, columns), Landed(statements, |columns| + 1));
      raw.tables := raw.tables[name := TableRows(raw.tables, name) + landed];
    }

    /** `flush_batch`: the batch leaves the buffer first, and is inserted under its own tenant. */
    method FlushBatch(k: BufferKey) returns (ok: bool)
      requires Kept(Books()) && k in pending
      modifies this`log, this`faulted, this`known, this`pending, this`lost, raw
      ensures !faulted ==> ok == Accepts(k, old(pending)[k].columns)
      ensures Kept(Books()) && pending == old(pending) - {k}
      ensures Aligned(received) ==> Grown(old(log), old(raw.tables), log, raw.tables)
      ensures raw.tenant == k.tenant && raw.offsets == old(raw.offsets)
      ensures old(faulted) ==> faulted
      ensures old(known) <= known
    {
      var batch := pending[k];
      ghost var books := Books();
      ghost var before := raw.tables;
      pending := pending - {k};
      assert batch.tenant == k.tenant;
      BufferWide(books, k);
      hide *;
      raw.tenant := batch.tenant;
      var done;
      ok, done := InsertRows(k, batch.columns, batch.rows);
      lost := lost + Entries(k, batch.columns, batch.rows[done..]);
      if ok {
        known := known + {TableOf(k)};
      }
      FlushKept(books, k, done, log, known, faulted);
      if Aligned(received) {
        GrownBy(books.log, before, Entries(k, batch.columns, batch.rows[..done]), raw.tables);
      }
    }

    /** `flush_some`: the keys are chosen first, then flushed one by one; a failure does not stop the others. */
    method FlushSome(chosen: set<BufferKey>)
      requires Kept(Books()) && chosen <= pending.Keys
      modifies this`log, this`faulted, this`known, this`pending, this`lost, raw
      ensures Kept(Books()) && pending == old(pending) - chosen
      ensures Aligned(received) ==> Grown(old(log), old(raw.tables), log, raw.tables)
      ensures raw.offsets == old(raw.offsets)
      ensures old(faulted) ==> faulted
      ensures old(known) <= known
    {
      var rest := chosen;
      GrownNot(log, raw.tables);
      while rest != {}
        invariant rest <= chosen && rest <= pending.Keys
        invariant Kept(Books()) && pending == old(pending) - (chosen - rest)
        invariant Aligned(received) ==> Grown(old(log), old(raw.tables), log, raw.tables)
        invariant raw.offsets == old(raw.offsets)
        invariant old(faulted) ==> faulted
        invariant old(known) <= known
        decreases rest
      {
        hide Kept, Grown, Aligned;
        var k :| k in rest;
        ghost var logBefore, tablesBefore := log, raw.tables;
        var _ := FlushBatch(k);
        if Aligned(received) {
          GrownTwice(old(log), old(raw.tables), logBefore, tablesBefore, log, raw.tables);
        }
        rest := rest - {k};
        assert chosen - rest == (chosen - (rest + {k})) + {k};
      }
    }

    method FlushPending()
      requires Kept(Books())
      modifies this`log, this`faulted, this`known, this`pending, this`lost, raw
      ensures Kept(Books()) && pending == map[]
      ensures Aligned(received) ==> Grown(old(log), old(raw.tables), log, raw.tables)
      ensures raw.offsets == old(raw.offsets)
      ensures old(faulted) ==> faulted
    {
      FlushSome(pending.Keys);
    }

    /** `flush_expired`: afterwards no buffer is as old as the limit. */
    method FlushExpired(now: nat)
      requires Kept(Books())
      modifies this`log, this`faulted, this`known, this`pending, this`lost, raw
      ensures Kept(Books())
      ensures forall k :: k in pending <==>
                k in old(pending) && (flushAge == 0 || now - old(pending)[k].since < flushAge)
      ensures forall k :: k in pending ==> pending[k] == old(pending)[k]
      ensures Aligned(received) ==> Grown(old(log), old(raw.tables), log, raw.tables)
      ensures raw.offsets == old(raw.offsets)
      ensures old(faulted) ==> faulted
    {
      GrownNot(log, raw.tables);
      if flushAge != 0 {
        FlushSome(set k | k in pending && now - pending[k].since >= flushAge);
      }
    }

    /** `IngestRaw`. The reply is the rows flushed by this command, or none when a flush it ran failed. */
    method IngestRaw(k: BufferKey, columns: seq<string>, rows: seq<Cells>, now: nat) returns (reply: Option<nat>)
      requires Valid()
      modifies this, raw
      ensures Valid() && received == old(received) + Entries(k, columns, rows)
      ensures Aligned(received) ==> Grown(old(log), old(raw.tables), log, raw.tables)
      ensures raw.tenant == k.tenant && raw.offsets == old(raw.offsets)
      ensures old(faulted) ==> faulted
      ensures var buffer := SameShape(old(pending), k, columns) + rows;
              if |buffer| < flushRows then
                k in pending && pending[k].rows == buffer && pending[k].columns == columns && reply == Some(0)
              else
                k !in pending && (reply.Some? ==> reply.value == |buffer|)
                  && (!faulted ==> reply.Some? == Accepts(k, columns))
      ensures pending - {k} == old(pending) - {k}
    {
      hide Kept, Accepts, Entries, SameShape, Grown, Aligned;
      raw.tenant := k.tenant;
      ghost var before := pending;
      FlushOtherShape(k, columns);
      ghost var between := pending;
      AlignedFront(received, Entries(k, columns, rows));
      ghost var logBetween, tablesBetween := log, raw.tables;
      var batch := if k in pending then pending[k].(rows := pending[k].rows + rows)
          else PendingBatch(columns, rows, k.tenant, now);
      SameShapeIs(before, between, k, batch, rows);
      Receive(k, batch, rows);
      if |batch.rows| >= flushRows {
        var ok := FlushBatch(k);
        if Aligned(received) {
          GrownTwice(old(log), old(raw.tables), logBetween, tablesBetween, log, raw.tables);
        }
        reply := if ok then Some(|batch.rows|) else None;
      } else {
        reply := Some(0);
      }
    }

    /** A buffer of another shape is flushed before rows join it; a failure there is only logged. */
    method FlushOtherShape(k: BufferKey, columns: seq<string>)
      requires Valid()
      modifies this`log, this`faulted, this`known, this`pending, this`lost, raw
      ensures Valid() && (old(faulted) ==> faulted)
      ensures Aligned(received) ==> Grown(old(log), old(raw.tables), log, raw.tables)
      ensures raw.offsets == old(raw.offsets) && (old(raw.tenant) == k.tenant ==> raw.tenant == k.tenant)
      ensures pending == if k in old(pending) && old(pending)[k].columns != columns then old(pending) - {k}
              else old(pending)
      ensures k in pending ==> pending[k].tenant == k.tenant
    {
      assert k in pending ==> pending[k].tenant == k.tenant;
      GrownNot(log, raw.tables);
      hide Kept, Accepts, Grown, Aligned;
      if k in pending && pending[k].columns != columns {
        var _ := FlushBatch(k);
      }
    }

    /** Rows joining a buffer; with buffering off the buffer exists only until the flush that follows at once. */
    method Receive(k: BufferKey, batch: PendingBatch, rows: seq<Cells>)
      requires Kept(Books()) && batch.tenant == k.tenant
      requires k in pending ==> pending[k].columns == batch.columns
      requires batch.rows == (if k in pending then pending[k].rows else []) + rows
      modifies this`received, this`pending
      ensures Kept(Books()) && received == old(received) + Entries(k, batch.columns, rows)
              && pending == old(pending)[k := batch]
    {
      ReceiveKept(Books(), k, batch, rows);
      hide *;
      pending := pending[k := batch];
      received := received + Entries(k, batch.columns, rows);
    }

    /** One turn of `writer_loop`. Expired buffers are flushed first; a keyed command then meets the tables as those
        flushes left them, `mid`, and is stamped with its own tenant, whoever's rows were flushed. */
    method Turn(w: Wake, now: nat) returns (stop: bool, ghost mid: RawTables, answer: Result<nat, WriteError>)
      requires Valid()
      modifies this, raw
      ensures Valid() && received == old(received) + Sent(w)
      ensures old(faulted) ==> faulted
      ensures w.Disconnected? || (w.Command? && w.cmd in {CompactAll, Shutdown}) ==> pending == map[]
      ensures stop <==> w.Disconnected? || w == Command(Shutdown)
      ensures w == Command(CompactAll) && !faulted && Aligned(received) ==>
                forall e :: e in log ==> TableOf(e.key) in known
      ensures Aligned(received) ==> Grown(old(log), old(raw.tables), log, mid)
      ensures !IsKeyed(w) ==> raw.tables == mid && raw.offsets == old(raw.offsets)
      ensures IsKeyed(w) ==>
                && Effect(w.cmd, mid, raw.tables, answer)
                && (answer.Ok? ==> w.cmd.d in known)
                && (forall k :: k in pending <==>
                    k in old(pending) && (flushAge == 0 || now - old(pending)[k].since < flushAge))
                && (forall k :: k in pending ==> pending[k] == old(pending)[k])
                && raw.offsets == if w.cmd.ApplyCdc? && answer.Ok?
                  then PutOffsets(old(raw.offsets), SourceKey(w.cmd.d), w.cmd.offsets)
                                  else old(raw.offsets)
    {
      stop, mid, answer := false, raw.tables, Ok(0);
      if w.Disconnected? {
        FlushPending();
        return true, raw.tables, answer;
      }
      FlushExpired(now);
      mid := raw.tables;
      if w.Timeout? {
        return;
      }
      match w.cmd
      case Ingest(k, columns, rows) =>
        ghost var logBefore := log;
        AlignedFront(received, Entries(k, columns, rows));
        var _ := IngestRaw(k, columns, rows, now);
        if Aligned(received) {
          GrownTwice(old(log), old(raw.tables), logBefore, mid, log, raw.tables);
        }
        mid := raw.tables;
      case CompactAll =>
        DrainAfter(mid, old(log), old(raw.tables));
        mid := raw.tables;
      case UpsertRaw(t, d, columns, key, rows) =>
        answer := Upsert(t, d, columns, key, rows);
      case DeleteRaw(t, d, key, keys) =>
        answer := Delete(t, d, key, keys);
      case ApplyCdc(t, d, columns, key, rows, keys, offsets) =>
        answer := Apply(t, d, columns, key, rows, keys, offsets);
      case Write(t) =>
        raw.tenant := t;
      case Read =>
      case Shutdown =>
        DrainAfter(mid, old(log), old(raw.tables));
        mid := raw.tables;
        stop := true;
    }

    /** `flush_pending`, after the expired buffers. */
    method DrainAfter(ghost mid: RawTables, ghost log0: seq<Entry>, ghost tables0: RawTables)
      requires Kept(Books()) && mid == raw.tables && (Aligned(received) ==> Grown(log0, tables0, log, mid))
      modifies this`log, this`faulted, this`known, this`pending, this`lost, raw
      ensures Kept(Books()) && pending == map[]
      ensures Aligned(received) ==> Grown(log0, tables0, log, raw.tables)
      ensures raw.offsets == old(raw.offsets)
      ensures old(faulted) ==> faulted
    {
      ghost var logBefore := log;
      FlushPending();
      if Aligned(received) {
        GrownTwice(log0, tables0, logBefore, mid, log, raw.tables);
      }
    }

    method Upsert(t: string, d: Dataset, columns: seq<string>, key: string, rows: seq<Cells>)
      returns (answer: Result<nat, WriteError>)
      requires Kept(Books())
      modifies this`known, raw`tenant, raw`tables, raw`generation
      ensures Kept(Books()) && UpsertEffect(old(raw.tables), raw.tables, t, d, columns, key, rows, answer)
      ensures known == old(known) + if answer.Ok? then {d} else {}
    {
      hide UpsertEffect;
      raw.tenant := t;
      answer := raw.UpsertRaw(d, columns, key, rows);
      Learn(d, answer.Ok?);
    }

    method Delete(t: string, d: Dataset, key: string, keys: seq<string>) returns (answer: Result<nat, WriteError>)
      requires Kept(Books())
      modifies this`known, raw`tenant, raw`tables, raw`generation
      ensures Kept(Books()) && DeleteEffect(old(raw.tables), raw.tables, t, d, key, keys, answer)
      ensures known == old(known) + if answer.Ok? then {d} else {}
    {
      hide DeleteEffect;
      raw.tenant := t;
      answer := raw.DeleteRaw(d, key, keys);
      Learn(d, answer.Ok?);
    }

    method Apply(t: string, d: Dataset, columns: seq<string>, key: string, rows: seq<Cells>, keys: seq<string>,
                 offsets: seq<(int, int)>)
      returns (answer: Result<nat, WriteError>)
      requires Kept(Books())
      modifies this`known, raw`tenant, raw`tables, raw`offsets, raw`generation
      ensures Kept(Books()) && CdcEffect(old(raw.tables), raw.tables, t, d, columns, key, rows, keys, answer)
      ensures known == old(known) + if answer.Ok? then {d} else {}
      ensures raw.offsets == if answer.Ok? then PutOffsets(old(raw.offsets), SourceKey(d), offsets)
              else old(raw.offsets)
    {
      hide CdcEffect;
      raw.tenant := t;
      answer := raw.ApplyCdcBatch(d, columns, key, rows, keys, offsets);
      Learn(d, answer.Ok?);
    }

    /** A table written to is known from then on. */
    method Learn(d: Dataset, ok: bool)
      requires Kept(Books())
      modifies this`known
      ensures Kept(Books()) && known == old(known) + if ok then {d} else {}
    {
      KnownGrows(Books(), known + if ok then {d} else {});
      known := known + if ok then {d} else {};
    }

    /** `writer_loop`, over the wake-ups it sees until it stops. However it ends, with aligned rows and no storage
        failure the rows inserted for each key are, in order of arrival, the well-named ones sent for it except those
        still buffered, and nothing is buffered if it ended by shutdown or disconnection. Where no command was keyed,
        the tables have gained exactly the rows inserted. */
    method WriterLoop(ws: seq<Wake>, clock: seq<nat>) returns (n: nat)
      requires Valid() && |clock| == |ws| && received == [] && lost == [] && log == [] && !faulted
      modifies this, raw
      ensures n <= |ws| && Valid() && received == AllSent(ws[..n])
      ensures n > 0 && (ws[n - 1].Disconnected? || ws[n - 1] == Command(Shutdown)) ==>
                && pending == map[]
                && (!faulted && Aligned(AllSent(ws[..n]))
                  ==> forall k :: Filter(OfKey(k), log) == Filter(GoodOf(k), AllSent(ws[..n])))
      ensures Aligned(AllSent(ws[..n])) && (forall i :: 0 <= i < n ==> !IsKeyed(ws[i]))
              ==> Gained(old(raw.tables), log, raw.tables)
    {
      n := 0;
      var stop := false;
      GrownNot(log, raw.tables);
      while n < |ws| && !stop
        invariant 0 <= n <= |ws| && Valid() && received == AllSent(ws[..n])
        invariant n > 0 && (ws[n - 1].Disconnected? || ws[n - 1] == Command(Shutdown)) ==> stop && pending == map[]
        invariant Aligned(received) && (forall i :: 0 <= i < n ==> !IsKeyed(ws[i]))
                  ==> Grown(old(log), old(raw.tables), log, raw.tables)
        decreases |ws| - n
      {
        hide Valid, Aligned, Grown, Effect;
        ghost var logBefore, tablesBefore, receivedBefore := log, raw.tables, received;
        ghost var mid;
        var answer;
        stop, mid, answer := Turn(ws[n], clock[n]);
        assert ws[..n + 1][..n] == ws[..n];
        AlignedFront(receivedBefore, Sent(ws[n]));
        if Aligned(received) && forall i :: 0 <= i < n + 1 ==> !IsKeyed(ws[i]) {
          GrownTwice(old(log), old(raw.tables), logBefore, tablesBefore, log, raw.tables);
        }
        n := n + 1;
      }
      assert log[|old(log)|..] == log;
      hide Kept, Aligned, Filter, AllSent, OfKey, GoodOf, Gained;
      DrainedAll(Books());
    }
  }

  predicate IsKeyed(w: Wake) {
    w.Command? && w.cmd.Keyed()
  }

  /** What a keyed command does to the tables. */
  ghost predicate Effect(c: Cmd, before: RawTables, after: RawTables, answer: Result<nat, WriteError>)
    requires c.Keyed()
  {
    match c
    case UpsertRaw(t, d, columns, key, rows) => UpsertEffect(before, after, t, d, columns, key, rows, answer)
    case DeleteRaw(t, d, key, keys) => DeleteEffect(before, after, t, d, key, keys, answer)
    case ApplyCdc(t, d, columns, key, rows, keys, _) => CdcEffect(before, after, t, d, columns, key, rows, keys, answer)
  }

  lemma KnownGrows(l: Ledger, known: set<Dataset>)
    requires Kept(l) && l.known <= known
    ensures Kept(l.(known := known))
  {
    hide Balanced, InOrder, Accepts;
  }

  lemma AlignedFront(a: seq<Entry>, b: seq<Entry>)
    ensures Aligned(a + b) ==> Aligned(a)
  {
    assert forall e :: e in a ==> e in a + b;
  }

  lemma BufferWide(l: Ledger, k: BufferKey)
    requires Kept(l) && k in l.pending
    ensures Aligned(l.received) ==> AsWide(l.pending[k].columns, l.pending[k].rows)
  {
    if Aligned(l.received) {
      BufferAligned(l, k);
    }
  }

  lemma GrownBy(log: seq<Entry>, tables: RawTables, es: seq<Entry>, after: RawTables)
    requires Gained(tables, es, after)
    ensures Grown(log, tables, log + es, after)
  {
    assert (log + es)[|log|..] == es;
  }

  lemma NothingLands(k: BufferKey, columns: seq<string>, rows: seq<Cells>, tables: RawTables)
    ensures Entries(k, columns, rows[..0]) == [] && Gained(tables, [], tables)
  {
    GrownNot([], tables);
  }

  lemma SetOne(tables: RawTables, name: string, rows: seq<Row>)
    ensures OnlyTable(tables, tables[name := rows], name)
  {
  }

  lemma DrainedAll(l: Ledger)
    requires Kept(l)
    ensures l.pending == map[] && !l.faulted && Aligned(l.received)
            ==> forall k :: Filter(OfKey(k), l.log) == Filter(GoodOf(k), l.received)
  {
    if l.pending == map[] && !l.faulted && Aligned(l.received) {
      forall k
        ensures Filter(OfKey(k), l.log) == Filter(GoodOf(k), l.received)
      {
        Drained(l.received, l.log, l.pending, k);
      }
    }
  }

  lemma Drained(received: seq<Entry>, log: seq<Entry>, pending: map<BufferKey, PendingBatch>, k: BufferKey)
    requires InOrder(received, log, pending, k) && pending == map[]
    ensures Filter(OfKey(k), log) == Filter(GoodOf(k), received)
  {
  }

  lemma AllNamed(k: BufferKey, columns: seq<string>, rows: seq<Cells>)
    ensures forall e :: e in Entries(k, columns, rows) ==> e.key == k && e.columns == columns
  {
    MapHas(ToEntry(k, columns), rows);
  }
}
