/** Delivery outcomes written back, and what they keep out of later audiences. */
module SuppressionLoop {
  import opened Sequences
  import opened Values
  import opened Ast
  import opened Sql
  import opened Compiler
  import opened Denotation
  import opened CompilerProof

  datatype Outcome = Outcome(id: string, campaignId: string, userId: string, channel: string, action: string,
                             occurredTs: string)

  /** A stored outcome: its identifier as the UUID it denotes, and the tenant that wrote it. */
  datatype StoredOutcome = StoredOutcome(uuid: nat, outcome: Outcome, tenant: string)

  function AsRow(eng: Engine): StoredOutcome -> Row {
    (o: StoredOutcome) => map[
      "suppression_id" := BigInt(o.uuid), "campaign_id" := Text(o.outcome.campaignId),
        "user_id" := Text(o.outcome.userId),
      "channel" := Text(o.outcome.channel), "action" := Text(o.outcome.action),
      "occurred_ts" := Ts(eng.parseTs(o.outcome.occurredTs)), "tenant_id" := Text(o.tenant)]
  }

  predicate HasId(table: seq<StoredOutcome>, uuid: nat) {
    exists i :: 0 <= i < |table| && table[i].uuid == uuid
  }

  /** INSERT ... SELECT ... WHERE NOT EXISTS (SELECT 1 FROM suppression WHERE suppression_id = ?). The test is not
      restricted to the tenant. */
  function Insert(table: seq<StoredOutcome>, o: StoredOutcome): seq<StoredOutcome> {
    if HasId(table, o.uuid) then table else table + [o]
  }

  function InsertAll(table: seq<StoredOutcome>, os: seq<StoredOutcome>): seq<StoredOutcome> {
    if os == [] then table else Insert(InsertAll(table, os[..|os| - 1]), os[|os| - 1])
  }

  function OtherId(uuid: nat): StoredOutcome -> bool {
    (o: StoredOutcome) => o.uuid != uuid
  }

  /** Of the rows with one identifier, the first. */
  function Firsts(os: seq<StoredOutcome>): seq<StoredOutcome> {
    if os == [] then [] else [os[0]] + Filter(OtherId(os[0].uuid), Firsts(os[1..]))
  }

  /** UUID text as the engine reads it; several spellings denote one UUID. */
  type Uuids = string -> Option<nat>

  function Submitted(uuids: Uuids, rows: seq<Outcome>, tenant: string): seq<StoredOutcome>
    requires Readable(uuids, rows)
  {
    if rows == [] then []
    else
      Submitted(uuids, rows[..|rows| - 1], tenant)
      + [StoredOutcome(uuids(rows[|rows| - 1].id).value, rows[|rows| - 1], tenant)]
  }

  predicate Readable(uuids: Uuids, rows: seq<Outcome>) {
    forall i :: 0 <= i < |rows| ==> uuids(rows[i].id).Some?
  }

  class Writer {
    var table: seq<StoredOutcome>
    var tenant: string
    var generation: nat

    constructor (tenant: string)
      ensures table == [] && this.tenant == tenant
    {
      table, generation := [], 0;
      this.tenant := tenant;
    }

    /** `write_suppression_idempotent`: one statement for each row. The rows before one that fails stay stored. */
    method WriteOutcomes(uuids: Uuids, rows: seq<Outcome>) returns (r: Result<nat, WriteError>)
      modifies this`table, this`generation
      ensures r.Ok? ==>
                && Readable(uuids, rows)
                && table == InsertAll(old(table), Submitted(uuids, rows, tenant))
                && r.value == |table| - |old(table)|
                && generation == old(generation) + if rows == [] then 0 else 1
      ensures r.Err? ==> generation == old(generation) && SomeWritten(uuids, old(table), table, rows, tenant)
    {
      WrittenNone(uuids, table, rows, tenant);
      hide *;
      if rows == [] {
        WrittenAll(uuids, table, table, rows, tenant);
        return Ok(0);
      }
      var written := 0;
      var i := 0;
      while i < |rows|
        invariant 0 <= i <= |rows| && Written(uuids, old(table), table, rows, i, tenant)
        invariant written == |table| - |old(table)| && generation == old(generation)
      {
        var uuid := uuids(rows[i].id);
        var failed: bool := *;
        if failed || uuid.None? {
          LeadingWritten(uuids, old(table), table, rows, i, tenant);
          return Err(Storage);
        }
        var o := StoredOutcome(uuid.value, rows[i], tenant);
        WrittenNext(uuids, old(table), table, rows, i, tenant);
        if !HasId(table, o.uuid) {
          table := table + [o];
          written := written + 1;
        }
        i := i + 1;
      }
      WrittenAll(uuids, old(table), table, rows, tenant);
      generation := generation + 1;
      r := Ok(written);
    }
  }

  /** The first `n` rows have been inserted. */
  ghost predicate Written(uuids: Uuids, before: seq<StoredOutcome>, after: seq<StoredOutcome>, rows: seq<Outcome>,
                          n: nat, tenant: string)
    requires n <= |rows|
  {
    Readable(uuids, rows[..n]) && after == InsertAll(before, Submitted(uuids, rows[..n], tenant))
  }

  /** The rows before one that fails are stored. */
  ghost predicate SomeWritten(uuids: Uuids, before: seq<StoredOutcome>, after: seq<StoredOutcome>, rows: seq<Outcome>,
                              tenant: string) {
    exists n: nat | n < |rows| :: Written(uuids, before, after, rows, n, tenant)
  }

  lemma LeadingWritten(uuids: Uuids, before: seq<StoredOutcome>, after: seq<StoredOutcome>, rows: seq<Outcome>, n: nat,
                       tenant: string)
    requires n < |rows| && Written(uuids, before, after, rows, n, tenant)
    ensures SomeWritten(uuids, before, after, rows, tenant)
  {
    hide Written;
  }

  lemma WrittenNone(uuids: Uuids, before: seq<StoredOutcome>, rows: seq<Outcome>, tenant: string)
    ensures Written(uuids, before, before, rows, 0, tenant)
  {
    assert rows[..0] == [];
  }

  lemma WrittenAll(uuids: Uuids, before: seq<StoredOutcome>, after: seq<StoredOutcome>, rows: seq<Outcome>,
                   tenant: string)
    requires Written(uuids, before, after, rows, |rows|, tenant)
    ensures Readable(uuids, rows) && after == InsertAll(before, Submitted(uuids, rows, tenant))
  {
    assert rows[..|rows|] == rows;
  }

  lemma WrittenNext(uuids: Uuids, before: seq<StoredOutcome>, after: seq<StoredOutcome>, rows: seq<Outcome>, n: nat,
                    tenant: string)
    requires n < |rows| && Written(uuids, before, after, rows, n, tenant) && uuids(rows[n].id).Some?
    ensures var o := StoredOutcome(uuids(rows[n].id).value, rows[n], tenant);
            Written(uuids, before, if HasId(after, o.uuid) then after else after + [o], rows, n + 1, tenant)
  {
    SubmittedSnoc(uuids, rows, n, tenant, before);
    hide InsertAll, Submitted, HasId, Readable;
  }

  lemma InsertIs(table: seq<StoredOutcome>, o: StoredOutcome)
    ensures Insert(table, o) == if HasId(table, o.uuid) then table else table + [o]
  {
  }

  lemma SubmittedSnoc(uuids: Uuids, rows: seq<Outcome>, i: nat, tenant: string, table: seq<StoredOutcome>)
    requires i < |rows| && Readable(uuids, rows[..i]) && uuids(rows[i].id).Some?
    ensures Readable(uuids, rows[..i + 1])
    ensures InsertAll(table, Submitted(uuids, rows[..i + 1], tenant))
            == Insert(InsertAll(table, Submitted(uuids, rows[..i], tenant)),
              StoredOutcome(uuids(rows[i].id).value, rows[i], tenant))
  {
    var next := rows[..i + 1];
    assert next[..|next| - 1] == rows[..i];
    var before, o := Submitted(uuids, rows[..i], tenant), StoredOutcome(uuids(rows[i].id).value, rows[i], tenant);
    assert Submitted(uuids, next, tenant) == before + [o];
    assert (before + [o])[..|before|] == before;
  }

  // ----- over any sequence of batches -----

  lemma {:induction false} InsertAllAppend(table: seq<StoredOutcome>, a: seq<StoredOutcome>, b: seq<StoredOutcome>)
    ensures InsertAll(table, a + b) == InsertAll(InsertAll(table, a), b)
  {
    if b == [] {
      assert a + b == a;
    } else {
      assert (a + b)[..|a + b| - 1] == a + b[..|b| - 1];
      InsertAllAppend(table, a, b[..|b| - 1]);
    }
  }

  lemma HasIdAppend(a: seq<StoredOutcome>, b: seq<StoredOutcome>, uuid: nat)
    ensures HasId(a + b, uuid) <==> HasId(a, uuid) || HasId(b, uuid)
  {
    if i :| 0 <= i < |a| && a[i].uuid == uuid {
      assert (a + b)[i] == a[i];
    }
    if i :| 0 <= i < |b| && b[i].uuid == uuid {
      assert (a + b)[|a| + i] == b[i];
    }
  }

  lemma {:induction false} InsertedIds(table: seq<StoredOutcome>, os: seq<StoredOutcome>, uuid: nat)
    ensures HasId(InsertAll(table, os), uuid) <==> HasId(table, uuid) || HasId(os, uuid)
  {
    if os != [] {
      var front, last := os[..|os| - 1], os[|os| - 1];
      InsertedIds(table, front, uuid);
      assert os == front + [last];
      HasIdAppend(front, [last], uuid);
      HasIdAppend(InsertAll(table, front), [last], uuid);
    }
  }

  /** Nothing stored is ever removed or changed. */
  lemma {:induction false} InsertAllKeeps(table: seq<StoredOutcome>, os: seq<StoredOutcome>)
    ensures table <= InsertAll(table, os)
  {
    if os != [] {
      InsertAllKeeps(table, os[..|os| - 1]);
    }
  }

  lemma {:induction false} FirstsIds(os: seq<StoredOutcome>, uuid: nat)
    ensures HasId(Firsts(os), uuid) <==> HasId(os, uuid)
  {
    if os == [] {
      return;
    }
    FirstsIds(os[1..], uuid);
    var rest := Filter(OtherId(os[0].uuid), Firsts(os[1..]));
    FilterHas(OtherId(os[0].uuid), Firsts(os[1..]));
    hide Filter, Firsts;
    assert os == [os[0]] + os[1..];
    HasIdAppend([os[0]], os[1..], uuid);
    HasIdAppend([os[0]], rest, uuid);
    if uuid != os[0].uuid {
      if HasId(Firsts(os[1..]), uuid) {
        var i :| 0 <= i < |Firsts(os[1..])| && Firsts(os[1..])[i].uuid == uuid;
        assert Firsts(os[1..])[i] in rest;
        var j :| 0 <= j < |rest| && rest[j] == Firsts(os[1..])[i];
      }
      if HasId(rest, uuid) {
        var i :| 0 <= i < |rest| && rest[i].uuid == uuid;
        assert rest[i] in rest;
        var j :| 0 <= j < |Firsts(os[1..])| && Firsts(os[1..])[j] == rest[i];
      }
    } else {
      assert [os[0]][0].uuid == uuid;
    }
    assert HasId([os[0]], uuid) <==> os[0].uuid == uuid by {
      assert [os[0]][0] == os[0];
    }
    assert Firsts(os) == [os[0]] + rest by {
      FirstsCons(os);
    }
  }

  lemma FirstsCons(os: seq<StoredOutcome>)
    requires os != []
    ensures Firsts(os) == [os[0]] + Filter(OtherId(os[0].uuid), Firsts(os[1..]))
  {
  }

  lemma HasIdCons(os: seq<StoredOutcome>, uuid: nat)
    requires os != []
    ensures HasId(os, uuid) <==> os[0].uuid == uuid || HasId(os[1..], uuid)
  {
    assert os == [os[0]] + os[1..];
    HasIdAppend([os[0]], os[1..], uuid);
    assert [os[0]][0] == os[0];
  }

  lemma {:induction false} FirstsSnoc(os: seq<StoredOutcome>, o: StoredOutcome)
    ensures Firsts(os + [o]) == Insert(Firsts(os), o)
  {
    if os == [] {
      assert os + [o] == [o];
      assert Filter(OtherId(o.uuid), Firsts([o][1..])) == [];
      assert !HasId(Firsts([]), o.uuid);
      return;
    }
    var p, tail := OtherId(os[0].uuid), Firsts(os[1..]);
    assert p(o) == (o.uuid != os[0].uuid);
    assert (os + [o])[0] == os[0] && (os + [o])[1..] == os[1..] + [o];
    hide *;
    FirstsSnoc(os[1..], o);
    FirstsIds(os[1..], o.uuid);
    FirstsIds(os, o.uuid);
    HasIdCons(os, o.uuid);
    FirstsCons(os);
    FirstsCons(os + [o]);
    FilterSnoc(p, tail, o);
    InsertIs(tail, o);
    InsertIs(Firsts(os), o);
    Assoc([os[0]], Filter(p, tail), [o]);
  }

  /** However the submissions are batched and repeated, the table holds the first row of each identifier, in order. */
  lemma {:induction false} TableIsFirsts(os: seq<StoredOutcome>)
    ensures InsertAll([], os) == Firsts(os)
  {
    if os != [] {
      var front, last := os[..|os| - 1], os[|os| - 1];
      TableIsFirsts(front);
      FirstsSnoc(front, last);
      assert front + [last] == os;
    }
  }

  /** Submitting again what has been submitted before, in any order and any number of times, writes nothing. */
  lemma {:induction false} ReplayWritesNothing(table: seq<StoredOutcome>, os: seq<StoredOutcome>)
    requires forall i :: 0 <= i < |os| ==> HasId(table, os[i].uuid)
    ensures InsertAll(table, os) == table
  {
    if os != [] {
      ReplayWritesNothing(table, os[..|os| - 1]);
    }
  }

  /** The tables after each of a run of batches, from an empty one. */
  function TableAfter(batches: seq<seq<StoredOutcome>>): seq<StoredOutcome> {
    if batches == [] then [] else InsertAll(TableAfter(batches[..|batches| - 1]), batches[|batches| - 1])
  }

  function AllOf(batches: seq<seq<StoredOutcome>>): seq<StoredOutcome> {
    if batches == [] then [] else AllOf(batches[..|batches| - 1]) + batches[|batches| - 1]
  }

  /** The sum of the counts the batches return. */
  function Counts(batches: seq<seq<StoredOutcome>>): int {
    if batches == [] then 0
    else
      var before := TableAfter(batches[..|batches| - 1]);
      Counts(batches[..|batches| - 1]) + (|InsertAll(before, batches[|batches| - 1])| - |before|)
  }

  /** Over any run of batches, with any replays: the first row of each identifier is stored, and the returned counts
      add up to the rows stored. */
  lemma {:induction false} RunOfBatches(batches: seq<seq<StoredOutcome>>)
    ensures TableAfter(batches) == Firsts(AllOf(batches))
    ensures Counts(batches) == |TableAfter(batches)|
  {
    if batches != [] {
      var front, last := batches[..|batches| - 1], batches[|batches| - 1];
      RunOfBatches(front);
      TableIsFirsts(AllOf(front));
      InsertAllAppend([], AllOf(front), last);
      TableIsFirsts(AllOf(batches));
    }
  }

  // ----- whose submission is stored -----

  function OfWriter(tenant: string): StoredOutcome -> bool {
    (o: StoredOutcome) => o.tenant == tenant
  }

  function FirstAt(os: seq<StoredOutcome>, uuid: nat): (i: nat)
    ensures i <= |os| && (i < |os| ==> os[i].uuid == uuid)
    ensures forall j :: 0 <= j < i ==> os[j].uuid != uuid
  {
    if os == [] || os[0].uuid == uuid then 0 else 1 + FirstAt(os[1..], uuid)
  }

  lemma {:induction false} FirstStored(os: seq<StoredOutcome>, o: StoredOutcome)
    ensures o in Firsts(os) <==> FirstAt(os, o.uuid) < |os| && os[FirstAt(os, o.uuid)] == o
  {
    if os == [] {
      return;
    }
    FirstStored(os[1..], o);
    FilterHas(OtherId(os[0].uuid), Firsts(os[1..]));
    FirstsCons(os);
    assert o in Firsts(os) <==> o == os[0] || (o in Firsts(os[1..]) && o.uuid != os[0].uuid);
    hide Filter, Firsts;
    if o.uuid != os[0].uuid {
      assert FirstAt(os, o.uuid) == 1 + FirstAt(os[1..], o.uuid);
    }
  }

  /** A submission is stored exactly when no earlier one, of any tenant, has its UUID (or that one is the same row
      again). */
  lemma StoredIff(os: seq<StoredOutcome>, i: nat)
    requires i < |os|
    ensures os[i] in InsertAll([], os)
            <==> forall j :: 0 <= j < i && os[j].uuid == os[i].uuid ==> os[FirstAt(os, os[i].uuid)] == os[i]
  {
    TableIsFirsts(os);
    FirstStored(os, os[i]);
    var first := FirstAt(os, os[i].uuid);
    assert first <= i;
    if first < i {
      assert os[first].uuid == os[i].uuid;
    }
  }

  /** The first row with each of the tenant's UUIDs is the tenant's. */
  ghost predicate NotForestalled(os: seq<StoredOutcome>, tenant: string) {
    forall i :: 0 <= i < |os| && os[i].tenant == tenant ==> os[FirstAt(os, os[i].uuid)].tenant == tenant
  }

  lemma {:induction false} FirstAtAppend(a: seq<StoredOutcome>, b: seq<StoredOutcome>, uuid: nat)
    ensures FirstAt(a, uuid) < |a| ==> FirstAt(a + b, uuid) == FirstAt(a, uuid)
    ensures FirstAt(a, uuid) == |a| ==> FirstAt(a + b, uuid) == |a| + FirstAt(b, uuid)
  {
    if a == [] {
      assert a + b == b;
    } else {
      assert (a + b)[0] == a[0] && (a + b)[1..] == a[1..] + b;
      FirstAtAppend(a[1..], b, uuid);
    }
  }

  lemma FilteredIds(os: seq<StoredOutcome>, tenant: string, uuid: nat)
    ensures HasId(Filter(OfWriter(tenant), os), uuid)
            <==> exists i :: 0 <= i < |os| && os[i].tenant == tenant && os[i].uuid == uuid
  {
    var own := Filter(OfWriter(tenant), os);
    FilterHas(OfWriter(tenant), os);
    hide Filter;
    if i :| 0 <= i < |own| && own[i].uuid == uuid {
      assert own[i] in own;
      var j :| 0 <= j < |os| && os[j] == own[i];
    }
    if i :| 0 <= i < |os| && os[i].tenant == tenant && os[i].uuid == uuid {
      assert os[i] in own;
      var j :| 0 <= j < |own| && own[j] == os[i];
    }
  }

  /** A tenant's stored rows, the first with a UUID decides. */
  lemma OwnStoredIds(os: seq<StoredOutcome>, tenant: string, uuid: nat)
    ensures HasId(Filter(OfWriter(tenant), Firsts(os)), uuid)
            <==> FirstAt(os, uuid) < |os| && os[FirstAt(os, uuid)].tenant == tenant
  {
    var table := Firsts(os);
    FilteredIds(table, tenant, uuid);
    hide Filter, Firsts;
    if i :| 0 <= i < |table| && table[i].tenant == tenant && table[i].uuid == uuid {
      FirstStored(os, table[i]);
    }
    if FirstAt(os, uuid) < |os| && os[FirstAt(os, uuid)].tenant == tenant {
      FirstStored(os, os[FirstAt(os, uuid)]);
      var i :| 0 <= i < |table| && table[i] == os[FirstAt(os, uuid)];
    }
  }

  lemma ForestalledPrefix(front: seq<StoredOutcome>, o: StoredOutcome, tenant: string)
    requires NotForestalled(front + [o], tenant)
    ensures NotForestalled(front, tenant)
    ensures o.tenant == tenant && FirstAt(front, o.uuid) < |front| ==> front[FirstAt(front, o.uuid)].tenant == tenant
  {
    var os := front + [o];
    forall i | 0 <= i < |front| && front[i].tenant == tenant
      ensures front[FirstAt(front, front[i].uuid)].tenant == tenant
    {
      assert os[i] == front[i];
      FirstAtAppend(front, [o], front[i].uuid);
    }
    assert os[|front|] == o;
    FirstAtAppend(front, [o], o.uuid);
  }

  lemma {:induction false} OwnFirsts(os: seq<StoredOutcome>, tenant: string)
    requires NotForestalled(os, tenant)
    ensures Filter(OfWriter(tenant), Firsts(os)) == Firsts(Filter(OfWriter(tenant), os))
  {
    if os == [] {
      return;
    }
    var front, o, p := os[..|os| - 1], os[|os| - 1], OfWriter(tenant);
    assert os == front + [o];
    assert p(o) == (o.tenant == tenant);
    hide *;
    ForestalledPrefix(front, o, tenant);
    OwnFirsts(front, tenant);
    FirstsSnoc(front, o);
    InsertIs(Firsts(front), o);
    FirstsIds(front, o.uuid);
    FilterSnoc(p, front, o);
    FilterSnoc(p, Firsts(front), o);
    if o.tenant == tenant {
      FirstsSnoc(Filter(p, front), o);
      InsertIs(Firsts(Filter(p, front)), o);
      OwnStoredIds(front, tenant, o.uuid);
    }
  }

  /** A tenant's part of the table is what the tenant's own submissions alone would have left, exactly when no other
      tenant got to one of its UUIDs first. */
  lemma OwnPartIff(os: seq<StoredOutcome>, tenant: string)
    ensures Filter(OfWriter(tenant), InsertAll([], os)) == InsertAll([], Filter(OfWriter(tenant), os))
            <==> NotForestalled(os, tenant)
  {
    var own := Filter(OfWriter(tenant), os);
    TableIsFirsts(os);
    TableIsFirsts(own);
    if NotForestalled(os, tenant) {
      OwnFirsts(os, tenant);
    } else {
      var i :| 0 <= i < |os| && os[i].tenant == tenant && os[FirstAt(os, os[i].uuid)].tenant != tenant;
      OwnStoredIds(os, tenant, os[i].uuid);
      FilteredIds(os, tenant, os[i].uuid);
      FirstsIds(own, os[i].uuid);
    }
  }

  // ----- closing the loop -----

  /** The catalogue's suppression table is this one. */
  ghost predicate Presents(eng: Engine, db: Db, table: seq<StoredOutcome>) {
    db.suppression == Map(AsRow(eng), table)
  }

  /** A stored contact rules out its user from the base of every later segment that excludes its campaign. */
  lemma ContactedUserNotKept(eng: Engine, db: Db, table: seq<StoredOutcome>, o: StoredOutcome, rules: SuppressionRules,
                             q: SegmentQuery, at: nat)
    requires Presents(eng, db, table) && o in table && o.outcome.action in {"targeted", "delivered"}
    requires rules.perCampaignNoRepeat && at < |q.ops| && q.ops[at] == Exclude(o.outcome.campaignId)
    ensures Text(o.outcome.userId) !in KeysUpTo(eng, SliceOf(db, o.tenant), rules, q, |q.ops|)
  {
    var slice, key := SliceOf(db, o.tenant), Text(o.outcome.userId);
    var row := AsRow(eng)(o);
    MapHas(AsRow(eng), table);
    FilterHas(OfTenant(o.tenant), db.suppression);
    assert row in slice.suppression;
    assert Contacted(eng, key, o.outcome.campaignId, row);
    hide KeysUpTo;
    assert !NotSuppressed(eng, slice, rules, key, o.outcome.campaignId);
    hide NotSuppressed, SliceOf, Map, Filter;
    forall r | r in SliceRows(slice, q.source) && HoldsUpTo(eng, slice, rules, q, |q.ops|, r)
      ensures Cell(r, q.key) != key
    {
      assert Holds(eng, slice, rules, q, q.ops[at], r);
    }
    KeysUpToIs(eng, slice, rules, q, key);
  }

  lemma KeysUpToIs(eng: Engine, slice: Slice, rules: SuppressionRules, q: SegmentQuery, key: Value)
    ensures key in KeysUpTo(eng, slice, rules, q, |q.ops|)
            ==> exists r :: r in SliceRows(slice, q.source) && HoldsUpTo(eng, slice, rules, q, |q.ops|, r)
                 && Cell(r, q.key) == key
  {
    hide HoldsUpTo;
  }

  /** Once a targeted or delivered outcome is stored, then after any further writebacks a segment that excludes its
      campaign with no-repeat on never returns that user to that tenant, with one exception: a final union brings the
      user back exactly when its other side has them. */
  lemma NoRepeatEver(eng: Engine, db: Db, table: seq<StoredOutcome>, later: seq<StoredOutcome>, o: StoredOutcome,
                     q: SegmentQuery, at: nat, depth: nat, opts: Options, c: Compiled)
    requires o in table && o.outcome.action in {"targeted", "delivered"}
    requires Presents(eng, db, InsertAll(table, later))
    requires Context(eng, db, opts) && NoShadow(q) && opts.deriveLimit.None? && opts.tenant == o.tenant
             && opts.rules.perCampaignNoRepeat
    requires at < |q.ops| && q.ops[at] == Exclude(o.outcome.campaignId)
    requires CompileSpec(q, depth, opts) == Ok(c)
    ensures c.sql.Keys? && |c.params| == QueryHoles(c.sql.query)
    ensures var last := q.ops[|q.ops| - 1];
            Text(o.outcome.userId) in EvalQuery(eng, db, c.sql.query, c.params)
            <==> last.SetOp? && last.kind.Union? && Text(o.outcome.userId) in Denote(eng, SliceOf(db, o.tenant),
              opts.rules, last.other)
  {
    InsertAllKeeps(table, later);
    var now := InsertAll(table, later);
    var i :| 0 <= i < |table| && table[i] == o;
    assert now[i] == o;
    hide InsertAll;
    ContactedUserNotKept(eng, db, now, o, opts.rules, q, at);
    hide Presents, CompileSpec;
    CompileCorrect(eng, db, q, depth, opts, c);
    hide *;
    CorrectHas(eng, db, q, opts, c, Text(o.outcome.userId));
    DenoteIs(eng, SliceOf(db, o.tenant), opts.rules, q);
  }

  lemma DenoteIs(eng: Engine, slice: Slice, rules: SuppressionRules, q: SegmentQuery)
    requires q.ops != []
    ensures var here, last := KeysUpTo(eng, slice, rules, q, |q.ops|), q.ops[|q.ops| - 1];
            Denote(eng, slice, rules, q) == if last.SetOp?
                   then CombineSets(last.kind, here, Denote(eng, slice, rules, last.other)) else here
  {
    hide KeysUpTo;
  }

  // ----- the two gaps, by example -----

  lemma PresentedSlice(eng: Engine, db: Db, table: seq<StoredOutcome>, tenant: string)
    requires Presents(eng, db, table)
    ensures forall s :: s in SliceOf(db, tenant).suppression
             ==> exists o :: o in table && o.tenant == tenant && AsRow(eng)(o) == s
  {
    FilterHas(OfTenant(tenant), db.suppression);
    MapHas(AsRow(eng), table);
    hide Map, Filter;
    forall s | s in SliceOf(db, tenant).suppression
      ensures exists o :: o in table && o.tenant == tenant && AsRow(eng)(o) == s
    {
      var o :| o in table && AsRow(eng)(o) == s;
      assert Cell(s, "tenant_id") == Text(o.tenant);
    }
  }

  /** Exclude knows only what is stored: a user of whom the tenant's stored rows say nothing is kept. */
  lemma UnrecordedKept(eng: Engine, db: Db, table: seq<StoredOutcome>, tenant: string, user: string,
                       rules: SuppressionRules, campaignId: string)
    requires Presents(eng, db, table) && rules.Valid()
    requires forall o :: o in table && o.tenant == tenant ==> o.outcome.userId != user
    ensures NotSuppressed(eng, SliceOf(db, tenant), rules, Text(user), campaignId)
  {
    PresentedSlice(eng, db, table, tenant);
    var slice, key := SliceOf(db, tenant), Text(user);
    hide SliceOf, Presents;
    forall s | s in slice.suppression
      ensures !SameKey(eng, Cell(s, "user_id"), key)
    {
      var o :| o in table && o.tenant == tenant && AsRow(eng)(o) == s;
      assert Cell(s, "user_id") == Text(o.outcome.userId);
    }
    if rules.frequencyCap.Some? {
      FilterNone(IsTargetedSince(eng, key, Cutoff(eng, rules.frequencyCap.value.windowDays)), slice.suppression);
    }
  }

  /** The frequency cap does not see deliveries: however many of them a user has, the cap keeps the user. */
  lemma DeliveriesUncapped(eng: Engine, db: Db, table: seq<StoredOutcome>, tenant: string, user: string,
                           cap: FrequencyCap, campaignId: string)
    requires Presents(eng, db, table) && cap.Valid()
    requires forall o :: o in table && o.tenant == tenant && o.outcome.userId == user
              ==> o.outcome.action == "delivered"
    ensures NotSuppressed(eng, SliceOf(db, tenant), SuppressionRules(false, Some(cap)), Text(user), campaignId)
  {
    PresentedSlice(eng, db, table, tenant);
    var slice, key := SliceOf(db, tenant), Text(user);
    var p := IsTargetedSince(eng, key, Cutoff(eng, cap.windowDays));
    hide SliceOf, Presents;
    forall s | s in slice.suppression
      ensures !p(s)
    {
      var o :| o in table && o.tenant == tenant && AsRow(eng)(o) == s;
      assert Cell(s, "user_id") == Text(o.outcome.userId) && Cell(s, "action") == Text(o.outcome.action);
    }
    FilterNone(p, slice.suppression);
  }

  /** A user at the cap by deliveries alone: one stored delivery, a cap of one, and the user is kept. */
  lemma DeliveredAtCapKept(eng: Engine, db: Db, tenant: string, days: nat)
    requires days >= 1
    requires Presents(eng, db, [StoredOutcome(1, Outcome("a", "c", "u1", "email", "delivered", "t"), tenant)])
    ensures NotSuppressed(eng, SliceOf(db, tenant), SuppressionRules(false, Some(FrequencyCap(1, days))), Text("u1"),
            "c")
  {
    DeliveriesUncapped(eng, db, [StoredOutcome(1, Outcome("a", "c", "u1", "email", "delivered", "t"), tenant)], tenant,
                       "u1", FrequencyCap(1, days), "c");
  }

  const THEIRS := StoredOutcome(7, Outcome("x", "c", "u9", "email", "targeted", "t"), "acme")
  const OURS := StoredOutcome(7, Outcome("x", "c", "u1", "email", "targeted", "t"), "globex")

  /** Two tenants submit one UUID. The second submission is not stored, so a user that tenant has targeted is returned
      by its next segment that excludes the campaign. */
  lemma ForestalledUserReturned(eng: Engine, db: Db, opts: Options, c: Compiled)
    requires Presents(eng, db, InsertAll([], [THEIRS, OURS])) && Context(eng, db, opts)
    requires opts.deriveLimit.None? && opts.tenant == "globex" && opts.rules.perCampaignNoRepeat
    requires db.raw == map[Dataset("s", "e") := [map["id" := Text("u1"), "tenant_id" := Text("globex")]]]
    requires CompileSpec(SegmentQuery(Dataset("s", "e"), "id", [Exclude("c")], None), 0, opts) == Ok(c)
    ensures InsertAll([], [THEIRS, OURS]) == [THEIRS] && !NotForestalled([THEIRS, OURS], "globex")
    ensures c.sql.Keys? && |c.params| == QueryHoles(c.sql.query)
            && Text("u1") in EvalQuery(eng, db, c.sql.query, c.params)
  {
    var q := SegmentQuery(Dataset("s", "e"), "id", [Exclude("c")], None);
    OursForestalled();
    hide InsertAll, Insert, NotForestalled, HasId;
    OursDenoted(eng, db, opts);
    var slice := SliceOf(db, "globex");
    assert NoShadow(q);
    hide *;
    CompileCorrect(eng, db, q, 0, opts, c);
    CorrectHas(eng, db, q, opts, c, Text("u1"));
  }

  lemma CorrectHas(eng: Engine, db: Db, q: SegmentQuery, opts: Options, c: Compiled, v: Value)
    requires Correct(eng, db, q, opts, c)
    ensures c.sql.Keys? && |c.params| == QueryHoles(c.sql.query)
    ensures v in EvalQuery(eng, db, c.sql.query, c.params)
            <==> v in Denote(eng, SliceOf(db, opts.tenant), opts.rules, q)
  {
    var rows := EvalQuery(eng, db, c.sql.query, c.params);
    hide EvalQuery, Denote, SliceOf;
    assert v in rows <==> v in Elements(rows);
  }

  lemma OursDenoted(eng: Engine, db: Db, opts: Options)
    requires Presents(eng, db, [THEIRS]) && opts.rules.Valid() && opts.tenant == "globex"
    requires db.raw == map[Dataset("s", "e") := [map["id" := Text("u1"), "tenant_id" := Text("globex")]]]
    ensures Text("u1") in Denote(eng, SliceOf(db, opts.tenant), opts.rules,
            SegmentQuery(Dataset("s", "e"), "id", [Exclude("c")], None))
  {
    var q := SegmentQuery(Dataset("s", "e"), "id", [Exclude("c")], None);
    UnrecordedKept(eng, db, [THEIRS], "globex", "u1", opts.rules, "c");
    var slice := SliceOf(db, "globex");
    var row: Row := map["id" := Text("u1"), "tenant_id" := Text("globex")];
    SliceRowsAre(db, "globex", Dataset("s", "e"));
    TenantRowsHave(RawRows(db, Dataset("s", "e")), "globex");
    assert row in RawRows(db, Dataset("s", "e")) && row in SliceRows(slice, q.source);
    hide SliceOf, NotSuppressed, Presents, SliceRows;
    assert Holds(eng, slice, opts.rules, q, q.ops[0], row);
    assert HoldsUpTo(eng, slice, opts.rules, q, 1, row);
    hide Holds, HoldsUpTo;
    assert Cell(row, q.key) == Text("u1");
    DenoteIs(eng, slice, opts.rules, q);
  }

  lemma OursForestalled()
    ensures InsertAll([], [THEIRS, OURS]) == [THEIRS] && !NotForestalled([THEIRS, OURS], "globex")
  {
    var os := [THEIRS, OURS];
    assert os[..1] == [THEIRS] && os[..1][..0] == [];
    assert InsertAll([], os[..1]) == Insert([], THEIRS) == [THEIRS];
    assert [THEIRS][0].uuid == OURS.uuid;
    assert HasId([THEIRS], OURS.uuid);
    assert os[1].tenant == "globex" && FirstAt(os, os[1].uuid) == 0;
  }
}
