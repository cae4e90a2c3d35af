/** The CDC pump as a step system: crashes, restarts that seek to the committed offset inclusively, and failed
    applies. */
module Pump {
  import opened Sequences
  import opened Values
  import opened Denotation
  import opened Ast
  import opened Sql
  import opened Upsert
  import opened RawWriter
  import opened Cdc

  /** What a run is given: the log of each partition, and the partition each key belongs to. */
  datatype Source = Source(key: string, columns: set<string>, tenant: string, logs: seq<seq<Change>>,
                           part: string -> nat)

  /** Keys stay in their partition, and the rows are one table's and one tenant's. */
  ghost predicate Stable(src: Source) {
    && (forall k :: src.part(k) < |src.logs|)
    && (forall p, o :: 0 <= p < |src.logs| && 0 <= o < |src.logs[p]| ==>
          WellFormed(src.key, src.columns, src.tenant, src.logs[p][o]))
    && (forall p, o, k :: 0 <= p < |src.logs| && 0 <= o < |src.logs[p]| && Touches(src.key, src.logs[p][o], k)
         ==> src.part(k) == p)
  }

  /** `pending` is the batch being accumulated: (partition, offset) pairs in order of arrival. */
  datatype State = State(
    running: bool,
    position: seq<nat>,
    pending: seq<(nat, nat)>,
    committed: seq<Option<nat>>,
    table: seq<Row>)

  ghost predicate Shape(src: Source, s: State) {
    && |s.position| == |s.committed| == |src.logs|
    && (forall p :: 0 <= p < |src.logs| ==> s.position[p] <= |src.logs[p]|)
    && (forall i :: 0 <= i < |s.pending| ==> s.pending[i].0 < |src.logs| && s.pending[i].1 < |src.logs[s.pending[i].0]|)
  }

  /** How much of a partition's log the committed offset covers. */
  function Covered(s: State, p: nat): nat
    requires p < |s.committed|
  {
    if s.committed[p].Some? then s.committed[p].value + 1 else 0
  }

  function Pending(src: Source, pending: seq<(nat, nat)>): seq<Change>
    requires forall i :: 0 <= i < |pending| ==> pending[i].0 < |src.logs| && pending[i].1 < |src.logs[pending[i].0]|
  {
    if pending == [] then []
    else
      var last := pending[|pending| - 1];
      Pending(src, pending[..|pending| - 1]) + [src.logs[last.0][last.1]]
  }

  function CommitOffset(committed: seq<Option<nat>>, pending: seq<(nat, nat)>): (r: seq<Option<nat>>)
    ensures |r| == |committed|
  {
    if pending == [] then committed
    else
      var before := CommitOffset(committed, pending[..|pending| - 1]);
      var last := pending[|pending| - 1];
      if last.0 < |before| then before[last.0 := Some(last.1)] else before
  }

  // ----- the steps -----

  ghost predicate Init(src: Source, s: State) {
    && Shape(src, s) && !s.running && s.pending == [] && s.table == []
    && (forall p :: 0 <= p < |src.logs| ==> s.committed[p] == None)
  }

  /** The pump starts. If any offset is committed it resumes: while it waits for its partitions it throws away what it
      receives, `dropped` messages of each, and then seeks every partition that has a committed offset to that offset
      itself, so that the last committed message comes again. A partition without one stays where the wait left it. */
  ghost predicate Start(src: Source, s: State, t: State, dropped: seq<nat>) {
    && !s.running
    && t == s.(running := true, pending := [], position := t.position)
    && Shape(src, t) && |dropped| == |src.logs|
    && ((forall p :: 0 <= p < |src.logs| ==> s.committed[p].None?) ==>
        forall p :: 0 <= p < |src.logs| ==> dropped[p] == 0)
    && (forall p :: 0 <= p < |src.logs| ==>
          dropped[p] <= |src.logs[p]| && t.position[p] == if s.committed[p].Some? then s.committed[p].value
            else dropped[p])
  }

  /** Whatever the wait threw away will come again: it is from partitions that are sought back. */
  ghost predicate ComesAgain(s: State, dropped: seq<nat>) {
    |dropped| == |s.committed| && forall p :: 0 <= p < |dropped| && dropped[p] > 0 ==> s.committed[p].Some?
  }

  /** One message arrives, from any partition. */
  ghost predicate Deliver(src: Source, s: State, t: State, p: nat) {
    && s.running && p < |src.logs| && p < |s.position| && s.position[p] < |src.logs[p]|
    && t == s.(pending := s.pending + [(p, s.position[p])], position := s.position[p := s.position[p] + 1])
  }

  /** The batch is applied and its offsets are committed, in one transaction. */
  ghost predicate Commit(src: Source, s: State, t: State) {
    && s.running && Shape(src, s)
    && t == s.(pending := [],
               committed := CommitOffset(s.committed, s.pending),
               table := ApplyChanges(src.key, s.table, Pending(src, s.pending), src.tenant))
  }

  /** The transaction fails and the pump polls on: the batch is gone, the consumer stays where it is. */
  ghost predicate FailAndPollOn(s: State, t: State) {
    s.running && t == s.(pending := [])
  }

  /** A crash, or a failed apply that ends in a restart. */
  ghost predicate Stop(s: State, t: State) {
    t == s.(running := false, pending := [])
  }

  ghost predicate Next(src: Source, s: State, t: State) {
    || (exists dropped :: Start(src, s, t, dropped) && ComesAgain(s, dropped))
    || (exists p :: Deliver(src, s, t, p))
    || (Commit(src, s, t) && NoReinsert(src.key, Pending(src, s.pending)))
    || Stop(s, t)
  }

  // ----- the invariant -----

  /** The pending deliveries from `p` are the offsets from `from` up to `upTo`, in order. */
  predicate Consecutive(pending: seq<(nat, nat)>, p: nat, from: nat, upTo: nat) {
    if pending == [] then from == upTo
    else
      var front, last := pending[..|pending| - 1], pending[|pending| - 1];
      if last.0 == p then from < upTo && last.1 == upTo - 1 && Consecutive(front, p, from, upTo - 1)
      else Consecutive(front, p, from, upTo)
  }

  /** Nothing is skipped: what is pending from `p` begins where the committed offset leaves off, or with the one
      message that is delivered again. */
  ghost predicate Gapless(s: State, p: nat)
    requires p < |s.committed| == |s.position|
  {
    exists from: nat :: Consecutive(s.pending, p, from, s.position[p])
      && (from == Covered(s, p) || from + 1 == Covered(s, p))
  }

  /** Each key holds what the last event of its partition's committed log left. */
  ghost predicate Folded(src: Source, s: State)
    requires Stable(src) && |s.committed| == |src.logs|
  {
    forall k ::
      Covered(s, src.part(k)) <= |src.logs[src.part(k)]| &&
      Lookup(src.key, s.table, k) == Outcome(None, LastOn(src.key, src.logs[src.part(k)][..Covered(s, src.part(k))], k))
  }

  ghost predicate Inv(src: Source, s: State)
    requires Stable(src)
  {
    && Shape(src, s)
    && Owned(src.key, src.columns, src.tenant, s.table)
    && UniqueKeys(src.key, s.table)
    && (forall p :: 0 <= p < |src.logs| ==> Covered(s, p) <= |src.logs[p]|)
    && (s.running ==> forall p :: 0 <= p < |src.logs| ==> Gapless(s, p))
    && (!s.running ==> s.pending == [])
    && Folded(src, s)
  }

  // ----- facts about logs -----

  lemma {:induction false} LastOnAppend(key: string, a: seq<Change>, b: seq<Change>, k: string)
    ensures LastOn(key, a + b, k) == if LastOn(key, b, k).Some? then LastOn(key, b, k) else LastOn(key, a, k)
  {
    if b == [] {
      assert a + b == a;
      return;
    }
    var front := b[..|b| - 1];
    assert (a + b)[..|a + b| - 1] == a + front && (a + b)[|a + b| - 1] == b[|b| - 1];
    LastOnAppend(key, a, front, k);
  }

  lemma LastOnSplit(key: string, log: seq<Change>, i: nat, j: nat, k: string)
    requires i <= j <= |log|
    ensures LastOn(key, log[..j], k)
            == if LastOn(key, log[i..j], k).Some? then LastOn(key, log[i..j], k) else LastOn(key, log[..i], k)
  {
    assert log[..j] == log[..i] + log[i..j];
    LastOnAppend(key, log[..i], log[i..j], k);
  }

  lemma LastOnSnoc(key: string, cs: seq<Change>, c: Change, k: string)
    ensures LastOn(key, cs + [c], k) == if Touches(key, c, k) then Some(c) else LastOn(key, cs, k)
  {
    assert (cs + [c])[..|cs|] == cs;
    hide Touches;
  }

  /** The pending changes to a key are those of its partition's pending slice. */
  lemma {:induction false} PendingLast(src: Source, pending: seq<(nat, nat)>, k: string, from: nat, upTo: nat)
    requires Stable(src)
    requires forall i :: 0 <= i < |pending| ==> pending[i].0 < |src.logs| && pending[i].1 < |src.logs[pending[i].0]|
    requires Consecutive(pending, src.part(k), from, upTo) && upTo <= |src.logs[src.part(k)]|
    ensures from <= upTo
    ensures LastOn(src.key, Pending(src, pending), k) == LastOn(src.key, src.logs[src.part(k)][from..upTo], k)
  {
    var log := src.logs[src.part(k)];
    if pending == [] {
      assert log[from..upTo] == [];
      return;
    }
    var front, last := pending[..|pending| - 1], pending[|pending| - 1];
    var cs, c, mine := Pending(src, front), src.logs[last.0][last.1], last.0 == src.part(k);
    assert Pending(src, pending) == cs + [c];
    assert mine ==> from < upTo && last.1 == upTo - 1;
    assert Touches(src.key, c, k) ==> mine;
    var before := if mine then upTo - 1 else upTo;
    PendingLast(src, front, k, from, before);
    hide *;
    LastOnSnoc(src.key, cs, c, k);
    if mine {
      assert log[from..upTo] == log[from..before] + [c];
      LastOnSnoc(src.key, log[from..before], c, k);
    }
  }

  lemma {:induction false} PendingWellFormed(src: Source, pending: seq<(nat, nat)>)
    requires Stable(src)
    requires forall i :: 0 <= i < |pending| ==> pending[i].0 < |src.logs| && pending[i].1 < |src.logs[pending[i].0]|
    ensures forall i :: 0 <= i < |Pending(src, pending)|
             ==> WellFormed(src.key, src.columns, src.tenant, Pending(src, pending)[i])
  {
    if pending != [] {
      PendingWellFormed(src, pending[..|pending| - 1]);
      var last := pending[|pending| - 1];
      assert WellFormed(src.key, src.columns, src.tenant, src.logs[last.0][last.1]);
      hide WellFormed;
    }
  }

  /** The offset committed for a partition: the last one pending, if any is. */
  lemma {:induction false} CommittedTo(committed: seq<Option<nat>>, pending: seq<(nat, nat)>, p: nat, from: nat,
                                       upTo: nat)
    requires p < |committed| && Consecutive(pending, p, from, upTo)
    ensures from <= upTo
    ensures CommitOffset(committed, pending)[p] == if from == upTo then committed[p] else Some(upTo - 1)
  {
    if pending != [] {
      var front, last := pending[..|pending| - 1], pending[|pending| - 1];
      CommittedTo(committed, front, p, from, if last.0 == p then upTo - 1 else upTo);
    }
  }

  // ----- preservation -----

  /** A start leaves no gap exactly when everything its wait threw away comes again. */
  lemma StartExact(src: Source, s: State, t: State, dropped: seq<nat>)
    requires Stable(src) && Inv(src, s) && Start(src, s, t, dropped)
    ensures Inv(src, t) <==> ComesAgain(s, dropped)
  {
    forall p | 0 <= p < |src.logs|
      ensures Gapless(t, p) <==> (dropped[p] > 0 ==> s.committed[p].Some?)
    {
      assert Consecutive(t.pending, p, t.position[p], t.position[p]);
      assert Covered(t, p) == Covered(s, p);
      if Gapless(t, p) {
        var from: nat :| Consecutive(t.pending, p, from, t.position[p])
            && (from == Covered(t, p) || from + 1 == Covered(t, p));
        assert from == t.position[p];
      }
    }
    forall k
      ensures Lookup(src.key, t.table, k) == Outcome(None,
              LastOn(src.key, src.logs[src.part(k)][..Covered(t, src.part(k))], k))
    {
      assert Covered(t, src.part(k)) == Covered(s, src.part(k));
    }
    hide LastOn, Lookup, Owned, UniqueKeys, Gapless;
  }

  lemma DeliverInv(src: Source, s: State, t: State, p: nat)
    requires Stable(src) && Inv(src, s) && Deliver(src, s, t, p)
    ensures Inv(src, t)
  {
    assert t.pending[..|t.pending| - 1] == s.pending;
    forall q | 0 <= q < |src.logs|
      ensures Gapless(t, q)
    {
      assert Gapless(s, q);
      var from: nat :| Consecutive(s.pending, q, from, s.position[q])
          && (from == Covered(s, q) || from + 1 == Covered(s, q));
      if q == p {
        CommittedTo(s.committed, s.pending, q, from, s.position[q]);
      }
      assert Consecutive(t.pending, q, from, t.position[q]);
    }
    assert t.committed == s.committed && t.table == s.table;
    hide LastOn, Lookup, Owned, UniqueKeys, Gapless;
  }

  lemma OutcomeTwice(first: Option<Change>, second: Option<Change>)
    ensures Outcome(Outcome(None, first), second) == Outcome(None, if second.Some? then second else first)
  {
  }

  lemma NoneOn(key: string, k: string)
    ensures LastOn(key, [], k) == None
  {
  }

  /** What a commit does to one key, whatever the batch holds. */
  lemma CommitAt(src: Source, s: State, t: State, k: string)
    requires Stable(src) && Inv(src, s) && Commit(src, s, t)
    ensures var cs, p := Pending(src, s.pending), src.part(k);
            && Covered(s, p) <= Covered(t, p) <= |src.logs[p]|
            && Lookup(src.key, t.table, k)
               == (if k in Removes(cs) then None else Outcome(None, LastOn(src.key, src.logs[p][..Covered(t, p)], k)))
            && (LastOn(src.key, cs, k).Some? ==>
                LastOn(src.key, src.logs[p][..Covered(t, p)], k) == LastOn(src.key, cs, k))
  {
    var cs, p := Pending(src, s.pending), src.part(k);
    var log := src.logs[p];
    assert Gapless(s, p);
    var from: nat :| Consecutive(s.pending, p, from, s.position[p])
        && (from == Covered(s, p) || from + 1 == Covered(s, p));
    var upTo := s.position[p];
    PendingLast(src, s.pending, k, from, upTo);
    PendingWellFormed(src, s.pending);
    CommittedTo(s.committed, s.pending, p, from, upTo);
    assert Lookup(src.key, s.table, k) == Outcome(None, LastOn(src.key, log[..Covered(s, p)], k));
    assert Covered(t, p) == if from < upTo then upTo else Covered(s, p);
    assert t.table == ApplyChanges(src.key, s.table, cs, src.tenant);
    hide *;
    LookupApply(src.key, src.columns, src.tenant, s.table, cs, k);
    OutcomeTwice(LastOn(src.key, log[..Covered(s, p)], k), LastOn(src.key, cs, k));
    if from < upTo {
      LastOnSplit(src.key, log, from, upTo, k);
      LastOnSplit(src.key, log, from, Covered(s, p), k);
      Within(src.key, log, from, Covered(s, p), upTo, k);
    } else {
      assert log[from..upTo] == [];
      NoneOn(src.key, k);
    }
  }

  /** If a slice leaves a key alone, so does each of its prefixes. */
  lemma Within(key: string, log: seq<Change>, from: nat, mid: nat, upTo: nat, k: string)
    requires from <= mid <= upTo <= |log|
    ensures LastOn(key, log[from..upTo], k).None? ==> LastOn(key, log[from..mid], k).None?
  {
    assert log[from..upTo] == log[from..mid] + log[mid..upTo];
    LastOnAppend(key, log[from..mid], log[mid..upTo], k);
  }

  /** After a commit the catalogue is the fold of the committed logs exactly when the batch re-inserted no key. */
  lemma CommitExact(src: Source, s: State, t: State)
    requires Stable(src) && Inv(src, s) && Commit(src, s, t)
    ensures Folded(src, t) <==> NoReinsert(src.key, Pending(src, s.pending))
  {
    var cs := Pending(src, s.pending);
    forall k
      ensures
        && Covered(t, src.part(k)) <= |src.logs[src.part(k)]|
        && (Lookup(src.key, t.table, k) == Outcome(None,
          LastOn(src.key, src.logs[src.part(k)][..Covered(t, src.part(k))], k))
            <==> (k in Removes(cs) ==> LastOn(src.key, cs, k) == Some(Remove(k))))
    {
      CommitAt(src, s, t, k);
      LastRowIs(src.key, cs, k);
      LastTouches(src.key, cs, k);
      hide Commit, Inv, Stable, LastOn, Lookup, Removes, Pending;
    }
    hide Commit, Inv, Stable, LastOn, Lookup, Removes, Pending;
  }

  lemma ApplyKeepsUnique(key: string, columns: set<string>, tenant: string, table: seq<Row>, cs: seq<Change>)
    requires UniqueKeys(key, table)
    requires forall i :: 0 <= i < |cs| ==> WellFormed(key, columns, tenant, cs[i])
    ensures UniqueKeys(key, ApplyChanges(key, table, cs, tenant))
  {
    PutsOwned(key, columns, tenant, cs);
    assert forall s :: s in Puts(cs) ==> key in s;
    UpsertAllKeepsUnique(key, table, Puts(cs));
    FilterKeepsUnique(key, Kept(key, Removes(cs), tenant), UpsertAll(key, table, Puts(cs)));
    hide UniqueKeys, UpsertAll, Puts, Removes, Filter;
  }

  lemma CommitInv(src: Source, s: State, t: State)
    requires Stable(src) && Inv(src, s) && Commit(src, s, t) && NoReinsert(src.key, Pending(src, s.pending))
    ensures Inv(src, t)
  {
    CommitExact(src, s, t);
    PendingWellFormed(src, s.pending);
    ApplyKeepsUnique(src.key, src.columns, src.tenant, s.table, Pending(src, s.pending));
    LookupApply(src.key, src.columns, src.tenant, s.table, Pending(src, s.pending), "");
    forall p | 0 <= p < |src.logs|
      ensures Covered(t, p) <= |src.logs[p]| && Gapless(t, p)
    {
      assert Gapless(s, p);
      var from: nat :| Consecutive(s.pending, p, from, s.position[p])
          && (from == Covered(s, p) || from + 1 == Covered(s, p));
      CommittedTo(s.committed, s.pending, p, from, s.position[p]);
      assert Consecutive(t.pending, p, t.position[p], t.position[p]);
    }
    hide Folded, UniqueKeys, Owned, Gapless, NoReinsert, ApplyChanges, Pending;
  }

  lemma StopInv(src: Source, s: State, t: State)
    requires Stable(src) && Inv(src, s) && Stop(s, t)
    ensures Inv(src, t)
  {
    assert t.committed == s.committed && t.table == s.table;
    hide LastOn, Lookup, Owned, UniqueKeys, Gapless;
  }

  lemma InitInv(src: Source, s: State)
    requires Stable(src) && Init(src, s)
    ensures Inv(src, s)
  {
    forall k
      ensures Lookup(src.key, s.table, k) == Outcome(None,
              LastOn(src.key, src.logs[src.part(k)][..Covered(s, src.part(k))], k))
    {
      assert src.logs[src.part(k)][..0] == [];
    }
  }

  lemma NextInv(src: Source, s: State, t: State)
    requires Stable(src) && Inv(src, s) && Next(src, s, t)
    ensures Inv(src, t)
  {
    if dropped :| Start(src, s, t, dropped) && ComesAgain(s, dropped) {
      hide Inv;
      StartExact(src, s, t, dropped);
      return;
    }
    if p :| Deliver(src, s, t, p) {
      hide Inv;
      DeliverInv(src, s, t, p);
      return;
    }
    if Stop(s, t) {
      hide Inv;
      StopInv(src, s, t);
      return;
    }
    hide Inv;
    CommitInv(src, s, t);
  }

  /** A run: from the beginning, step by step. */
  ghost predicate Run(src: Source, run: seq<State>) {
    Stable(src) && run != [] && Init(src, run[0]) && forall i :: 0 <= i < |run| - 1 ==> Next(src, run[i], run[i + 1])
  }

  /** No event is lost and none is applied out of turn. In every run of deliveries in any interleaving, commits of
      batches that re-insert no key, crashes, and restarts whose wait throws away only what comes again, the catalogue
      is at every moment the per-key fold of each partition's log up to its committed offset, with one row for each
      key. */
  lemma {:induction false} RunFolded(src: Source, run: seq<State>)
    requires Run(src, run)
    ensures Inv(src, run[|run| - 1])
    decreases |run|
  {
    if |run| == 1 {
      InitInv(src, run[0]);
      return;
    }
    hide Inv, Next, Init, Stable;
    var front := run[..|run| - 1];
    forall i | 0 <= i < |front| - 1
      ensures Next(src, front[i], front[i + 1])
    {
      assert front[i] == run[i] && front[i + 1] == run[i + 1];
    }
    RunFolded(src, front);
    assert Next(src, run[|run| - 2], run[|run| - 2 + 1]);
    NextInv(src, run[|run| - 2], run[|run| - 1]);
  }

  // ----- the steps are the adapter's and the writer's -----

  function LogChanges(m: Mapper, tenant: string, log: seq<Message>): (r: seq<Change>)
    requires m.key in m.columns
    ensures |r| == |log|
  {
    seq(|log|, o requires 0 <= o < |log| => ChangeOf(m, tenant, log[o]))
  }

  /** The source a topic's messages make for one mapper and tenant. */
  ghost function SourceOf(m: Mapper, tenant: string, logs: seq<seq<Message>>, part: string -> nat): Source
    requires m.key in m.columns
  {
    Source(m.key, AllColumns(m.columns), tenant, seq(|logs|,
           p requires 0 <= p < |logs| => LogChanges(m, tenant, logs[p])), part)
  }

  /** Stability asks only that keys stay in their partitions; that rows fit the table is the mapper's doing. */
  lemma MappedStable(m: Mapper, tenant: string, logs: seq<seq<Message>>, part: string -> nat)
    requires m.Valid() && forall k :: part(k) < |logs|
    requires forall p, o, k ::
               0 <= p < |logs| && 0 <= o < |logs[p]| && Touches(m.key, ChangeOf(m, tenant, logs[p][o]), k) ==>
                 part(k) == p
    ensures Stable(SourceOf(m, tenant, logs, part))
  {
    var src := SourceOf(m, tenant, logs, part);
    forall p, o | 0 <= p < |src.logs| && 0 <= o < |src.logs[p]|
      ensures src.logs[p][o] == ChangeOf(m, tenant, logs[p][o])
              && WellFormed(src.key, src.columns, src.tenant, src.logs[p][o])
    {
      ChangeWellFormed(m, tenant, logs[p][o]);
    }
    hide ChangeOf, WellFormed, Touches, AllColumns;
  }

  ghost predicate InLogs(logs: seq<seq<Message>>, pending: seq<(nat, nat)>) {
    forall i :: 0 <= i < |pending| ==> pending[i].0 < |logs| && pending[i].1 < |logs[pending[i].0]|
  }

  /** The pending messages as the adapter received them. */
  function Received(logs: seq<seq<Message>>, pending: seq<(nat, nat)>): seq<Delivery>
    requires InLogs(logs, pending)
  {
    if pending == [] then []
    else
      var last := pending[|pending| - 1];
      Received(logs, pending[..|pending| - 1]) + [Delivery(last.0, last.1, logs[last.0][last.1])]
  }

  lemma {:induction false} ReceivedChanges(m: Mapper, tenant: string, logs: seq<seq<Message>>, part: string -> nat,
                                           pending: seq<(nat, nat)>)
    requires m.key in m.columns && InLogs(logs, pending)
    ensures Pending(SourceOf(m, tenant, logs, part), pending) == Changes(m, tenant, Received(logs, pending))
  {
    if pending == [] {
      return;
    }
    var front, last := pending[..|pending| - 1], pending[|pending| - 1];
    ReceivedChanges(m, tenant, logs, part, front);
    var before, d := Received(logs, front), Delivery(last.0, last.1, logs[last.0][last.1]);
    assert (before + [d])[..|before|] == before;
    hide ChangeOf;
  }

  lemma {:induction false} ReceivedOffsets(logs: seq<seq<Message>>, pending: seq<(nat, nat)>,
                                           committed: seq<Option<nat>>, p: nat)
    requires InLogs(logs, pending) && p < |committed|
    ensures CommitOffset(committed, pending)[p].Some? && p in LastOffsets(Received(logs, pending)) ==>
              CommitOffset(committed, pending)[p].value == LastOffsets(Received(logs, pending))[p]
    ensures p in LastOffsets(Received(logs, pending)) ==> CommitOffset(committed, pending)[p].Some?
    ensures p !in LastOffsets(Received(logs, pending)) ==> CommitOffset(committed, pending)[p] == committed[p]
  {
    if pending == [] {
      return;
    }
    var front, last := pending[..|pending| - 1], pending[|pending| - 1];
    ReceivedOffsets(logs, front, committed, p);
    var before, d := Received(logs, front), Delivery(last.0, last.1, logs[last.0][last.1]);
    assert (before + [d])[..|before|] == before;
  }

  /** A commit step does to the table and the offsets what `ApplyCdcBatch` does with the batch `NextBatch` accumulates
      from the same messages. */
  lemma CommitIsTransaction(m: Mapper, tenant: string, logs: seq<seq<Message>>, part: string -> nat, s: State, t: State)
    requires m.Valid() && InLogs(logs, s.pending) && Commit(SourceOf(m, tenant, logs, part), s, t)
    ensures var ds := Received(logs, s.pending);
            t.table == DeleteAll(m.key, Upserted(s.table, m.columns, m.key, tenant, UpsertsOf(m, ds)), DeletesOf(m, ds),
              tenant)
    ensures forall p :: 0 <= p < |s.committed| ==>
              var last := LastOffsets(Received(logs, s.pending));
              if p in last then t.committed[p].Some?
                  && t.committed[p].value == last[p] else t.committed[p] == s.committed[p]
  {
    var ds := Received(logs, s.pending);
    ReceivedChanges(m, tenant, logs, part, s.pending);
    BatchApplied(m, tenant, ds, s.table);
    forall p | 0 <= p < |s.committed|
      ensures var last := LastOffsets(ds);
              if p in last then t.committed[p].Some?
                  && t.committed[p].value == last[p] else t.committed[p] == s.committed[p]
    {
      ReceivedOffsets(logs, s.pending, s.committed, p);
    }
    hide ApplyChanges, DeleteAll, Upserted, Pending, Changes, LastOffsets, CommitOffset, UpsertsOf, DeletesOf;
  }

  // ----- polling on after a failure -----

  /** Polling on after a failed apply leaves no gap exactly when every message of the lost batch had been committed
      before, so that it was only a redelivery. */
  lemma PollOnExact(src: Source, s: State, t: State)
    requires Stable(src) && Inv(src, s) && FailAndPollOn(s, t)
    ensures Inv(src, t) <==> forall i :: 0 <= i < |s.pending| ==> s.pending[i].1 < Covered(s, s.pending[i].0)
  {
    forall p | 0 <= p < |src.logs|
      ensures Gapless(t, p) <==> forall i :: 0 <= i < |s.pending| && s.pending[i].0 == p
                                  ==> s.pending[i].1 < Covered(s, p)
    {
      assert Gapless(s, p);
      var from: nat :| Consecutive(s.pending, p, from, s.position[p])
          && (from == Covered(s, p) || from + 1 == Covered(s, p));
      AllWithin(s.pending, p, from, s.position[p], Covered(s, p));
      assert Covered(t, p) == Covered(s, p);
      assert Consecutive(t.pending, p, t.position[p], t.position[p]);
      if Gapless(t, p) {
        var again: nat :| Consecutive(t.pending, p, again, t.position[p])
            && (again == Covered(t, p) || again + 1 == Covered(t, p));
        assert again == t.position[p];
      }
    }
    assert t.committed == s.committed && t.table == s.table;
    hide LastOn, Lookup, Owned, UniqueKeys, Gapless;
  }

  lemma {:induction false} AllWithin(pending: seq<(nat, nat)>, p: nat, from: nat, upTo: nat, bound: nat)
    requires Consecutive(pending, p, from, upTo) && from <= bound
    ensures from <= upTo
    ensures upTo <= bound <==> forall i :: 0 <= i < |pending| && pending[i].0 == p ==> pending[i].1 < bound
  {
    if pending == [] {
      return;
    }
    var front, last := pending[..|pending| - 1], pending[|pending| - 1];
    AllWithin(front, p, from, if last.0 == p then upTo - 1 else upTo, bound);
    assert forall i :: 0 <= i < |front| ==> pending[i] == front[i];
  }

  function Numbered(tenant: string, id: string): Row {
    map["id" := Text(id), "tenant_id" := Text(tenant)]
  }

  function TwoPuts(tenant: string): Source {
    Source("id", {"id", "tenant_id"}, tenant, [[Put(Numbered(tenant, "1")), Put(Numbered(tenant, "2"))]], _ => 0)
  }

  lemma OnePut(row: Row)
    ensures Puts([Put(row)]) == [row] && Removes([Put(row)]) == []
  {
    var cs := [Put(row)];
    assert cs[..0] == [];
    assert Puts(cs) == Puts([]) + [row];
    assert Removes(cs) == Removes([]) + [];
  }

  lemma UpsertOnly(key: string, row: Row)
    ensures UpsertAll(key, [], [row]) == [row]
  {
    assert [row][..0] == [];
    assert UpsertAll(key, [], [row]) == UpsertOne(key, [], row);
  }

  lemma ApplyOnePut(key: string, row: Row, tenant: string)
    ensures ApplyChanges(key, [], [Put(row)], tenant) == [row]
  {
    hide UpsertAll, Puts, Removes, Filter;
    OnePut(row);
    UpsertOnly(key, row);
    FilterAll(Kept(key, [], tenant), [row]);
  }

  lemma OnePending(src: Source, p: nat, o: nat)
    requires p < |src.logs| && o < |src.logs[p]|
    ensures Pending(src, [(p, o)]) == [src.logs[p][o]]
  {
    assert [(p, o)][..0] == [];
  }

  lemma NotTheOne(key: string, row: Row, k: string)
    requires Cell(row, key) != Text(k)
    ensures Lookup(key, [row], k) == None
  {
    assert [row][1..] == [];
    assert Find(key, [], Text(k)) == None;
  }

  lemma FirstInLog(tenant: string)
    ensures var log := TwoPuts(tenant).logs[0];
            |log| == 2 && LastOn("id", log[..2], "1") == Some(Put(Numbered(tenant, "1")))
    ensures Lookup("id", [Numbered(tenant, "2")], "1") == None
  {
    var log := TwoPuts(tenant).logs[0];
    assert log[..2][..1] == log[..1] && log[..2][1] == log[1];
    assert !Touches("id", log[1], "1") && Touches("id", log[0], "1");
    assert LastOn("id", log[..2], "1") == LastOn("id", log[..1], "1");
    assert |log[..1]| == 1 && log[..1][0] == log[0];
    assert LastOn("id", log[..1], "1") == Some(log[0]);
    NotTheOne("id", Numbered(tenant, "2"), "1");
  }

  /** Two partitions: a tombstone, whose offset is committed, and two puts. */
  function TombstoneAndTwoPuts(tenant: string): Source {
    Source("id", {"id", "tenant_id"}, tenant, [[Nothing], TwoPuts(tenant).logs[0]], k => 1)
  }

  lemma PutsStable(tenant: string, logs: seq<seq<Change>>, part: string -> nat, p: nat)
    requires p < |logs| && (forall k :: part(k) == p)
    requires forall q, o :: 0 <= q < |logs| && 0 <= o < |logs[q]| ==>
               if q == p then logs[q][o] in TwoPuts(tenant).logs[0] else logs[q][o] == Nothing
    ensures Stable(Source("id", {"id", "tenant_id"}, tenant, logs, part))
  {
  }

  /** A run over them: the pump starts, receives the tombstone, commits its offset and stops. */
  function TombstoneRun(): seq<State> {
    [State(false, [0, 0], [], [None, None], []),
     State(true, [0, 0], [], [None, None], []),
     State(true, [1, 0], [(0, 0)], [None, None], []),
     State(true, [1, 0], [], [Some(0), None], []),
     State(false, [1, 0], [], [Some(0), None], [])]
  }

  lemma TombstoneRuns(tenant: string)
    ensures Run(TombstoneAndTwoPuts(tenant), TombstoneRun())
  {
    var src, r := TombstoneAndTwoPuts(tenant), TombstoneRun();
    PutsStable(tenant, src.logs, src.part, 1);
    TombstoneComes(tenant, r[0], r[1], r[2]);
    TombstoneCommits(tenant, r[2], r[3]);
    StopIsNext(src, r[3], r[4]);
    hide Stable, Init, Next, TombstoneAndTwoPuts;
    forall i | 0 <= i < |r| - 1
      ensures Next(src, r[i], r[i + 1])
    {
      if i == 0 {
      } else if i == 1 {
      } else if i == 2 {
      }
    }
  }

  lemma StopIsNext(src: Source, s: State, t: State)
    requires Stop(s, t)
    ensures Next(src, s, t)
  {
  }

  lemma TombstoneComes(tenant: string, s: State, t: State, u: State)
    requires s == TombstoneRun()[0] && t == TombstoneRun()[1] && u == TombstoneRun()[2]
    ensures Init(TombstoneAndTwoPuts(tenant), s)
    ensures Next(TombstoneAndTwoPuts(tenant), s, t) && Next(TombstoneAndTwoPuts(tenant), t, u)
  {
    hide Numbered, Commit, NoReinsert;
    assert Start(TombstoneAndTwoPuts(tenant), s, t, [0, 0]) && ComesAgain(s, [0, 0]);
    assert Deliver(TombstoneAndTwoPuts(tenant), t, u, 0);
  }

  lemma ApplyNothing(key: string, tenant: string)
    ensures ApplyChanges(key, [], [Nothing], tenant) == [] && NoReinsert(key, [Nothing])
  {
    assert [Nothing][..0] == [];
    assert Puts([Nothing]) == [] && Removes([Nothing]) == [];
    assert forall k :: !Touches(key, Nothing, k);
  }

  lemma TombstoneCommits(tenant: string, s: State, t: State)
    requires s == TombstoneRun()[2] && t == TombstoneRun()[3]
    ensures Next(TombstoneAndTwoPuts(tenant), s, t)
  {
    hide ApplyChanges, NoReinsert, Numbered;
    ApplyNothing("id", tenant);
    OnePending(TombstoneAndTwoPuts(tenant), 0, 0);
    assert [(0, 0)][..0] == [];
    assert CommitOffset([None, None], [(0, 0)]) == [None, None][0 := Some(0)] == [Some(0), None];
    hide Pending, CommitOffset;
  }

  /** Started again from there, the pump receives the first put while it waits, and throws it away; its partition has no
      committed offset, so the pump goes on from the second put. */
  lemma WaitSkips(tenant: string, s: State, t: State, u: State)
    requires s == TombstoneRun()[4]
    requires t == State(true, [0, 1], [], [Some(0), None], [])
    requires u == State(true, [0, 2], [(1, 1)], [Some(0), None], [])
    ensures var src := TombstoneAndTwoPuts(tenant);
            Start(src, s, t, [0, 1]) && !ComesAgain(s, [0, 1]) && Deliver(src, t, u, 1)
  {
    assert s.committed[0].Some? && s.committed[1].None?;
    assert [0, 1][0] == 0 && [0, 1][1] == 1;
  }

  /** It then commits the second put: the first row is never stored, and the committed offset is past it. */
  lemma WaitLoses(tenant: string, u: State, v: State)
    requires u == State(true, [0, 2], [(1, 1)], [Some(0), None], [])
    requires v == State(true, [0, 2], [], [Some(0), Some(1)], [Numbered(tenant, "2")])
    ensures Commit(TombstoneAndTwoPuts(tenant), u, v)
    ensures Covered(v, 1) == 2 && Lookup("id", v.table, "1") == None
    ensures LastOn("id", TombstoneAndTwoPuts(tenant).logs[1][..2], "1") == Some(Put(Numbered(tenant, "1")))
  {
    FirstInLog(tenant);
    ApplyOnePut("id", Numbered(tenant, "2"), tenant);
    OnePending(TombstoneAndTwoPuts(tenant), 1, 1);
    assert [(1, 1)][..0] == [];
    assert CommitOffset([Some(0), None], [(1, 1)]) == [Some(0), None][1 := Some(1)] == [Some(0), Some(1)];
    hide ApplyChanges, LastOn, Lookup, Pending, CommitOffset, Numbered;
  }

  /** A run over the two puts alone: the pump starts and receives the first. */
  function FirstPutRun(): seq<State> {
    [State(false, [0], [], [None], []), State(true, [0], [], [None], []), State(true, [1], [(0, 0)], [None], [])]
  }

  lemma FirstPutRuns(tenant: string)
    ensures Run(TwoPuts(tenant), FirstPutRun())
  {
    var src, r := TwoPuts(tenant), FirstPutRun();
    PutsStable(tenant, src.logs, src.part, 0);
    assert Start(src, r[0], r[1], [0]) && ComesAgain(r[0], [0]);
    assert Deliver(src, r[1], r[2], 0);
    hide Stable, Start, Deliver, Commit, Stop, NoReinsert, Pending, ComesAgain;
    forall i | 0 <= i < |r| - 1
      ensures Next(src, r[i], r[i + 1])
    {
    }
  }

  /** From there the first batch fails, the pump polls on, the second commits: the first row is never stored, and
      the committed offset is past it, so no restart brings it back. */
  lemma PollOnLoses(tenant: string, s0: State, s1: State, s2: State, s3: State)
    requires s0 == FirstPutRun()[2]
    requires s1 == State(true, [1], [], [None], [])
    requires s2 == State(true, [2], [(0, 1)], [None], [])
    requires s3 == State(true, [2], [], [Some(1)], [Numbered(tenant, "2")])
    ensures FailAndPollOn(s0, s1) && Deliver(TwoPuts(tenant), s1, s2, 0) && Commit(TwoPuts(tenant), s2, s3)
    ensures Covered(s3, 0) == 2 && Lookup("id", s3.table, "1") == None
    ensures LastOn("id", TwoPuts(tenant).logs[0][..2], "1") == Some(Put(Numbered(tenant, "1")))
  {
    FirstInLog(tenant);
    ApplyOnePut("id", Numbered(tenant, "2"), tenant);
    OnePending(TwoPuts(tenant), 0, 1);
    assert [(0, 1)][..0] == [];
    assert CommitOffset([None], [(0, 1)]) == [Some(1)];
    hide ApplyChanges, LastOn, Lookup, Pending, CommitOffset, Numbered;
  }
}
