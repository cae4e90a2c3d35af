/** The reader pool's refresh protocol: one writer that commits and then bumps a counter, and workers that load the
    counter, re-attach, load it again, and serve, all interleaved. */
module ReaderPool {
  /** `OnWrite` re-attaches when the counter moved or the attach is `interval` old. */
  datatype Policy = Always | OnWrite(interval: nat) {
    /** Starting a pool raises the interval to at least one second. */
    predicate Valid() {
      OnWrite? ==> interval >= 1
    }
  }

  /** Between its steps a worker is idle, is attaching since it loaded `gen` at `time`, or has attached and has yet to
      reload the counter. */
  datatype Phase = Idle | Attaching(gen: nat, time: nat) | Reloading(gen: nat, time: nat)

  /** `attached` is how many commits the worker's snapshot holds. `missed` records that a bump for a commit after the
      snapshot came before the reload, `detached` that the worker has detached the catalogue and not attached it
      again. */
  datatype Worker = Worker(
    attached: nat,
    attachStart: nat,
    lastGen: nat,
    lastRefresh: nat,
    phase: Phase,
    missed: bool,
    detached: bool)

  /** A query that was answered: the counter and time it saw first, and the snapshot it was served from. */
  datatype Served = Served(gen: nat, time: nat, snapshot: nat, refreshed: bool, missed: bool, attachTook: int)

  /** `commits` holds the time of each commit, `upTo` the number of commits there were at each value of the counter. */
  datatype State = State(now: nat, commits: seq<nat>, upTo: seq<nat>, workers: seq<Worker>, served: seq<Served>)

  function Gen(s: State): nat
    requires s.upTo != []
  {
    |s.upTo| - 1
  }

  predicate NeedsRefresh(policy: Policy, w: Worker, gen: nat, now: nat) {
    policy.Always? || gen != w.lastGen || now >= w.lastRefresh + policy.interval
  }

  // ----- the steps -----

  ghost predicate Init(s: State) {
    && s.commits == [] && s.upTo == [0] && s.served == []
    && forall i :: 0 <= i < |s.workers| ==>
         s.workers[i] == Worker(0, s.workers[i].attachStart, 0, s.now, Idle, false, false)
           && s.workers[i].attachStart <= s.now
  }

  predicate Commit(s: State, t: State) {
    t == s.(commits := s.commits + [s.now])
  }

  function Noticed(w: Worker, commits: nat): Worker {
    if w.phase.Reloading? && w.attached < commits then w.(missed := true) else w
  }

  /** The writer bumps the counter some time after it commits; several commits may share a bump. */
  predicate Bump(s: State, t: State) {
    && |t.workers| == |s.workers|
    && t == s.(upTo := s.upTo + [|s.commits|], workers := t.workers)
    && forall i :: 0 <= i < |s.workers| ==> t.workers[i] == Noticed(s.workers[i], |s.commits|)
  }

  predicate Tick(s: State, t: State) {
    t.now >= s.now && t == s.(now := t.now)
  }

  /** A query arrives at an idle worker, which loads the counter; it is served at once unless a refresh is needed. */
  predicate Load(policy: Policy, s: State, t: State, i: nat)
    requires s.upTo != []
  {
    && i < |s.workers| && s.workers[i].phase.Idle?
    && var w := s.workers[i];
       if NeedsRefresh(policy, w, Gen(s), s.now) then
         t == s.(workers := s.workers[i := w.(phase := Attaching(Gen(s), s.now))])
       else
         t == s.(served := s.served + [Served(Gen(s), s.now, w.attached, false, w.missed,
           w.lastRefresh - w.attachStart)])
  }

  /** DETACH and then ATTACH, in one batch. There must be something to detach. */
  predicate AttachOk(s: State, t: State, i: nat) {
    && i < |s.workers| && s.workers[i].phase.Attaching? && !s.workers[i].detached
    && var w := s.workers[i];
       t == s.(workers := s.workers[i := w.(attached := |s.commits|, attachStart := w.phase.time, missed := false,
                                            phase := Reloading(w.phase.gen, w.phase.time))])
  }

  /** The query is answered with an error, and nothing is recorded. The batch stops at the statement that failed: if
      that was the ATTACH, the catalogue is detached by then. */
  predicate AttachFail(s: State, t: State, i: nat) {
    && i < |s.workers| && s.workers[i].phase.Attaching? && i < |t.workers|
    && (s.workers[i].detached ==> t.workers[i].detached)
    && t == s.(workers := s.workers[i := s.workers[i].(phase := Idle, detached := t.workers[i].detached)])
  }

  predicate Reload(s: State, t: State, i: nat)
    requires s.upTo != []
  {
    && i < |s.workers| && s.workers[i].phase.Reloading?
    && var w := s.workers[i];
       t == s.(workers := s.workers[i := w.(lastGen := Gen(s), lastRefresh := s.now, phase := Idle)],
               served := s.served + [Served(w.phase.gen, w.phase.time, w.attached, true, w.missed,
                 s.now - w.attachStart)])
  }

  ghost predicate Next(policy: Policy, s: State, t: State) {
    || Commit(s, t)
    || Bump(s, t)
    || Tick(s, t)
    || (s.upTo != [] && exists i :: Load(policy, s, t, i) || AttachOk(s, t, i) || AttachFail(s, t, i)
                         || Reload(s, t, i))
  }

  // ----- the invariant -----

  ghost predicate Clock(s: State) {
    && s.upTo != []
    && (forall g :: 0 <= g < |s.upTo| ==> s.upTo[g] <= |s.commits|)
    && (forall i :: 0 <= i < |s.commits| ==> s.commits[i] <= s.now)
  }

  /** Every commit the snapshot lacks was made after the attach began. */
  predicate NotBefore(commits: seq<nat>, snapshot: nat, time: nat) {
    forall i :: snapshot <= i < |commits| ==> commits[i] >= time
  }

  ghost predicate WorkerInv(s: State, w: Worker)
    requires s.upTo != []
  {
    && w.attached <= |s.commits| && w.lastGen < |s.upTo|
    && w.attachStart <= s.now && w.lastRefresh <= s.now
    && NotBefore(s.commits, w.attached, w.attachStart)
    && (w.phase.Reloading? ==>
          && (w.missed <==> s.upTo[Gen(s)] > w.attached)
          && w.phase.time == w.attachStart && w.phase.gen < |s.upTo| && s.upTo[w.phase.gen] <= w.attached)
    && (!w.phase.Reloading? ==> w.attachStart <= w.lastRefresh && (w.missed <==> s.upTo[w.lastGen] > w.attached))
    && (w.phase.Attaching? ==> w.phase.time <= s.now && w.phase.gen < |s.upTo|)
  }

  /** A served snapshot holds every commit whose bump the query's first load saw, exactly when the query refreshed or
      its worker had missed no bump. */
  ghost predicate Fresh(s: State, e: Served) {
    && e.gen < |s.upTo| && e.time <= s.now
    && (s.upTo[e.gen] <= e.snapshot <==> e.refreshed || !e.missed)
  }

  /** A refreshed query is served nothing older than itself; any other is served a snapshot less than the interval and
      the attach's own duration old. */
  ghost predicate Bounded(policy: Policy, s: State, e: Served) {
    && e.attachTook >= 0
    && (e.refreshed ==> NotBefore(s.commits, e.snapshot, e.time))
    && (!e.refreshed ==>
          policy.OnWrite? && forall i :: e.snapshot <= i < |s.commits|
                              ==> e.time < s.commits[i] + policy.interval + e.attachTook)
  }

  /** A worker attaches only while it needs to. */
  predicate AttachesDirty(policy: Policy, s: State, w: Worker)
    requires s.upTo != []
  {
    w.phase.Attaching? ==> NeedsRefresh(policy, w, Gen(s), s.now)
  }

  ghost predicate Inv(policy: Policy, s: State) {
    && policy.Valid() && Clock(s)
    && (forall i :: 0 <= i < |s.workers| ==> WorkerInv(s, s.workers[i]) && AttachesDirty(policy, s, s.workers[i]))
    && (forall i :: 0 <= i < |s.served| ==> Fresh(s, s.served[i]) && Bounded(policy, s, s.served[i]))
  }

  // ----- preservation -----

  lemma CommitInv(policy: Policy, s: State, t: State)
    requires Inv(policy, s) && Commit(s, t)
    ensures Inv(policy, t)
  {
    forall i | 0 <= i < |t.served|
      ensures Fresh(t, t.served[i]) && Bounded(policy, t, t.served[i])
    {
      assert Fresh(s, s.served[i]) && Bounded(policy, s, s.served[i]);
    }
    forall i | 0 <= i < |t.workers|
      ensures WorkerInv(t, t.workers[i]) && AttachesDirty(policy, t, t.workers[i])
    {
      assert WorkerInv(s, s.workers[i]) && AttachesDirty(policy, s, s.workers[i]);
    }
  }

  lemma BumpInv(policy: Policy, s: State, t: State)
    requires Inv(policy, s) && Bump(s, t)
    ensures Inv(policy, t)
  {
    forall i | 0 <= i < |t.served|
      ensures Fresh(t, t.served[i]) && Bounded(policy, t, t.served[i])
    {
      assert Fresh(s, s.served[i]) && Bounded(policy, s, s.served[i]);
    }
    forall i | 0 <= i < |t.workers|
      ensures WorkerInv(t, t.workers[i]) && AttachesDirty(policy, t, t.workers[i])
    {
      assert WorkerInv(s, s.workers[i]) && AttachesDirty(policy, s, s.workers[i]);
    }
  }

  lemma TickInv(policy: Policy, s: State, t: State)
    requires Inv(policy, s) && Tick(s, t)
    ensures Inv(policy, t)
  {
    forall i | 0 <= i < |t.served|
      ensures Fresh(t, t.served[i]) && Bounded(policy, t, t.served[i])
    {
      assert Fresh(s, s.served[i]) && Bounded(policy, s, s.served[i]);
    }
    forall i | 0 <= i < |t.workers|
      ensures WorkerInv(t, t.workers[i]) && AttachesDirty(policy, t, t.workers[i])
    {
      assert WorkerInv(s, s.workers[i]) && AttachesDirty(policy, s, s.workers[i]);
    }
  }

  /** A worker's own step changes that worker and at most adds one answer. */
  lemma WorkerStepInv(policy: Policy, s: State, t: State, i: nat)
    requires Inv(policy, s) && i < |s.workers| == |t.workers| && WorkerInv(s, t.workers[i])
             && AttachesDirty(policy, s, t.workers[i])
    requires t == s.(workers := s.workers[i := t.workers[i]], served := t.served)
    requires t.served == s.served || (t.served != [] && t.served[..|t.served| - 1] == s.served
               && Fresh(s, t.served[|t.served| - 1]) && Bounded(policy, s, t.served[|t.served| - 1]))
    ensures Inv(policy, t)
  {
    forall j | 0 <= j < |t.workers|
      ensures WorkerInv(t, t.workers[j]) && AttachesDirty(policy, t, t.workers[j])
    {
      assert WorkerInv(s, s.workers[j]) && AttachesDirty(policy, s, s.workers[j]);
    }
    forall j | 0 <= j < |t.served|
      ensures Fresh(t, t.served[j]) && Bounded(policy, t, t.served[j])
    {
      if t.served == s.served || j < |t.served| - 1 {
        assert t.served[j] == s.served[j];
      }
    }
  }

  lemma LoadInv(policy: Policy, s: State, t: State, i: nat)
    requires Inv(policy, s) && Load(policy, s, t, i)
    ensures Inv(policy, t)
  {
    assert WorkerInv(s, s.workers[i]);
    assert t.workers == s.workers[i := t.workers[i]];
    if !NeedsRefresh(policy, s.workers[i], Gen(s), s.now) {
      assert t.served[..|t.served| - 1] == s.served;
    }
    WorkerStepInv(policy, s, t, i);
  }

  lemma AttachInv(policy: Policy, s: State, t: State, i: nat)
    requires Inv(policy, s) && (AttachOk(s, t, i) || AttachFail(s, t, i))
    ensures Inv(policy, t)
  {
    assert WorkerInv(s, s.workers[i]);
    WorkerStepInv(policy, s, t, i);
  }

  lemma ReloadInv(policy: Policy, s: State, t: State, i: nat)
    requires Inv(policy, s) && Reload(s, t, i)
    ensures Inv(policy, t)
  {
    assert WorkerInv(s, s.workers[i]);
    assert t.served[..|t.served| - 1] == s.served;
    WorkerStepInv(policy, s, t, i);
  }

  lemma NextInv(policy: Policy, s: State, t: State)
    requires Inv(policy, s) && Next(policy, s, t)
    ensures Inv(policy, t)
  {
    hide Inv;
    if Commit(s, t) {
      CommitInv(policy, s, t);
      return;
    }
    if Bump(s, t) {
      BumpInv(policy, s, t);
      return;
    }
    if Tick(s, t) {
      TickInv(policy, s, t);
      return;
    }
    var i :| Load(policy, s, t, i) || AttachOk(s, t, i) || AttachFail(s, t, i) || Reload(s, t, i);
    hide Load, AttachOk, AttachFail, Reload;
    if Load(policy, s, t, i) {
      LoadInv(policy, s, t, i);
      return;
    }
    if Reload(s, t, i) {
      ReloadInv(policy, s, t, i);
      return;
    }
    AttachInv(policy, s, t, i);
  }

  ghost predicate Run(policy: Policy, run: seq<State>) {
    policy.Valid() && run != [] && Init(run[0]) && forall i :: 0 <= i < |run| - 1 ==> Next(policy, run[i], run[i + 1])
  }

  lemma RunPrefix(policy: Policy, run: seq<State>)
    requires Run(policy, run) && |run| > 1
    ensures Run(policy, run[..|run| - 1]) && Next(policy, run[|run| - 2], run[|run| - 1])
  {
    var front := run[..|run| - 1];
    hide Next, Init;
    forall i | 0 <= i < |front| - 1
      ensures Next(policy, front[i], front[i + 1])
    {
      assert front[i] == run[i] && front[i + 1] == run[i + 1];
    }
    assert Next(policy, run[|run| - 2], run[|run| - 2 + 1]);
  }

  /** In every interleaving, every answer is fresh exactly when its query refreshed or its worker had missed no bump,
      and every answer is of bounded age. */
  lemma {:induction false} EveryAnswer(policy: Policy, run: seq<State>)
    requires Run(policy, run)
    ensures Inv(policy, run[|run| - 1])
    decreases |run|
  {
    if |run| == 1 {
      return;
    }
    RunPrefix(policy, run);
    hide Run, Inv, Next;
    EveryAnswer(policy, run[..|run| - 1]);
    NextInv(policy, run[|run| - 2], run[|run| - 1]);
  }

  // ----- when no bump lands between an attach and its reload -----

  /** Not a bump, or one that finds no worker between its attach and its reload. */
  ghost predicate BumpsOutside(s: State, t: State) {
    Bump(s, t) ==> forall j :: 0 <= j < |s.workers| ==> !s.workers[j].phase.Reloading?
  }

  /** No bump came while a worker had attached and not yet reloaded. */
  ghost predicate NoBumpInside(run: seq<State>) {
    forall i :: 0 <= i < |run| - 1 ==> BumpsOutside(run[i], run[i + 1])
  }

  ghost predicate NoneMissed(s: State) {
    (forall j :: 0 <= j < |s.workers| ==> !s.workers[j].missed)
      && (forall j :: 0 <= j < |s.served| ==> !s.served[j].missed)
  }

  lemma NextMissesNone(policy: Policy, s: State, t: State)
    requires Next(policy, s, t) && NoneMissed(s) && BumpsOutside(s, t)
    ensures NoneMissed(t)
  {
  }

  lemma {:induction false} RunMissesNone(policy: Policy, run: seq<State>)
    requires Run(policy, run) && NoBumpInside(run)
    ensures NoneMissed(run[|run| - 1])
    decreases |run|
  {
    if |run| == 1 {
      return;
    }
    var front := run[..|run| - 1];
    RunPrefix(policy, run);
    hide Run, Next, NoneMissed, BumpsOutside;
    forall i | 0 <= i < |front| - 1
      ensures BumpsOutside(front[i], front[i + 1])
    {
      assert front[i] == run[i] && front[i + 1] == run[i + 1];
    }
    RunMissesNone(policy, front);
    var i := |run| - 2;
    assert run[i + 1] == run[|run| - 1];
    NextMissesNone(policy, run[i], run[i + 1]);
  }

  /** Where no bump lands between a re-attach and its reload, every answer holds every commit whose bump preceded the
      query's counter load. */
  lemma AllFresh(policy: Policy, run: seq<State>, e: Served)
    requires Run(policy, run) && NoBumpInside(run) && e in run[|run| - 1].served
    ensures e.gen < |run[|run| - 1].upTo| && run[|run| - 1].upTo[e.gen] <= e.snapshot
  {
    EveryAnswer(policy, run);
    RunMissesNone(policy, run);
    var s := run[|run| - 1];
    var j :| 0 <= j < |s.served| && s.served[j] == e;
    assert Fresh(s, s.served[j]);
  }

  // ----- the race, and what survives it -----

  /** A reload leaves the worker believing itself up to date when it is not exactly if it missed a bump: the counter it
      records then stands for a commit its snapshot lacks. */
  lemma ReloadExact(policy: Policy, s: State, t: State, i: nat)
    requires Inv(policy, s) && Reload(s, t, i)
    ensures t.workers[i].lastGen == Gen(t)
    ensures t.upTo[t.workers[i].lastGen] <= t.workers[i].attached <==> !s.workers[i].missed
  {
    assert WorkerInv(s, s.workers[i]);
  }

  /** One worker, attached at time 0. A second later a query comes; the worker re-attaches; a commit and its bump
      arrive; the worker reloads the counter; another query comes. */
  function Race(): seq<State> {
    var w := Worker(0, 0, 0, 0, Idle, false, false);
    var attached := Worker(0, 1, 0, 0, Reloading(0, 1), false, false);
    var idle := Worker(0, 1, 1, 1, Idle, true, false);
    var first := Served(0, 1, 0, true, true, 0);
    [State(0, [], [0], [w], []),
     State(1, [], [0], [w], []),
     State(1, [], [0], [w.(phase := Attaching(0, 1))], []),
     State(1, [], [0], [attached], []),
     State(1, [1], [0], [attached], []),
     State(1, [1], [0, 1], [attached.(missed := true)], []),
     State(1, [1], [0, 1], [idle], [first]),
     State(1, [1], [0, 1], [idle], [first, Served(1, 1, 0, false, true, 0)])]
  }

  /** It is a run, and its last query finds the counter unmoved and is served without the commit it should have seen. */
  lemma RaceServesStale()
    ensures Run(OnWrite(1), Race())
    ensures var end := Race()[7];
            |end.served| == 2 && end.upTo[end.served[1].gen] > end.served[1].snapshot
  {
    var r := Race();
    assert Tick(r[0], r[1]);
    assert Load(OnWrite(1), r[1], r[2], 0);
    assert AttachOk(r[2], r[3], 0);
    assert Commit(r[3], r[4]);
    assert Bump(r[4], r[5]);
    assert Reload(r[5], r[6], 0);
    assert Load(OnWrite(1), r[6], r[7], 0);
    hide Tick, Load, AttachOk, Commit, Bump, Reload, AttachFail;
    forall i | 0 <= i < |r| - 1
      ensures Next(OnWrite(1), r[i], r[i + 1])
    {
    }
  }

  /** A failed re-attach never marks a worker clean: until one of its own reloads succeeds, each later query finds a
      refresh is still needed. */
  lemma StaysDirty(policy: Policy, s: State, t: State, i: nat)
    requires Inv(policy, s) && Next(policy, s, t) && i < |s.workers|
    requires NeedsRefresh(policy, s.workers[i], Gen(s), s.now) && !Reload(s, t, i)
    ensures i < |t.workers| && t.upTo != [] && NeedsRefresh(policy, t.workers[i], Gen(t), t.now)
  {
    assert WorkerInv(s, s.workers[i]);
  }

  /** The retry a failed re-attach leaves for the next query cannot succeed once the catalogue is detached: the batch
      begins by detaching it. */
  ghost predicate Stuck(policy: Policy, s: State, i: nat) {
    && i < |s.workers| && s.upTo != []
    && s.workers[i].detached && !s.workers[i].phase.Reloading?
    && NeedsRefresh(policy, s.workers[i], Gen(s), s.now)
  }

  /** A worker whose ATTACH has failed after its DETACH answers no query again: it stays stuck whatever it and the
      others do, and each query it takes ends in an error. */
  lemma StuckForever(policy: Policy, s: State, t: State, i: nat)
    requires Inv(policy, s) && Next(policy, s, t) && Stuck(policy, s, i)
    ensures Stuck(policy, t, i)
    ensures !AttachOk(s, t, i) && !Reload(s, t, i)
    ensures Load(policy, s, t, i) ==> t.served == s.served && t.workers[i].phase.Attaching?
  {
    assert WorkerInv(s, s.workers[i]);
    StaysDirty(policy, s, t, i);
  }

  /** A failed ATTACH is how a worker gets there. */
  lemma DetachedIsStuck(policy: Policy, s: State, t: State, i: nat)
    requires Inv(policy, s) && AttachFail(s, t, i) && t.workers[i].detached
    ensures Stuck(policy, t, i)
  {
    assert AttachesDirty(policy, s, s.workers[i]);
  }

  /** The next query's retry can succeed: it loads the counter, and its re-attach goes through. */
  ghost predicate Retries(policy: Policy, s: State, i: nat)
    requires s.upTo != []
  {
    exists u, v :: Load(policy, s, u, i) && AttachOk(u, v, i)
  }

  /** The promised retry can succeed exactly when the failed batch left the catalogue attached, which is when the
      statement that failed was the DETACH. */
  lemma RetryExact(policy: Policy, s: State, t: State, i: nat)
    requires Inv(policy, s) && AttachFail(s, t, i)
    ensures Retries(policy, t, i) <==> !t.workers[i].detached
  {
    assert WorkerInv(s, s.workers[i]) && AttachesDirty(policy, s, s.workers[i]);
    if !t.workers[i].detached {
      var w := t.workers[i].(phase := Attaching(Gen(t), t.now));
      var u := t.(workers := t.workers[i := w]);
      var v := u.(workers := u.workers[i := w.(attached := |u.commits|, attachStart := t.now, missed := false,
                                               phase := Reloading(Gen(t), t.now))]);
      assert Load(policy, t, u, i) && AttachOk(u, v, i);
    }
  }

  /** However the pool goes on, a stuck worker stays stuck. */
  lemma {:induction false} StuckThroughout(policy: Policy, run: seq<State>, i: nat)
    requires run != [] && Inv(policy, run[0]) && Stuck(policy, run[0], i)
    requires forall k :: 0 <= k < |run| - 1 ==> Next(policy, run[k], run[k + 1])
    ensures Inv(policy, run[|run| - 1]) && Stuck(policy, run[|run| - 1], i)
    decreases |run|
  {
    if |run| == 1 {
      return;
    }
    hide *;
    NextInv(policy, run[0], run[0 + 1]);
    StuckForever(policy, run[0], run[0 + 1], i);
    var rest := run[1..];
    forall k | 0 <= k < |rest| - 1
      ensures Next(policy, rest[k], rest[k + 1])
    {
      assert rest[k] == run[k + 1] && rest[k + 1] == run[k + 1 + 1];
    }
    StuckThroughout(policy, rest, i);
  }

  /** One worker, attached at time 0. A second later a query comes, and the re-attach fails after its DETACH. */
  function Stranding(): seq<State> {
    var w := Worker(0, 0, 0, 0, Idle, false, false);
    [State(0, [], [0], [w], []),
     State(1, [], [0], [w], []),
     State(1, [], [0], [w.(phase := Attaching(0, 1))], []),
     State(1, [], [0], [w.(detached := true)], [])]
  }

  /** It is a run, and it ends with the worker stuck. */
  lemma StrandingStrands()
    ensures Run(OnWrite(1), Stranding()) && Stuck(OnWrite(1), Stranding()[3], 0)
  {
    var r := Stranding();
    assert Tick(r[0], r[1]);
    assert Load(OnWrite(1), r[1], r[2], 0);
    assert AttachFail(r[2], r[3], 0);
    hide Tick, Load, AttachOk, Commit, Bump, Reload, AttachFail;
    forall i | 0 <= i < |r| - 1
      ensures Next(OnWrite(1), r[i], r[i + 1])
    {
    }
  }

  // ----- dispatch -----

  /** The worker the `i`-th query from now goes to, when the dispatch counter stands at `next`. */
  function Dispatch(next: nat, i: nat, workers: nat): (w: nat)
    requires workers > 0
    ensures w < workers
  {
    (next + i) % workers
  }

  lemma ModIs(q: nat, n: nat, r: nat)
    requires r < n
    ensures (q * n + r) % n == r
  {
    var x := q * n + r;
    assert x == (x / n) * n + x % n;
    var d := x / n - q;
    assert d * n == r - x % n;
    NoMultipleBetween(d, n);
  }

  lemma NoMultipleBetween(d: int, n: int)
    requires n > 0
    ensures -n < d * n < n ==> d == 0
  {
    if d >= 1 {
      assert (d - 1) * n >= 0;
    } else if d <= -1 {
      assert (-d - 1) * n >= 0;
    }
  }

  /** Stepping from one residue: add, and wrap at most once. */
  lemma DispatchIs(next: nat, i: nat, workers: nat)
    requires i < workers
    ensures var r := next % workers;
            Dispatch(next, i, workers) == if r + i < workers then r + i else r + i - workers
  {
    var q, r := next / workers, next % workers;
    assert next == q * workers + r;
    if r + i < workers {
      ModIs(q, workers, r + i);
    } else {
      assert (q + 1) * workers == q * workers + workers;
      ModIs(q + 1, workers, r + i - workers);
      assert next + i == (q + 1) * workers + (r + i - workers);
    }
  }

  ghost predicate Gets(next: nat, workers: nat, w: nat)
    requires workers > 0
  {
    exists i: nat :: i < workers && Dispatch(next, i, workers) == w
  }

  /** Of any `workers` consecutive queries, each worker gets exactly one. */
  lemma RoundRobin(next: nat, workers: nat)
    requires workers > 0
    ensures forall i, j :: 0 <= i < j < workers ==> Dispatch(next, i, workers) != Dispatch(next, j, workers)
    ensures forall w: nat :: w < workers ==> Gets(next, workers, w)
  {
    forall i | 0 <= i < workers
      ensures var r := next % workers;
              Dispatch(next, i, workers) == if r + i < workers then r + i else r + i - workers
    {
      DispatchIs(next, i, workers);
    }
    hide Dispatch;
    var r := next % workers;
    forall w: nat | w < workers
      ensures Gets(next, workers, w)
    {
      var i := if r <= w then w - r else w + workers - r;
      assert Dispatch(next, i, workers) == w;
    }
  }
}
