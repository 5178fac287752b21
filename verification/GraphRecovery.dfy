/** What a convergence promises for each way in which it can end, and what follows from that. */
module GraphRecovery {
  import opened Options
  import opened Lists
  import opened GraphModel
  import opened GraphGates
  import opened GraphRetirement
  import Jobs

  /** How far a run has come when it fails. */
  datatype Stage = Materializing | Publishing(done: nat) | Retiring

  /** `returned` is false when only the inspection after the guarded part failed. */
  datatype Outcome = NotStarted | Done(returned: bool) | GaveUp(stage: Stage, compensated: bool)

  // ---- the external admission ----

  /** The callbacks that a run has made: the commit, which succeeded, and the rollback, which may have thrown. */
  datatype Admission = Admission(committed: bool, rolledBack: bool, threw: bool)

  predicate InForce(a: Admission) {
    a.committed && (!a.rolledBack || a.threw)
  }

  /** The commit has succeeded exactly when the caller asked for one and the run came past it, and it is rolled
      back exactly when the run then fails and the caller can take it back. */
  ghost predicate AdmissionKept(ctx: Context, outcome: Outcome, a: Admission) {
    match outcome
    case NotStarted => a == Admission(false, false, false)
    case Done(_) => a == Admission(ctx.commits, false, false)
    case GaveUp(stage, _) =>
      && (a.committed <==> ctx.commits && stage != Materializing)
      && (a.rolledBack <==> a.committed && ctx.rollsBack)
      && (a.threw ==> a.rolledBack)
  }

  /** After a failure the admission is in force exactly when the run had come past the commit, and the caller
      cannot take it back or failed to. */
  lemma AdmissionAfterFailure(ctx: Context, stage: Stage, compensated: bool, a: Admission)
    requires AdmissionKept(ctx, GaveUp(stage, compensated), a)
    ensures InForce(a) <==> ctx.commits && stage != Materializing && (ctx.rollsBack ==> a.threw)
  {}

  // ---- compensation ----

  /** How far the catch block has come: `removed` of the created instances and `restarted` of the stopped ones
      are dealt with, and Docker kept the containers in `kept`. `before` is what Docker had been asked for when it
      began, and `heard` how much it had said. */
  datatype Undo = Undo(before: Asked, heard: nat, removed: nat, restarted: nat, kept: set<string>)

  /** The one at which the store refused the patch has been asked for too. */
  function Reached(n: nat, total: nat): nat {
    if n < total then n + 1 else n
  }

  /** What the catch block has asked Docker for: a removal of every created instance, then a start of every
      stopped one, up to the first whose patch the store refuses. */
  ghost predicate UndoAsked(undo: Undo, created: seq<Row>, stopped: seq<Row>, asked: Asked) {
    && undo.removed <= |created| && undo.restarted <= |stopped|
    && (undo.removed < |created| ==> undo.restarted == 0)
    && asked == undo.before.(
         removals := undo.before.removals + Ids(created[..Reached(undo.removed, |created|)]),
         starts := undo.before.starts + Ids(stopped[..RestartsBegun(undo, |created|, |stopped|)]))
  }

  /** The created instances up to here are failed; the stopped ones are ready exactly when Docker's own answer to
      their probe was that they are healthy. */
  ghost predicate UndoRows(undo: Undo, created: seq<Row>, stopped: seq<Row>, rows: Rows, checks: seq<Check>) {
    && undo.removed <= |created| && AllFailed(rows, created[..undo.removed])
    && undo.restarted <= |stopped| && AllRestarted(rows, checks, undo.heard, stopped[..undo.restarted])
  }

  ghost predicate AllFailed(rows: Rows, list: seq<Row>) {
    forall i :: 0 <= i < |list| ==> IsFailed(rows, list[i].id)
  }

  /** From place `from` on, Docker was asked to start and then to probe these containers, one after the other, and
      nothing else. */
  ghost predicate RestartsHeard(checks: seq<Check>, from: nat, list: seq<Row>) {
    |checks| == from + 2 * |list| && forall i :: 0 <= i < |list| ==> RestartHeard(checks, from + 2 * i, list[i].id)
  }

  ghost predicate RestartHeard(checks: seq<Check>, at: nat, id: string) {
    && at + 1 < |checks| && checks[at].Started? && checks[at].id == id
    && checks[at + 1].Probed? && checks[at + 1].id == id
  }

  /** The row follows the answer to its probe. */
  ghost predicate Restarted(rows: Rows, checks: seq<Check>, at: nat, id: string) {
    && RestartHeard(checks, at, id) && id in rows
    && rows[id].status == if checks[at + 1].healthy then Ready else Failed
  }

  ghost predicate AllRestarted(rows: Rows, checks: seq<Check>, from: nat, list: seq<Row>) {
    forall i :: 0 <= i < |list| ==> Restarted(rows, checks, from + 2 * i, list[i].id)
  }

  lemma FailedMore(before: Rows, after: Rows, list: seq<Row>, i: nat)
    requires i < |list| && AllFailed(before, list[..i]) && list[i].id in before
    requires after == before[list[i].id := before[list[i].id].(status := Failed)]
    ensures AllFailed(after, list[..i + 1])
  {
    forall j | 0 <= j < i ensures IsFailed(after, list[j].id) { assert list[..i][j] == list[j]; }
  }

  lemma {:induction false} RestartedMore(before: Rows, after: Rows, heard: seq<Check>, checks: seq<Check>, from: nat,
                                         list: seq<Row>, i: nat, healthy: bool)
    requires i < |list| && DistinctRows(list) && RestartsHeard(heard, from, list[..i])
    requires AllRestarted(before, heard, from, list[..i]) && list[i].id in before
    requires exists ok :: checks == heard + [Started(list[i].id, ok), Probed(list[i].id, healthy)]
    requires after == before[list[i].id := before[list[i].id].(status := if healthy then Ready else Failed)]
    ensures RestartsHeard(checks, from, list[..i + 1]) && AllRestarted(after, checks, from, list[..i + 1])
  {
    HeardMore(heard, checks, from, list, i, healthy);
    forall j | 0 <= j <= i ensures Restarted(after, checks, from + 2 * j, list[..i + 1][j].id) {
      if j < i {
        assert list[..i][j] == list[j] && Restarted(before, heard, from + 2 * j, list[j].id);
      }
    }
  }

  lemma {:induction false} HeardMore(heard: seq<Check>, checks: seq<Check>, from: nat, list: seq<Row>, i: nat,
                                     healthy: bool)
    requires i < |list| && RestartsHeard(heard, from, list[..i])
    requires exists ok :: checks == heard + [Started(list[i].id, ok), Probed(list[i].id, healthy)]
    ensures RestartsHeard(checks, from, list[..i + 1]) && checks[from + 2 * i + 1] == Probed(list[i].id, healthy)
    ensures forall j :: 0 <= j < i ==> checks[from + 2 * j + 1] == heard[from + 2 * j + 1]
  {
    forall j | 0 <= j <= i ensures RestartHeard(checks, from + 2 * j, list[..i + 1][j].id) {
      if j < i { assert list[..i][j] == list[j] && RestartHeard(heard, from + 2 * j, list[..i][j].id); }
    }
  }

  ghost predicate IsFailed(rows: Rows, id: string) {
    id in rows && rows[id].status == Failed
  }

  /** The compensation as a whole. It is complete exactly when the store has refused none of its patches. */
  ghost predicate Undone(undo: Undo, complete: bool, refusals: nat, now: Pool, stopped: seq<Row>) {
    && UndoAsked(undo, now.created, stopped, now.asked) && UndoRows(undo, now.created, stopped, now.rows, now.checks)
    && RestartsHeard(now.checks, undo.heard, stopped[..RestartsBegun(undo, |now.created|, |stopped|)])
    && (complete <==> undo.removed == |now.created| && undo.restarted == |stopped|)
    && refusals == if complete then 0 else 1
  }

  function RestartsBegun(undo: Undo, created: nat, stopped: nat): nat {
    if undo.removed < created then 0 else Reached(undo.restarted, stopped)
  }

  /** What was created had neither a row nor a container before, and has a row now. */
  ghost predicate CreatedNew(start: Pool, rows: Rows, created: seq<Row>) {
    forall i :: 0 <= i < |created| ==> IsNewIn(start, rows, created[i].id)
  }

  ghost predicate IsNewIn(start: Pool, rows: Rows, id: string) {
    id !in start.rows && id !in start.containers && id in rows
  }

  lemma GrownIsNew(start: Pool, now: Pool)
    requires Grown(start, now) && start.created == []
    ensures CreatedNew(start, now.rows, now.created)
  {
    forall i | 0 <= i < |now.created| ensures IsNewIn(start, now.rows, now.created[i].id) {
      assert IsNew(start, now, now.created[i].id);
    }
  }

  lemma NewStill(start: Pool, before: Rows, after: Rows, created: seq<Row>)
    requires CreatedNew(start, before, created) && Evolved(before, after)
    ensures CreatedNew(start, after, created)
  {
    forall i | 0 <= i < |created| ensures IsNewIn(start, after, created[i].id) {
      assert IsNewIn(start, before, created[i].id);
    }
  }

  /** What was created is not what was stopped. */
  lemma CreatedNotStopped(ctx: Context, start: Pool, rows: Rows, created: seq<Row>, stopped: seq<Row>,
                          names: seq<string>)
    requires CreatedNew(start, rows, created) && StoppedOk(ctx, start.rows, stopped, names)
    ensures forall r, x :: r in created && x in stopped ==> r.id != x.id
  {
    forall r | r in created ensures r.id !in start.rows {
      var i :| 0 <= i < |created| && created[i] == r;
      assert IsNewIn(start, rows, created[i].id);
    }
    forall x | x in stopped ensures x.id in start.rows {
      var j :| 0 <= j < |stopped| && stopped[j] == x;
      assert FoundIn(ctx, start.rows, stopped[j], names);
    }
  }

  lemma StillFailed(ctx: Context, start: Pool, before: Rows, after: Rows, created: seq<Row>, stopped: seq<Row>,
                    names: seq<string>)
    requires CreatedNew(start, before, created) && StoppedOk(ctx, start.rows, stopped, names)
    requires ChangedOnly(before, after, stopped) && AllFailed(before, created)
    ensures AllFailed(after, created)
  {
    CreatedNotStopped(ctx, start, before, created, stopped, names);
    forall i | 0 <= i < |created| ensures IsFailed(after, created[i].id) {
      assert created[i] in created && IsFailed(before, created[i].id);
    }
  }

  /** The catch block does not touch the row of the instance at which the stopping ended. */
  lemma HaltStays(ctx: Context, start: Pool, before: Rows, after: Rows, created: seq<Row>, stopped: seq<Row>,
                  halted: Option<Halt>, names: seq<string>)
    requires CreatedNew(start, before, created) && HaltKept(ctx, start.rows, before, stopped, halted, names)
    requires Evolved(before, after)
    requires forall id :: id in before && after[id] != before[id] ==>
            HasId(created, 0, id) || HasId(stopped, 0, id)
    ensures HaltKept(ctx, start.rows, after, stopped, halted, names)
  {
    if halted.Some? {
      var r := halted.value.row;
      forall i | 0 <= i < |created| ensures created[i].id != r.id { assert IsNewIn(start, before, created[i].id); }
      forall i | 0 <= i < |stopped| ensures stopped[i].id != r.id { assert Ids(stopped)[i] == stopped[i].id; }
      assert !HasId(created, 0, r.id) && !HasId(stopped, 0, r.id);
    }
  }

  /** No container that there was before is gone, and every new row and container is that of a created instance,
      but for at most one instance that failed before it was counted as created. */
  ghost predicate NothingLost(start: Pool, now: Pool) {
    && start.containers <= now.containers && |now.leftover| <= 1
    && (forall id :: id in now.rows ==> id in start.rows || id in now.leftover || HasId(now.created, 0, id))
    && (forall id :: id in now.containers ==>
          id in start.containers || id in now.leftover || HasId(now.created, 0, id))
  }

  /** The pool of before is preserved: nothing is lost, and every instance that was ready and has its container is
      as it was, but for those that were stopped for an exclusive replacement. */
  ghost predicate PoolPreserved(start: Pool, now: Pool, stopped: seq<Row>) {
    NothingLost(start, now) && ReadyKept(start.rows, now.rows, start.containers, stopped)
  }

  lemma LostNothing(start: Pool, before: Pool, now: Pool)
    requires start.created == [] && Grown(start, before) && |before.leftover| <= 1
    requires now.rows.Keys == before.rows.Keys && now.created == before.created && now.leftover == before.leftover
    requires ContainersOnly(before.containers, now.containers, before.created)
    ensures NothingLost(start, now)
  {
    GrownIsNew(start, before);
    forall r | r in before.created ensures r.id !in start.containers {
      var i :| 0 <= i < |before.created| && before.created[i] == r;
      assert IsNewIn(start, before.rows, before.created[i].id);
    }
    forall id | id in now.rows ensures id in start.rows || id in now.leftover || HasId(now.created, 0, id) {
      assert id in before.rows;
    }
  }

  // ---- the whole run ----

  /** What a run has: the pool, the endpoint table, the stopped instances, the callbacks that were made, and the
      instances to be retired with how far the retirement has come. */
  datatype Run = Run(pool: Pool, endpoints: Endpoints, stopped: seq<Row>, halted: Option<Halt>, admission: Admission,
                     retiring: seq<Row>, retired: Retired)

  /** The endpoint table at the end of a failed run: unchanged, or with the first services replaced, or with all. */
  ghost predicate EndpointsAt(stage: Stage, ctx: Context, before: Endpoints, after: Endpoints, current: seq<Row>) {
    match stage
    case Materializing => after == before
    case Publishing(done) => done <= |ctx.services| && after == Published(before, ctx.services, done, current)
    case Retiring => after == Published(before, ctx.services, |ctx.services|, current)
  }

  /** All that Docker has been asked for until the end of the guarded part: the stops that are recorded and the one
      at which the stopping ended, and the stops and removals of the retirement. */
  ghost predicate AskedAt(start: Asked, end: Asked, now: Run) {
    && start.starts <= end.starts && start.creations <= end.creations && start.jobs <= end.jobs
    && InOrder(now.retired, |now.retiring|)
    && end.stops == start.stops + Ids(now.stopped) + HaltedIds(now.halted) + Ids(now.retiring[..now.retired.stopped])
    && end.removals == start.removals + Ids(now.retiring[..now.retired.removed])
  }

  /** These instances have rows, of the same component and slot. */
  ghost predicate PlacesKept(rows: Rows, list: seq<Row>) {
    forall i :: 0 <= i < |list| ==> list[i].id in rows && SamePlace(rows[list[i].id], list[i])
  }

  ghost predicate HaveRows(rows: Rows, selected: seq<Row>) {
    forall i :: 0 <= i < |selected| ==> selected[i].id in rows
  }

  /** The selected instances of a run that came to its publication: they fill the slots, each has passed its gate,
      none is retired, and what was created is among them. */
  ghost predicate SelectedWell(ctx: Context, start: Pool, selected: seq<Row>, now: Run)
    requires forall n :: n in ctx.order ==> n in ctx.components
  {
    && FillsOrder(ctx, |ctx.order|, selected) && DistinctRows(selected) && AllVouched(ctx, start, now.pool, selected)
    && now.halted == None && CreatedAmong(now.pool.created, 0, selected)
    && PlacesKept(now.pool.rows, selected) && PlacesKept(now.pool.rows, now.retiring)
    && NoneRetires(selected, now.retiring) && NoneStopped(selected, now.stopped)
  }

  ghost predicate NoneRetires(selected: seq<Row>, retiring: seq<Row>) {
    forall i :: 0 <= i < |retiring| ==> !IsSelected(selected, retiring[i].id)
  }

  ghost predicate NoneStopped(selected: seq<Row>, stopped: seq<Row>) {
    forall i :: 0 <= i < |stopped| ==> !IsSelected(selected, stopped[i].id)
  }

  /** The instance is in the store as it was selected, with its container, unless it was created. */
  ghost predicate Stands(now: Pool, r: Row) {
    HasId(now.created, 0, r.id) || (r.id in now.rows && now.rows[r.id] == r && r.id in now.containers)
  }

  ghost predicate AllStand(now: Pool, selected: seq<Row>) {
    forall i :: 0 <= i < |selected| ==> Stands(now, selected[i])
  }

  /** The endpoints of a failed run, and the instances that it had selected when it had come so far. */
  ghost predicate FailedServing(ctx: Context, stage: Stage, start: Pool, selected: seq<Row>, endpointsBefore: Endpoints,
                                now: Run)
    requires forall n :: n in ctx.order ==> n in ctx.components
  {
    && EndpointsAt(stage, ctx, endpointsBefore, now.endpoints, selected)
    && (stage != Materializing ==> SelectedWell(ctx, start, selected, now) && AllStand(now.pool, selected))
    && (stage != Retiring ==> now.retiring == [])
  }

  /** The containers of a run that has come to its retirement. */
  ghost predicate LeftOver(start: Pool, kept: set<string>, selected: seq<Row>, now: Run) {
    RemovedGone(start.rows, start.containers) ==>
      ContainersLeft(start, now.pool, kept, selected, now.retiring, now.retired)
  }

  /** What `converge` promises of a run that fails. */
  ghost predicate FailedRun(ctx: Context, stage: Stage, compensated: bool, undo: Undo, refusals: nat,
                            selected: seq<Row>, start: Pool, endpointsBefore: Endpoints, now: Run)
    requires forall n :: n in ctx.order ==> n in ctx.components
  {
    && Undone(undo, compensated, refusals, now.pool, now.stopped) && AskedAt(start.asked, undo.before, now)
    && (if stage == Retiring then LeftOver(start, undo.kept, selected, now)
        else PoolPreserved(start, now.pool, now.stopped))
    && FailedServing(ctx, stage, start, selected, endpointsBefore, now)
  }

  /** What `converge` promises of a run that comes to its end. */
  ghost predicate DoneRun(ctx: Context, selected: seq<Row>, start: Pool, endpointsBefore: Endpoints, now: Run,
                          jobs: Jobs.Store)
    requires forall n :: n in ctx.order ==> n in ctx.components
  {
    && Converged(ctx, now.pool.rows, now.pool.containers, now.endpoints, selected)
    && now.endpoints == Published(endpointsBefore, ctx.services, |ctx.services|, selected)
    && JobsFor(ctx, jobs, selected) == [] && !WriterMissing(ctx)
    && AskedAt(start.asked, now.pool.asked, now) && now.retired.marked == |now.retiring|
    && SelectedWell(ctx, start, selected, now) && LeftOver(start, IdSet(now.pool.created), selected, now)
  }

  /** What holds of a run however it ends. */
  ghost predicate RunKept(ctx: Context, start: Pool, now: Run) {
    && CreatedNew(start, now.pool.rows, now.pool.created) && CreatedVouched(ctx, start, now.pool)
    && StoppedOk(ctx, start.rows, now.stopped, ctx.order)
    && HaltKept(ctx, start.rows, now.pool.rows, now.stopped, now.halted, ctx.order)
    && RemovedKept(start, now.pool)
  }

  /** What `converge` promises, given how it ends. */
  ghost predicate Promised(ctx: Context, outcome: Outcome, undo: Undo, refusals: nat, selected: seq<Row>,
                           start: Pool, endpointsBefore: Endpoints, now: Run, jobs: Jobs.Store)
    requires forall n :: n in ctx.order ==> n in ctx.components
  {
    && AdmissionKept(ctx, outcome, now.admission) && RunKept(ctx, start, now)
    && match outcome
       case NotStarted => now.pool == start && now.endpoints == endpointsBefore
       case Done(_) => DoneRun(ctx, selected, start, endpointsBefore, now, jobs)
       case GaveUp(stage, compensated) =>
         FailedRun(ctx, stage, compensated, undo, refusals, selected, start, endpointsBefore, now)
  }

  lemma {:induction false} PromisedFailure(ctx: Context, stage: Stage, compensated: bool, undo: Undo, refusals: nat,
                                           selected: seq<Row>, start: Pool, before: Endpoints, now: Run,
                                           jobs: Jobs.Store)
    requires forall n :: n in ctx.order ==> n in ctx.components
    requires AdmissionKept(ctx, GaveUp(stage, compensated), now.admission) && RunKept(ctx, start, now)
    requires Undone(undo, compensated, refusals, now.pool, now.stopped) && AskedAt(start.asked, undo.before, now)
    requires stage == Retiring ==> LeftOver(start, undo.kept, selected, now)
    requires stage != Retiring ==> PoolPreserved(start, now.pool, now.stopped)
    requires FailedServing(ctx, stage, start, selected, before, now)
    ensures Promised(ctx, GaveUp(stage, compensated), undo, refusals, selected, start, before, now, jobs)
  {
    assert FailedRun(ctx, stage, compensated, undo, refusals, selected, start, before, now);
  }

  lemma {:induction false} PromisedNothing(ctx: Context, undo: Undo, refusals: nat, now: Run, jobs: Jobs.Store)
    requires forall n :: n in ctx.order ==> n in ctx.components
    requires now.pool.created == [] && now.stopped == [] && now.halted == None
    requires now.admission == Admission(false, false, false)
    ensures Promised(ctx, NotStarted, undo, refusals, [], now.pool, now.endpoints, now, jobs)
  {}

  // ---- what follows ----

  /** Until instances are retired, every instance that a run has asked Docker to stop is asked to start again by a
      complete compensation, but for exactly the one at which the stopping ended. The restarted ones are ready exactly
      when Docker's answer to their own probe was that they are healthy. The row of the other one is as it was found,
      also when Docker had stopped it and only the store refused. */
  lemma StoppedAreRestarted(ctx: Context, stage: Stage, undo: Undo, refusals: nat, selected: seq<Row>,
                            start: Pool, endpointsBefore: Endpoints, now: Run, jobs: Jobs.Store, i: nat)
    requires forall n :: n in ctx.order ==> n in ctx.components
    requires Promised(ctx, GaveUp(stage, true), undo, refusals, selected, start, endpointsBefore, now, jobs)
    requires stage != Retiring && |start.asked.stops| <= i < |now.pool.asked.stops|
    ensures var id, again := now.pool.asked.stops[i], now.pool.asked.starts[|undo.before.starts|..];
            && (id in again <==> now.halted.None? || now.halted.value.row.id != id)
            && (id in again ==> FollowsProbe(now.pool.rows, now.pool.checks, undo.heard, id))
            && (id !in again ==> id in start.rows && id in now.pool.rows && now.pool.rows[id] == start.rows[id])
  {
    CompleteAsked(undo, now.pool.created, now.stopped, now.pool.asked);
    assert now.retiring[..now.retired.stopped] == [] && Ids([]) == [];
    StopsAt(start.asked.stops, now.pool.asked.stops, now.stopped, now.halted, i);
    var id := now.pool.asked.stops[i];
    assert now.stopped[..|now.stopped|] == now.stopped;
    if id in Ids(now.stopped) { RestartedFollow(now.pool.rows, now.pool.checks, undo.heard, now.stopped, id); }
  }

  lemma {:induction false} RestartedFollow(rows: Rows, checks: seq<Check>, from: nat, stopped: seq<Row>, id: string)
    requires AllRestarted(rows, checks, from, stopped) && id in Ids(stopped)
    ensures FollowsProbe(rows, checks, from, id)
  {
    var k: nat :| k < |stopped| && Ids(stopped)[k] == id;
    assert Restarted(rows, checks, from + 2 * k, stopped[k].id);
  }

  /** Docker was asked for a start and then a probe of this container, and the row follows the answer. */
  ghost predicate FollowsProbe(rows: Rows, checks: seq<Check>, from: nat, id: string) {
    exists at: nat :: from <= at && Restarted(rows, checks, at, id)
  }

  lemma CompleteAsked(undo: Undo, created: seq<Row>, stopped: seq<Row>, asked: Asked)
    requires UndoAsked(undo, created, stopped, asked) && undo.removed == |created| && undo.restarted == |stopped|
    ensures |undo.before.starts| <= |asked.starts| && asked.starts[|undo.before.starts|..] == Ids(stopped)
    ensures |undo.before.removals| <= |asked.removals| && asked.removals[|undo.before.removals|..] == Ids(created)
    ensures asked.stops == undo.before.stops
  {
    assert stopped[..|stopped|] == stopped && created[..|created|] == created;
  }

  /** What is asked to stop is recorded, or is where the stopping ended. */
  lemma StopsAt(before: seq<string>, stops: seq<string>, stopped: seq<Row>, halted: Option<Halt>, i: nat)
    requires stops == before + Ids(stopped) + HaltedIds(halted) && |before| <= i < |stops|
    requires halted.Some? ==> halted.value.row.id !in Ids(stopped)
    ensures stops[i] in Ids(stopped) <==> halted.None? || halted.value.row.id != stops[i]
  {
    var k := i - |before|;
    assert k < |stopped| ==> stops[i] == Ids(stopped)[k];
    assert k >= |stopped| ==> halted.Some? && k == |stopped| && stops[i] == HaltedIds(halted)[0];
  }

  /** A run that fails before it retires instances preserves the previous healthy pool: every instance that was ready
      and has its container is exactly as before, with its container, unless it is outdated or forced and its
      component is replaced exclusively. */
  lemma HealthyPoolPreserved(ctx: Context, stage: Stage, compensated: bool, undo: Undo, refusals: nat,
                             selected: seq<Row>, start: Pool, endpointsBefore: Endpoints, now: Run, jobs: Jobs.Store,
                             id: string)
    requires forall n :: n in ctx.order ==> n in ctx.components
    requires Promised(ctx, GaveUp(stage, compensated), undo, refusals, selected, start, endpointsBefore, now, jobs)
    requires stage != Retiring && id in start.rows && IsReady(start.rows, start.containers, id)
    requires !MustStop(ctx, start.rows[id])
    ensures SameRow(start.rows, now.pool.rows, id) && id in now.pool.containers
  {
    forall i | 0 <= i < |now.stopped| ensures now.stopped[i].id != id {
      assert FoundIn(ctx, start.rows, now.stopped[i], ctx.order);
    }
    assert !HasId(now.stopped, 0, id);
  }

  /** An instance whose start, probe or command has failed in a run is not counted as created by it, and is not among
      the instances that it publishes. */
  lemma FailingIsNotSelected(ctx: Context, outcome: Outcome, undo: Undo, refusals: nat, selected: seq<Row>,
                             start: Pool, endpointsBefore: Endpoints, now: Run, jobs: Jobs.Store, i: nat)
    requires forall n :: n in ctx.order ==> n in ctx.components
    requires Promised(ctx, outcome, undo, refusals, selected, start, endpointsBefore, now, jobs)
    requires start.created == [] && |start.checks| <= i < |now.pool.checks| && Fails(now.pool.checks[i])
    ensures !HasId(now.pool.created, 0, now.pool.checks[i].id)
    ensures outcome.Done? || (outcome.GaveUp? && outcome.stage != Materializing)
        ==> !IsSelected(selected, now.pool.checks[i].id)
  {
    var id := now.pool.checks[i].id;
    forall j | 0 <= j < |now.pool.created| ensures now.pool.created[j].id != id {
      assert Vouched(ctx, start, now.pool, now.pool.created[j]);
    }
    if outcome.Done? || (outcome.GaveUp? && outcome.stage != Materializing) {
      forall j | 0 <= j < |selected| ensures selected[j].id != id {
        assert Vouched(ctx, start, now.pool, selected[j]);
      }
    }
  }

  /** No run asks Docker to stop an instance that it has selected: neither for a replacement nor for retirement. */
  lemma SelectedNeverStopped(ctx: Context, outcome: Outcome, undo: Undo, refusals: nat, selected: seq<Row>,
                             start: Pool, endpointsBefore: Endpoints, now: Run, jobs: Jobs.Store, i: nat)
    requires forall n :: n in ctx.order ==> n in ctx.components
    requires Promised(ctx, outcome, undo, refusals, selected, start, endpointsBefore, now, jobs)
    requires outcome.Done? || (outcome.GaveUp? && outcome.stage != Materializing)
    requires |start.asked.stops| <= i < |now.pool.asked.stops|
    ensures !IsSelected(selected, now.pool.asked.stops[i])
  {
    var stops, k := now.pool.asked.stops, i - |start.asked.stops|;
    if k < |now.stopped| {
      assert stops[i] == Ids(now.stopped)[k] == now.stopped[k].id;
    } else {
      var j := k - |now.stopped|;
      assert stops[i] == Ids(now.retiring[..now.retired.stopped])[j] == now.retiring[j].id;
    }
  }

  /** When removed instances have no containers at the beginning, then after a run that comes to its end the only
      containers of instances are those of the selected ones. */
  lemma OnlySelectedHaveContainers(ctx: Context, returned: bool, undo: Undo, refusals: nat, selected: seq<Row>,
                                   start: Pool, endpointsBefore: Endpoints, now: Run, jobs: Jobs.Store)
    requires forall n :: n in ctx.order ==> n in ctx.components
    requires Promised(ctx, Done(returned), undo, refusals, selected, start, endpointsBefore, now, jobs)
    requires RemovedGone(start.rows, start.containers)
    ensures forall id :: id in now.pool.rows ==> (id in now.pool.containers <==> IsSelected(selected, id))
    ensures RemovedGone(now.pool.rows, now.pool.containers)
  {
    IdSetHas(now.pool.created);
    forall id | id in now.pool.rows ensures id in now.pool.containers <==> IsSelected(selected, id) {
      assert IsLeft(start, now.pool, IdSet(now.pool.created), selected, now.retiring, now.retired, id)
        <==> IsSelected(selected, id);
    }
  }

  /** An instance of this slot has a container. */
  ghost predicate SlotHasContainer(p: Pool, component: string, slot: string) {
    exists id :: id in p.containers && IsAt(p.rows, id, component, [slot])
  }

  /** The instance selected for the slot was there before, or Docker refused to remove it. */
  ghost predicate SlotKeepsSelected(now: Pool, kept: set<string>, selected: seq<Row>, component: string, slot: string) {
    exists i :: 0 <= i < |selected| && selected[i].component == component && selected[i].slot == slot
                && (HasId(now.created, 0, selected[i].id) ==> selected[i].id in kept)
  }

  /** An old instance of the slot has not been removed yet, and had its container. */
  ghost predicate SlotKeepsOld(start: Pool, retiring: seq<Row>, x: Retired, component: string, slot: string) {
    exists i :: x.gone <= i < |retiring| && retiring[i].component == component && retiring[i].slot == slot
                && retiring[i].id in start.containers
  }

  /** The catch block also removes what was created when old instances have already been retired. A slot then has a
      container exactly when its selected instance is an old one or Docker kept it, or when the retirement has not
      come to one of its old instances: otherwise it is left without any. */
  lemma SlotsAfterRetirement(ctx: Context, compensated: bool, undo: Undo, refusals: nat, selected: seq<Row>,
                             start: Pool, endpointsBefore: Endpoints, now: Run, jobs: Jobs.Store,
                             component: string, slot: string)
    requires forall n :: n in ctx.order ==> n in ctx.components
    requires Promised(ctx, GaveUp(Retiring, compensated), undo, refusals, selected, start, endpointsBefore, now, jobs)
    requires RemovedGone(start.rows, start.containers)
    ensures SlotHasContainer(now.pool, component, slot) <==>
              || SlotKeepsSelected(now.pool, undo.kept, selected, component, slot)
              || SlotKeepsOld(start, now.retiring, now.retired, component, slot)
  {
    var p := now.pool;
    if SlotHasContainer(p, component, slot) {
      var id :| id in p.containers && IsAt(p.rows, id, component, [slot]);
      assert IsLeft(start, p, undo.kept, selected, now.retiring, now.retired, id);
      LeftInSlot(start, undo.kept, selected, now, component, slot, id);
    }
    if SlotKeepsSelected(p, undo.kept, selected, component, slot) {
      var i :| 0 <= i < |selected| && selected[i].component == component && selected[i].slot == slot
               && (HasId(p.created, 0, selected[i].id) ==> selected[i].id in undo.kept);
      assert IsLeft(start, p, undo.kept, selected, now.retiring, now.retired, selected[i].id);
      assert IsAt(p.rows, selected[i].id, component, [slot]);
    }
    if SlotKeepsOld(start, now.retiring, now.retired, component, slot) {
      var i :| now.retired.gone <= i < |now.retiring| && now.retiring[i].component == component
               && now.retiring[i].slot == slot && now.retiring[i].id in start.containers;
      assert IsLeft(start, p, undo.kept, selected, now.retiring, now.retired, now.retiring[i].id);
      assert IsAt(p.rows, now.retiring[i].id, component, [slot]);
    }
  }

  lemma {:induction false} LeftInSlot(start: Pool, kept: set<string>, selected: seq<Row>, now: Run, component: string,
                                      slot: string, id: string)
    requires IsLeft(start, now.pool, kept, selected, now.retiring, now.retired, id)
    requires IsAt(now.pool.rows, id, component, [slot])
    requires PlacesKept(now.pool.rows, selected) && PlacesKept(now.pool.rows, now.retiring)
    ensures || SlotKeepsSelected(now.pool, kept, selected, component, slot)
            || SlotKeepsOld(start, now.retiring, now.retired, component, slot)
  {
    if IsSelected(selected, id) && (HasId(now.pool.created, 0, id) ==> id in kept) {
      var i :| 0 <= i < |selected| && selected[i].id == id;
      assert SamePlace(now.pool.rows[id], selected[i]);
    } else {
      var i :| now.retired.gone <= i < |now.retiring| && now.retiring[i].id == id;
      assert SamePlace(now.pool.rows[id], now.retiring[i]);
    }
  }

  /** Every endpoint names an instance that has a row. */
  ghost predicate EndpointsKnown(endpoints: Endpoints, rows: Rows) {
    forall s, i :: s in endpoints && 0 <= i < |endpoints[s]| ==> endpoints[s][i].instance in rows
  }

  lemma PublishedKnown(before: Endpoints, services: seq<Service>, k: nat, current: seq<Row>, rows: Rows)
    requires k <= |services| && forall i, j :: 0 <= i < j < |services| ==> services[i].id != services[j].id
    requires EndpointsKnown(before, rows) && HaveRows(rows, current)
    ensures EndpointsKnown(Published(before, services, k, current), rows)
  {
    var after: Endpoints := Published(before, services, k, current);
    PublishedIs(before, services, k, current);
    forall s: string, n: nat | s in after && n < |after[s]| ensures after[s][n].instance in rows {
      if i: nat :| i < k && services[i].id == s {
        assert Serves(after, services[i], current);
        OfComponentIs(current, services[i].component);
        var r := OfComponent(current, services[i].component)[n];
        var x :| 0 <= x < |current| && current[x] == r;
      } else {
        assert SameAt(before, after, s);
      }
    }
  }

  /** No run, however it ends, makes an endpoint name an instance without a row. */
  lemma EndpointsStayKnown(ctx: Context, outcome: Outcome, undo: Undo, refusals: nat, selected: seq<Row>,
                           start: Pool, endpointsBefore: Endpoints, now: Run, jobs: Jobs.Store)
    requires Proper(ctx) && EndpointsKnown(endpointsBefore, start.rows) && Evolved(start.rows, now.pool.rows)
    requires Promised(ctx, outcome, undo, refusals, selected, start, endpointsBefore, now, jobs)
    ensures EndpointsKnown(now.endpoints, now.pool.rows)
  {
    assert EndpointsKnown(endpointsBefore, now.pool.rows);
    if outcome.Done? {
      PublishedKnown(endpointsBefore, ctx.services, |ctx.services|, selected, now.pool.rows);
    } else if outcome.GaveUp? && outcome.stage != Materializing {
      PublishedKnown(endpointsBefore, ctx.services, PublishedBy(outcome.stage, ctx), selected, now.pool.rows);
    }
  }

  lemma OfComponentHas(current: seq<Row>, component: string, r: Row)
    requires r in current && r.component == component
    ensures r in OfComponent(current, component)
  {
    if current[0] != r {
      assert r in current[1..];
      OfComponentHas(current[1..], component, r);
    }
  }

  /** An endpoint names a created instance. */
  ghost predicate NamesCreated(endpoints: Endpoints, created: seq<Row>) {
    exists s, i :: s in endpoints && 0 <= i < |endpoints[s]| && HasId(created, 0, endpoints[s][i].instance)
  }

  /** One of the first `k` services belongs to the component of a created instance. */
  ghost predicate ServesCreated(services: seq<Service>, k: nat, created: seq<Row>)
    requires k <= |services|
  {
    exists i, j :: 0 <= i < k && 0 <= j < |created| && services[i].component == created[j].component
  }

  lemma PublishedNamesCreated(before: Endpoints, services: seq<Service>, k: nat, current: seq<Row>, created: seq<Row>,
                              rows: Rows)
    requires k <= |services| && forall i, j :: 0 <= i < j < |services| ==> services[i].id != services[j].id
    requires EndpointsKnown(before, rows) && forall i :: 0 <= i < |created| ==> created[i].id !in rows
    requires CreatedAmong(created, 0, current) && DistinctRows(current)
    ensures NamesCreated(Published(before, services, k, current), created) <==> ServesCreated(services, k, created)
  {
    var after := Published(before, services, k, current);
    PublishedIs(before, services, k, current);
    if i, j :| 0 <= i < k && 0 <= j < |created| && services[i].component == created[j].component {
      assert Serves(after, services[i], current) && created[j] in current;
      var own := OfComponent(current, services[i].component);
      OfComponentHas(current, services[i].component, created[j]);
      var n :| 0 <= n < |own| && own[n] == created[j];
      assert after[services[i].id][n].instance == created[j].id && HasId(created, 0, created[j].id);
    }
    if s, n :| s in after && 0 <= n < |after[s]| && HasId(created, 0, after[s][n].instance) {
      ServiceOfCreated(before, after, services, k, current, created, rows, s, n);
    }
  }

  lemma KnownChanged(before: Endpoints, after: Endpoints, rows: Rows, s: string, n: nat)
    requires EndpointsKnown(before, rows) && s in after && n < |after[s]| && after[s][n].instance !in rows
    ensures !SameAt(before, after, s)
  {}

  lemma ServiceOfCreated(before: Endpoints, after: Endpoints, services: seq<Service>, k: nat, current: seq<Row>,
                         created: seq<Row>, rows: Rows, s: string, n: nat)
    requires k <= |services| && AllServed(after, services, k, current) && OthersServed(before, after, services, k)
    requires EndpointsKnown(before, rows) && forall i :: 0 <= i < |created| ==> created[i].id !in rows
    requires CreatedAmong(created, 0, current) && DistinctRows(current)
    requires s in after && n < |after[s]| && HasId(created, 0, after[s][n].instance)
    ensures ServesCreated(services, k, created)
  {
    var j :| 0 <= j < |created| && created[j].id == after[s][n].instance;
    KnownChanged(before, after, rows, s, n);
    var i :| 0 <= i < k && services[i].id == s;
    assert Serves(after, services[i], current);
    var own := OfComponent(current, services[i].component);
    OfComponentIs(current, services[i].component);
    assert own[n] in current && own[n].id == created[j].id && created[j] in current;
    var x, y :| 0 <= x < |current| && current[x] == own[n] && 0 <= y < |current| && current[y] == created[j];
    assert x == y;
  }

  lemma KnownNotCreated(endpoints: Endpoints, rows: Rows, created: seq<Row>)
    requires EndpointsKnown(endpoints, rows) && forall i :: 0 <= i < |created| ==> created[i].id !in rows
    ensures !NamesCreated(endpoints, created)
  {}

  /** How many services a failed run has published. */
  function PublishedBy(stage: Stage, ctx: Context): nat {
    match stage
    case Materializing => 0
    case Publishing(done) => done
    case Retiring => |ctx.services|
  }

  /** After a complete compensation all created instances are failed and sent for removal; an endpoint still names
      one of them exactly when the run had published a service of the component of a created instance. */
  lemma EndpointsOfRemoved(ctx: Context, stage: Stage, undo: Undo, refusals: nat, selected: seq<Row>,
                           start: Pool, endpointsBefore: Endpoints, now: Run, jobs: Jobs.Store)
    requires Proper(ctx) && EndpointsKnown(endpointsBefore, start.rows)
    requires Promised(ctx, GaveUp(stage, true), undo, refusals, selected, start, endpointsBefore, now, jobs)
    ensures PublishedBy(stage, ctx) <= |ctx.services|
    ensures NamesCreated(now.endpoints, now.pool.created)
       <==> ServesCreated(ctx.services, PublishedBy(stage, ctx), now.pool.created)
    ensures forall i :: 0 <= i < |now.pool.created| ==>
              IsFailed(now.pool.rows, now.pool.created[i].id) && now.pool.created[i].id in now.pool.asked.removals
  {
    var created := now.pool.created;
    forall i | 0 <= i < |created| ensures created[i].id !in start.rows {
      assert IsNewIn(start, now.pool.rows, created[i].id);
    }
    CompleteAsked(undo, created, now.stopped, now.pool.asked);
    assert created[..|created|] == created;
    forall i | 0 <= i < |created| ensures created[i].id in now.pool.asked.removals {
      assert Ids(created)[i] == created[i].id;
      assert now.pool.asked.removals[|undo.before.removals| + i] == created[i].id;
    }
    if stage == Materializing {
      KnownNotCreated(endpointsBefore, start.rows, created);
    } else {
      PublishedNamesCreated(endpointsBefore, ctx.services, PublishedBy(stage, ctx), selected, created, start.rows);
    }
  }
}
