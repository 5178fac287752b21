/** The steps of the proofs about the graph executor: what each of its methods adds to what held before. */
module GraphSteps {
  import opened Options
  import opened Lists
  import opened StringOrder
  import opened GraphModel
  import opened GraphGates
  import opened GraphRetirement
  import opened GraphRecovery
  import Jobs

  /** What is created comes after all the stops. */
  ghost predicate CreatedLast(b: Asked, a: Asked) {
    && b.creations <= a.creations && b.stops <= a.stops
    && forall i :: |b.creations| <= i < |a.creations| ==> a.creations[i].after == |a.stops|
  }

  lemma OneCreated(b: Asked, a: Asked, id: string)
    requires a == b.(creations := b.creations + [Creation(id, |b.stops|)], starts := a.starts) && b.starts <= a.starts
    ensures AskedMore(b, a)
  {}

  lemma CreatedAfterStops(b: Asked, m: Asked, a: Asked, before: seq<Row>, after: seq<Row>)
    requires m == b.(stops := m.stops) && StopLog(b.stops, |before|, m.stops, after, None) && AskedMore(m, a)
    ensures CreatedLast(b, a)
  {}

  lemma WayMade(ctx: Context, b: Pool, a: Pool, c: Component, stale: seq<Row>, n: nat, down: bool, before: seq<Row>,
                after: seq<Row>)
    requires ProperRows(b.rows) && AreRows(b.rows, stale, c.name) && DistinctRows(stale) && n <= |stale|
    requires InGraph(ctx, c) && AreStale(ctx, c, stale) && ReplacesExclusively(c)
    requires a == b.(rows := StopRows(b.rows, stale, n), asked := a.asked) && after == before + stale[..n]
    requires a.asked == b.asked.(stops := b.asked.stops + Ids(stale[..n]) + HaltedIds(HaltAt(stale, n, down)))
    ensures Framed(b, a, c) && RemovedKept(b, a)
    ensures ComponentStops(ctx, b, a, c.name, before, after, HaltAt(stale, n, down))
    ensures n == |stale| ==> AllStopped(stale, a.asked.stops, after)
  {
    StopRowsAre(b.rows, stale, n);
    assert after[|before|..] == stale[..n];
    StaleChanged(b.rows, a.rows, c, stale, n);
    ChangedKept(b.rows, a.rows, b.containers, stale[..n]);
    StaleRecorded(ctx, b.rows, c, stale, n, down, before, after);
    StoppedNotRemoved(b, a, stale, n);
    if n == |stale| {
      StaleStoppedAll(b.asked.stops, stale, before);
      assert stale[..n] == stale && b.asked.stops + Ids(stale) + [] == b.asked.stops + Ids(stale);
    }
  }

  lemma {:induction false} StoppedNotRemoved(b: Pool, a: Pool, stale: seq<Row>, n: nat)
    requires n <= |stale| && ChangedOnly(b.rows, a.rows, stale[..n]) && a.containers == b.containers
    requires forall i :: 0 <= i < n ==> stale[i].id in a.rows && a.rows[stale[i].id].status == Stopped
    ensures RemovedKept(b, a)
  {
    forall id | id in a.rows && a.rows[id] != b.rows[id] ensures a.rows[id].status == Stopped {
      var r :| r in stale[..n] && r.id == id;
      var i :| 0 <= i < n && stale[..n][i] == r;
      assert stale[i].id == id;
    }
    assert NoneRemoved(b.rows, a.rows);
    forall id | IsStray(a.rows, a.containers, id) ensures IsStray(b.rows, b.containers, id) {
      assert IsRemoved(a.rows, id);
    }
  }

  /** A new row is not that of a removed instance. */
  lemma NewKeepsGone(b: Pool, a: Pool, id: string)
    requires id !in b.rows && a.containers <= b.containers + {id}
    requires a.rows == b.rows || (RowChanged(b.rows, a.rows, id) && a.rows[id].status != Removed)
    ensures RemovedKept(b, a)
  {}

  lemma ChangeKeepsGone(start: Pool, b: Pool, a: Pool, id: string)
    requires RemovedKept(start, b) && RowChanged(b.rows, a.rows, id) && a.containers == b.containers
    requires id in b.containers && a.rows[id].status == Removed ==> a.rows == b.rows
    ensures RemovedKept(start, a)
  {}

  /** All that was heard since is about these instances. */
  ghost predicate HeardIn(before: seq<Check>, after: seq<Check>, list: seq<Row>) {
    before <= after && forall i :: |before| <= i < |after| ==> after[i].id in Ids(list)
  }

  lemma {:induction false} HeardInMore(a: seq<Check>, b: seq<Check>, c: seq<Check>, list: seq<Row>, i: nat)
    requires i < |list| && HeardIn(a, b, list[..i]) && HeardOnly(b, c, list[i].id)
    ensures HeardIn(a, c, list[..i + 1])
  {
    IdsNext(list, i);
    forall j | |a| <= j < |c| ensures c[j].id in Ids(list[..i + 1]) {
      if j < |b| { assert c[j] == b[j]; } else { assert Ids(list[..i + 1])[i] == c[j].id; }
    }
  }

  lemma {:induction false} HeardInSlot(b: Pool, a: Pool, ctx: Context, c: Component, slot: string, list: seq<Row>)
    requires HeardIn(b.checks, a.checks, list) && Evolved(b.rows, a.rows)
    requires forall r :: r in list ==> CandidateRow(ctx, b.rows, c, slot, r)
    ensures HeardAt(b, a, c.name, [slot])
  {
    forall i | |b.checks| <= i < |a.checks| ensures IsAt(a.rows, a.checks[i].id, c.name, [slot]) {
      var j :| 0 <= j < |list| && Ids(list)[j] == a.checks[i].id;
      assert list[j] in list;
    }
  }

  /** These candidates of the slot have been tried, and have not been selected. */
  ghost predicate Tried(b: Pool, a: Pool, c: Component, slot: string, list: seq<Row>) {
    TriedAll(b, a, c, slot, list) && AllRejected(a.checks, |b.checks|, list)
  }

  ghost predicate TriedAll(b: Pool, a: Pool, c: Component, slot: string, list: seq<Row>) {
    Looked(b, a, c, slot) && ProperRows(a.rows) && HeardIn(b.checks, a.checks, list)
  }

  /** What the candidates of a slot may have changed, whether or not one is selected. */
  ghost predicate Looked(b: Pool, a: Pool, c: Component, slot: string) {
    && a == b.(rows := a.rows, asked := a.asked, checks := a.checks)
    && OnlySlot(b.rows, a.rows, c.name, slot) && a.rows.Keys == b.rows.Keys
    && AskedMore(b.asked, a.asked) && a.asked.creations == b.asked.creations
    && ReadyKept(b.rows, a.rows, b.containers, []) && RemovedKept(b, a)
  }

  /** What one candidate adds. */
  lemma {:induction false} TriedMore(b: Pool, m: Pool, a: Pool, ctx: Context, c: Component, slot: string,
                                     list: seq<Row>, i: nat)
    requires i < |list| && Tried(b, m, c, slot, list[..i]) && HeardOnly(m.checks, a.checks, list[i].id)
    requires forall r :: r in list ==> CandidateRow(ctx, b.rows, c, slot, r)
    requires a == m.(rows := a.rows, asked := a.asked, checks := a.checks)
    requires a.asked == m.asked.(starts := a.asked.starts) && m.asked.starts <= a.asked.starts
    requires RowChanged(m.rows, a.rows, list[i].id) && SameBut(a.rows[list[i].id], list[i])
    requires list[i].id in m.containers && a.rows[list[i].id].status == Removed ==> a.rows == m.rows
    requires list[i].id in m.rows
    requires list[i].id in m.containers && m.rows[list[i].id].status == Ready ==> a.rows == m.rows
    ensures TriedAll(b, a, c, slot, list[..i + 1]) && HeardAt(b, a, c.name, [slot])
  {
    assert list[i] in list;
    SlotRowChanged(b.rows, m.rows, a.rows, list[i].id, c.name, slot);
    CandidateKept(b.rows, m.rows, a.rows, b.containers, list[i].id);
    HeardInMore(b.checks, m.checks, a.checks, list, i);
    forall r | r in list[..i + 1] ensures CandidateRow(ctx, b.rows, c, slot, r) { assert r in list; }
    HeardInSlot(b, a, ctx, c, slot, list[..i + 1]);
    ChangeKeepsGone(b, m, a, list[i].id);
  }

  lemma {:induction false} TriedRejected(b: Pool, m: Pool, a: Pool, c: Component, slot: string, list: seq<Row>, i: nat)
    requires i < |list| && Tried(b, m, c, slot, list[..i]) && TriedAll(b, a, c, slot, list[..i + 1])
    requires CandidateRejected(m.checks, a.checks, list[i].id) && m.checks <= a.checks
    ensures Tried(b, a, c, slot, list[..i + 1])
  {
    RejectedMore(m.checks, a.checks, |b.checks|, list, i);
  }

  /** The instances selected for the first slots stand in them. */
  lemma {:induction false} SelectedAt(rows: Rows, containers: set<string>, c: Component, slots: seq<string>,
                                      selected: seq<Row>)
    requires FillsSlots(c, slots, selected) && InStore(rows, containers, selected)
    ensures forall i :: 0 <= i < |selected| ==> IsAt(rows, selected[i].id, c.name, slots)
  {
    forall i | 0 <= i < |selected| ensures IsAt(rows, selected[i].id, c.name, slots) {
      assert Fits(c, selected[i]) && selected[i].slot == slots[i];
    }
  }

  lemma {:induction false} NextSlotGate(ctx: Context, b: Pool, m: Pool, a: Pool, c: Component, i: nat,
                                        selected: seq<Row>, ready: Row)
    requires i < |c.slots| && NoRepeat(c.slots) && ComponentStep(b, m, c, c.slots[..i], selected)
    requires SlotGates(ctx, b, m, c.name, c.slots[..i], selected) && SlotStep(m, a, c, c.slots[i], true, ready)
    requires SlotGate(ctx, m, a, c.name, c.slots[i], true, ready)
    ensures SlotGates(ctx, b, a, c.name, c.slots[..i + 1], selected + [ready])
  {
    SelectedAt(m.rows, m.containers, c, c.slots[..i], selected);
    assert c.slots[..i + 1] == c.slots[..i] + [c.slots[i]];
    assert Selected(a, c, c.slots[i], ready) && IsAt(a.rows, ready.id, c.name, [c.slots[i]]);
    NextGate(ctx, b, m, a, c.name, c.slots[..i], c.slots[i], selected, ready);
  }

  lemma {:induction false} FailedSlotGate(ctx: Context, b: Pool, m: Pool, a: Pool, c: Component, i: nat,
                                          selected: seq<Row>)
    requires i < |c.slots| && NoRepeat(c.slots) && ComponentStep(b, m, c, c.slots[..i], selected)
    requires SlotGates(ctx, b, m, c.name, c.slots[..i], selected) && a.created == m.created
    requires Evolved(m.rows, a.rows) && HeardAt(m, a, c.name, [c.slots[i]])
    ensures GatesLeft(ctx, b, a, c.name, c.slots)
  {
    SelectedAt(m.rows, m.containers, c, c.slots[..i], selected);
    GateFails(ctx, b, m, a, c.name, c.slots[..i], c.slots[i], selected);
    HeardAmong(b, a, c.name, c.slots[..i] + [c.slots[i]], c.slots);
  }

  /** The instances selected so far are those of the components so far. */
  lemma {:induction false} CurrentOf(rows: Rows, containers: set<string>, current: seq<Row>, names: seq<string>)
    requires Named(current, names) && InStore(rows, containers, current)
    ensures forall i :: 0 <= i < |current| ==> IsOf(rows, current[i].id, names)
  {
    forall i | 0 <= i < |current| ensures IsOf(rows, current[i].id, names) { assert current[i] in current; }
  }

  lemma {:induction false} NextComponentGates(ctx: Context, b: Pool, m: Pool, a: Pool, k: nat, current: seq<Row>,
                                              selected: seq<Row>)
    requires Proper(ctx) && k < |ctx.order| && OrderStep(b, m, ctx, k, current)
    requires RunGates(ctx, b, m, ctx.order[..k], current)
    requires var c := ctx.components[ctx.order[k]];
             ComponentStep(m, a, c, c.slots, selected) && SlotGates(ctx, m, a, c.name, c.slots, selected)
    ensures RunGates(ctx, b, a, ctx.order[..k + 1], current + selected)
  {
    var c := ctx.components[ctx.order[k]];
    assert ctx.order[..k + 1] == ctx.order[..k] + [c.name] && c.name !in ctx.order[..k];
    CurrentOf(m.rows, m.containers, current, ctx.order[..k]);
    SelectedAt(a.rows, a.containers, c, c.slots, selected);
    forall i | 0 <= i < |selected| ensures IsOf(a.rows, selected[i].id, [c.name]) {
      assert IsAt(a.rows, selected[i].id, c.name, c.slots);
    }
    NextGates(ctx, b, m, a, ctx.order[..k], c.name, c.slots, current, selected);
  }

  lemma {:induction false} FailedComponentGates(ctx: Context, b: Pool, m: Pool, a: Pool, k: nat, current: seq<Row>)
    requires Proper(ctx) && k < |ctx.order| && OrderStep(b, m, ctx, k, current)
    requires RunGates(ctx, b, m, ctx.order[..k], current)
    requires var c := ctx.components[ctx.order[k]];
             Framed(m, a, c) && GatesLeft(ctx, m, a, c.name, c.slots)
    ensures RunGatesLeft(ctx, b, a, ctx.order[..k + 1])
  {
    var c := ctx.components[ctx.order[k]];
    assert ctx.order[..k + 1] == ctx.order[..k] + [c.name] && c.name !in ctx.order[..k];
    CurrentOf(m.rows, m.containers, current, ctx.order[..k]);
    forall i | |m.created| <= i < |a.created| ensures IsOf(a.rows, a.created[i].id, [c.name]) {
      assert IsNew(m, a, a.created[i].id);
    }
    GatesFail(ctx, b, m, a, ctx.order[..k], c.name, c.slots, current);
  }

  lemma ChangedKept(b: Rows, a: Rows, containers: set<string>, list: seq<Row>)
    requires ChangedOnly(b, a, list)
    ensures ReadyKept(b, a, containers, list)
  {
    forall id | id in b && IsReady(b, containers, id) ensures SameRow(b, a, id) || HasId(list, 0, id) {
      if a[id] != b[id] {
        var r :| r in list && r.id == id;
        var i :| 0 <= i < |list| && list[i] == r;
      }
    }
  }

  lemma CandidateKept(a: Rows, b: Rows, c: Rows, containers: set<string>, id: string)
    requires ReadyKept(a, b, containers, []) && RowChanged(b, c, id)
    requires id in b && (id in containers && b[id].status == Ready ==> c == b)
    ensures ReadyKept(a, c, containers, [])
  {
    forall x | x in a && IsReady(a, containers, x) ensures SameRow(a, c, x) {
      assert SameRow(a, b, x);
    }
  }

  lemma StaleChanged(b: Rows, a: Rows, c: Component, stale: seq<Row>, n: nat)
    requires n <= |stale| && AreRows(b, stale, c.name) && ChangedOnly(b, a, stale[..n])
    ensures Evolved(b, a) && OthersKept(b, a, c.name)
  {}

  lemma StaleRecorded(ctx: Context, rows: Rows, c: Component, stale: seq<Row>, n: nat, down: bool, before: seq<Row>,
                      after: seq<Row>)
    requires n <= |stale| && AreRows(rows, stale, c.name) && DistinctRows(stale) && after == before + stale[..n]
    requires InGraph(ctx, c) && AreStale(ctx, c, stale) && ReplacesExclusively(c)
    ensures StoppedFrom(ctx, rows, c.name, before, after, HaltAt(stale, n, down))
  {
    assert after[|before|..] == stale[..n];
    forall i | |before| <= i < |after| ensures IsReplaced(ctx, rows, after[i], c.name) {
      assert after[i] == stale[i - |before|] && stale[i - |before|] in stale;
    }
    if n < |stale| {
      assert stale[n] in stale;
      forall i | 0 <= i < n ensures Ids(stale[..n])[i] != stale[n].id {}
    }
  }

  lemma StaleStoppedAll(stops: seq<string>, stale: seq<Row>, before: seq<Row>)
    ensures AllStopped(stale, stops + Ids(stale), before + stale)
  {
    forall r | r in stale ensures r.id in stops + Ids(stale) && r in before + stale {
      var i :| 0 <= i < |stale| && stale[i] == r;
      assert Ids(stale)[i] == r.id;
    }
  }

  /** Every one of these instances has been stopped and is recorded for a restart. */
  ghost predicate AllStopped(list: seq<Row>, stops: seq<string>, stopped: seq<Row>) {
    forall r :: r in list ==> r.id in stops && r in stopped
  }

  /** Of a component that is replaced exclusively, every instance that is not removed and not current has
      been stopped and is recorded for a restart. */
  ghost predicate StaleStopped(ctx: Context, c: Component, rows: Rows, stops: seq<string>, stopped: seq<Row>) {
    forall id :: Live(rows, id) && rows[id].component == c.name && IsStale(ctx, c, rows[id])
             ==> id in stops && rows[id] in stopped
  }

  lemma StoppedAreStale(ctx: Context, c: Component, rows: Rows, stops: seq<string>, stopped: seq<Row>)
    requires ProperRows(rows)
    ensures AllStopped(StaleOf(ctx, c, Existing(Listed(rows), c.name)), stops, stopped)
        ==> StaleStopped(ctx, c, rows, stops, stopped)
  {
    ListedIs(rows);
    ExistingIs(Listed(rows), c.name);
    StaleIs(ctx, c, Existing(Listed(rows), c.name));
  }

  lemma SlotStepThen(a: Pool, b: Pool, p: Pool, c: Component, slot: string, ok: bool, ready: Row)
    requires Looked(a, b, c, slot) && SlotStep(b, p, c, slot, ok, ready)
    ensures SlotStep(a, p, c, slot, ok, ready)
  {
    AskedMoreThen(a.asked, b.asked, p.asked);
    ReadyKeptThen(a.rows, b.rows, p.rows, a.containers, b.containers, [], []);
    forall i | |a.created| <= i < |p.created| ensures IsNew(a, p, p.created[i].id) {
      assert IsNew(b, p, p.created[i].id);
    }
  }

  /** The first candidate is ready and its container exists. */
  predicate IsReadyFirst(rows: Rows, containers: set<string>, candidates: seq<Row>) {
    && candidates != [] && candidates[0].id in containers && candidates[0].id in rows
    && rows[candidates[0].id] == candidates[0] && candidates[0].status == Ready
  }

  lemma ChangedMore(a: Rows, b: Rows, c: Rows, list: seq<Row>, i: nat, status: Status)
    requires ChangedOnly(a, b, list) && i < |list| && list[i].id in b
    requires c == b[list[i].id := b[list[i].id].(status := status)]
    ensures ChangedOnly(a, c, list)
  {
    assert list[i] in list;
  }

  lemma {:induction false} FailedStep(a: Rows, b: Rows, c: Rows, list: seq<Row>, i: nat)
    requires ChangedOnly(a, b, list) && NoneRemoved(a, b) && i < |list| && AllFailed(b, list[..i]) && list[i].id in b
    requires c == b[list[i].id := b[list[i].id].(status := Failed)]
    ensures ChangedOnly(a, c, list) && NoneRemoved(a, c) && AllFailed(c, list[..i + 1])
  {
    ChangedMore(a, b, c, list, i, Failed);
    FailedMore(b, c, list, i);
  }

  lemma {:induction false} RestartStep(a: Rows, b: Rows, c: Rows, heard: seq<Check>, checks: seq<Check>, from: nat,
                                       list: seq<Row>, i: nat, healthy: bool)
    requires ChangedOnly(a, b, list) && NoneRemoved(a, b) && i < |list| && DistinctRows(list) && list[i].id in b
    requires RestartsHeard(heard, from, list[..i]) && AllRestarted(b, heard, from, list[..i])
    requires exists ok :: checks == heard + [Started(list[i].id, ok), Probed(list[i].id, healthy)]
    requires c == b[list[i].id := b[list[i].id].(status := if healthy then Ready else Failed)]
    ensures ChangedOnly(a, c, list) && NoneRemoved(a, c)
    ensures RestartsHeard(checks, from, list[..i + 1]) && AllRestarted(c, checks, from, list[..i + 1])
  {
    ChangedMore(a, b, c, list, i, if healthy then Ready else Failed);
    RestartedMore(b, c, heard, checks, from, list, i, healthy);
  }

  /** The store refuses the patch after the probe. */
  lemma {:induction false} RestartRefused(rows: Rows, heard: seq<Check>, checks: seq<Check>, from: nat, list: seq<Row>,
                                          i: nat, healthy: bool)
    requires i < |list| && RestartsHeard(heard, from, list[..i]) && AllRestarted(rows, heard, from, list[..i])
    requires exists ok :: checks == heard + [Started(list[i].id, ok), Probed(list[i].id, healthy)]
    ensures RestartsHeard(checks, from, list[..i + 1]) && AllRestarted(rows, checks, from, list[..i])
  {
    HeardMore(heard, checks, from, list, i, healthy);
    forall j | 0 <= j < i ensures Restarted(rows, checks, from + 2 * j, list[..i][j].id) {
      assert Restarted(rows, heard, from + 2 * j, list[..i][j].id);
    }
  }

  // ---- one component, and all of them ----

  /** What one component's convergence does, and what is left of that when it fails. */
  ghost predicate ComponentRun(ctx: Context, b: Pool, a: Pool, c: Component, ok: bool, selected: seq<Row>) {
    && (if ok then ComponentStep(b, a, c, c.slots, selected) && SlotGates(ctx, b, a, c.name, c.slots, selected)
        else Framed(b, a, c) && GatesLeft(ctx, b, a, c.name, c.slots))
    && RemovedKept(b, a)
  }

  /** The stale instances are not out of the way. */
  lemma {:induction false} ComponentFailed(ctx: Context, b: Pool, a: Pool, c: Component, selected: seq<Row>)
    requires Framed(b, a, c) && a.checks == b.checks && a.created == b.created && RemovedKept(b, a)
    ensures ComponentRun(ctx, b, a, c, false, selected)
  {}

  /** What the slots of a component keep. */
  ghost predicate SlotsKeep(b: Pool, a: Pool) {
    && Evolved(b.rows, a.rows) && AskedMore(b.asked, a.asked) && b.containers <= a.containers
    && ReadyKept(b.rows, a.rows, b.containers, []) && RemovedKept(b, a)
  }

  lemma {:induction false} SlotsKeepThen(b: Pool, m: Pool, a: Pool)
    requires SlotsKeep(b, m) && SlotsKeep(m, a)
    ensures SlotsKeep(b, a)
  {
    AskedMoreThen(b.asked, m.asked, a.asked);
    ReadyKeptThen(b.rows, m.rows, a.rows, b.containers, m.containers, [], []);
  }

  /** A run after the components before place `k`. */
  ghost predicate ComponentsRun(ctx: Context, start: Pool, now: Pool, k: nat, current: seq<Row>, stopped: seq<Row>)
    requires k <= |ctx.order| && forall n :: n in ctx.order ==> n in ctx.components
  {
    && OrderStep(start, now, ctx, k, current) && StopsKept(ctx, start, now, stopped, None, ctx.order[..k])
    && RunGates(ctx, start, now, ctx.order[..k], current) && RemovedKept(start, now)
    && start.asked.creations <= now.asked.creations && start.asked.jobs == now.asked.jobs
  }

  /** A run after the components, also when one of them has failed. */
  ghost predicate ComponentsLeft(ctx: Context, start: Pool, now: Pool, stopped: seq<Row>, halted: Option<Halt>) {
    && Evolved(start.rows, now.rows) && Grown(start, now) && |now.leftover| <= |start.leftover| + 1
    && StopsKept(ctx, start, now, stopped, halted, ctx.order) && CreatedVouched(ctx, start, now)
    && RemovedKept(start, now) && start.checks <= now.checks
    && start.asked.creations <= now.asked.creations && start.asked.jobs == now.asked.jobs
  }

  lemma {:induction false} ComponentsMore(ctx: Context, start: Pool, m: Pool, a: Pool, k: nat, current: seq<Row>,
                                          selected: seq<Row>, before: seq<Row>, after: seq<Row>)
    requires Proper(ctx) && k < |ctx.order| && ComponentsRun(ctx, start, m, k, current, before)
    requires ComponentRun(ctx, m, a, ctx.components[ctx.order[k]], true, selected)
    requires ComponentStops(ctx, m, a, ctx.order[k], before, after, None)
    requires m.asked.creations <= a.asked.creations && a.asked.jobs == m.asked.jobs
    ensures ComponentsRun(ctx, start, a, k + 1, current + selected, after)
  {
    assert ctx.order[..k + 1] == ctx.order[..k] + [ctx.order[k]] && ctx.order[k] !in ctx.order[..k];
    StopsMore(ctx, start, m, a, ctx.order[k], ctx.order[..k], before, after, None);
    NextComponent(start, m, a, ctx, k, current, selected);
    NextComponentGates(ctx, start, m, a, k, current, selected);
  }

  lemma {:induction false} ComponentsEnd(ctx: Context, start: Pool, m: Pool, a: Pool, k: nat, current: seq<Row>,
                                         selected: seq<Row>, before: seq<Row>, after: seq<Row>, halted: Option<Halt>)
    requires Proper(ctx) && k < |ctx.order| && ComponentsRun(ctx, start, m, k, current, before)
    requires ComponentRun(ctx, m, a, ctx.components[ctx.order[k]], false, selected)
    requires ComponentStops(ctx, m, a, ctx.order[k], before, after, halted)
    requires m.asked.creations <= a.asked.creations && a.asked.jobs == m.asked.jobs
    ensures ComponentsLeft(ctx, start, a, after, halted)
  {
    EndStops(ctx, start, m, a, k, current, before, after, halted);
    FailedComponent(start, m, a, ctx, k, current, ctx.components[ctx.order[k]]);
    FailedComponentGates(ctx, start, m, a, k, current);
  }

  lemma {:induction false} EndStops(ctx: Context, start: Pool, m: Pool, a: Pool, k: nat, current: seq<Row>,
                                    before: seq<Row>, after: seq<Row>, halted: Option<Halt>)
    requires Proper(ctx) && k < |ctx.order| && OrderStep(start, m, ctx, k, current)
    requires StopsKept(ctx, start, m, before, None, ctx.order[..k])
    requires ComponentStops(ctx, m, a, ctx.order[k], before, after, halted)
    ensures StopsKept(ctx, start, a, after, halted, ctx.order)
  {
    assert ctx.order[..k + 1] == ctx.order[..k] + [ctx.order[k]] && ctx.order[k] !in ctx.order[..k];
    StopsMore(ctx, start, m, a, ctx.order[k], ctx.order[..k], before, after, halted);
    StopsAmong(ctx, start, a, after, halted, ctx.order[..k + 1], ctx.order);
  }

  lemma {:induction false} AllComponents(ctx: Context, start: Pool, now: Pool, current: seq<Row>, stopped: seq<Row>)
    requires forall n :: n in ctx.order ==> n in ctx.components
    requires ComponentsRun(ctx, start, now, |ctx.order|, current, stopped)
    ensures ComponentsLeft(ctx, start, now, stopped, None)
  {
    StopsAmong(ctx, start, now, stopped, None, ctx.order[..|ctx.order|], ctx.order);
    SelectedVouch(ctx, start, now, current);
  }

  // ---- retirement, one instance after the other ----

  lemma {:induction false} RetireAskedMore(a: Asked, b: Asked, c: Asked, list: seq<Row>, i: nat, x: Retired)
    requires i < |list| && RetireAsked(a, b, list, Retired(|list|, i, i, i, i))
    requires InOrder(x, |list|) && x.stopped == i + 1
    requires x.marked >= i
    requires c == b.(stops := b.stops + [list[i].id],
                     removals := b.removals + if x.removed > i then [list[i].id] else [])
    ensures RetireAsked(a, c, list, x)
  {
    IdsNext(list, i);
  }

  lemma {:induction false} RetireRowsMore(a: Rows, b: Rows, c: Rows, list: seq<Row>, i: nat, x: Retired)
    requires i < |list| && RetireRows(a, b, list, Retired(|list|, i, i, i, i)) && list[i].id in b
    requires InOrder(x, |list|) && x.stopped == i + 1 && x.marked >= i
    requires c == if x.marked == i + 1 then b[list[i].id := b[list[i].id].(status := Removed)] else b
    ensures RetireRows(a, c, list, x)
  {
    if x.marked == i + 1 {
      ChangedMore(a, b, c, list, i, Removed);
      forall id | IsRemoved(c, id) && !IsRemoved(a, id) ensures HasId(list[..i + 1], 0, id) {
        if id == list[i].id {
          assert list[..i + 1][i].id == id;
        } else {
          assert IsRemoved(b, id);
          var j :| 0 <= j < i && list[..i][j].id == id;
          assert list[..i + 1][j].id == id;
        }
      }
      forall j | 0 <= j < x.marked ensures IsRemoved(c, list[j].id) {
        if j < i { assert IsRemoved(b, list[j].id); }
      }
    }
  }

  lemma {:induction false} GoneMore(a: set<string>, b: set<string>, c: set<string>, list: seq<Row>, i: nat, x: Retired)
    requires i < |list| && b == a - IdSet(list[..i]) && i <= x.gone <= i + 1
    requires c == if x.gone > i then b - {list[i].id} else b
    ensures c == a - IdSet(list[..x.gone])
  {
    if x.gone > i { IdSetNext(list, i); }
  }

  lemma IdSetNext(list: seq<Row>, i: nat)
    requires i < |list|
    ensures IdSet(list[..i + 1]) == IdSet(list[..i]) + {list[i].id}
  {
    assert list[..i + 1] == list[..i] + [list[i]];
    assert list[i] in list[..i + 1];
    forall id | id in IdSet(list[..i + 1]) ensures id in IdSet(list[..i]) + {list[i].id} {
      var r :| r in list[..i + 1] && r.id == id;
      assert r in list[..i] || r == list[i];
    }
    forall id | id in IdSet(list[..i]) ensures id in IdSet(list[..i + 1]) {
      var r :| r in list[..i] && r.id == id;
      assert r in list[..i + 1];
    }
  }

  lemma {:induction false} RetireAfterDrain(a: Rows, b: Rows, c: Rows, list: seq<Row>, x: Retired)
    requires ChangedOnly(a, b, list) && NoneRemoved(a, b) && RetireRows(b, c, list, x)
    ensures RetireRows(a, c, list, x)
  {
    ChangedThen(a, b, c, list);
    forall id | IsRemoved(c, id) && !IsRemoved(a, id) ensures HasId(list[..x.marked], 0, id) {
      assert !IsRemoved(b, id);
    }
  }

  /** What is retired are instances of the list. */
  lemma {:induction false} RetiredOnly(before: Rows, after: Rows, had: set<string>, have: set<string>, list: seq<Row>,
                                       x: Retired)
    requires RetireRows(before, after, list, x) && x.gone <= |list| && have == had - IdSet(list[..x.gone])
    ensures ContainersOnly(had, have, list)
    ensures x.marked == |list| ==> forall r :: r in list && r.id in after ==> after[r.id].status == Removed
  {
    forall name | name in had && name !in have ensures exists r :: r in list && r.id == name {
      var r :| r in list[..x.gone] && r.id == name;
      assert r in list;
    }
    if x.marked == |list| {
      forall r | r in list ensures IsRemoved(after, r.id) {
        var i :| 0 <= i < |list| && list[i] == r;
      }
    }
  }

  lemma {:induction false} RetiredWell(before: Rows, after: Rows, had: set<string>, have: set<string>,
                                       current: seq<Row>, list: seq<Row>, x: Retired)
    requires InStore(before, had, current) && IsUnselected(before, current, list)
    requires RetireRows(before, after, list, x) && x.gone <= |list| && have == had - IdSet(list[..x.gone])
    ensures InStore(after, have, current) && Evolved(before, after)
    ensures x.marked == |list| ==> OnlySelected(after, current)
  {
    RetiredOnly(before, after, had, have, list, x);
    RetireKeeps(before, after, had, have, current, list);
    if x.marked == |list| { RetireLeaves(before, after, current, list); }
  }

  lemma UnselectedHaveRows(rows: Rows, current: seq<Row>, stale: seq<Row>)
    requires IsUnselected(rows, current, stale)
    ensures HaveRows(rows, stale)
  {
    forall i | 0 <= i < |stale| ensures stale[i].id in rows { assert stale[i] in stale; }
  }

  // ---- a run on its way ----

  /** Nothing has been lost, what was created is new and has passed its gate, what was stopped is recorded, and
      nothing is retired yet. */
  ghost predicate Underway(ctx: Context, start: Pool, now: Run) {
    && Evolved(start.rows, now.pool.rows) && Grown(start, now.pool) && |now.pool.leftover| <= 1
    && StopsKept(ctx, start, now.pool, now.stopped, now.halted, ctx.order)
    && CreatedVouched(ctx, start, now.pool) && RemovedKept(start, now.pool) && start.checks <= now.pool.checks
    && start.asked.creations <= now.pool.asked.creations && start.asked.jobs <= now.pool.asked.jobs
    && now.retiring == [] && now.retired == NoneRetired
  }

  /** The instances are selected and have passed their gates, and their containers exist. */
  ghost predicate SelectedRun(ctx: Context, start: Pool, current: seq<Row>, now: Run)
    requires forall n :: n in ctx.order ==> n in ctx.components
  {
    && ProperRows(now.pool.rows) && FillsOrder(ctx, |ctx.order|, current)
    && InStore(now.pool.rows, now.pool.containers, current) && CreatedAmong(now.pool.created, 0, current)
    && AllVouched(ctx, start, now.pool, current) && now.halted == None && now.pool.leftover == {}
  }

  /** The jobs touch neither the rows nor what is recorded as stopped. */
  lemma {:induction false} JobsAskNothing(ctx: Context, start: Pool, current: seq<Row>, before: Run, now: Run)
    requires forall n :: n in ctx.order ==> n in ctx.components
    requires Underway(ctx, start, before) && SelectedRun(ctx, start, current, before)
    requires now.pool == before.pool.(asked := before.pool.asked.(jobs := now.pool.asked.jobs))
    requires now == before.(pool := now.pool) && before.pool.asked.jobs <= now.pool.asked.jobs
    ensures Underway(ctx, start, now) && SelectedRun(ctx, start, current, now)
  {
    forall i | |start.created| <= i < |now.pool.created| ensures IsNew(start, now.pool, now.pool.created[i].id) {
      assert IsNew(start, before.pool, before.pool.created[i].id);
    }
    VouchedSame(ctx, start, before.pool, now.pool, current);
  }

  lemma {:induction false} VouchedSame(ctx: Context, b: Pool, m: Pool, a: Pool, selected: seq<Row>)
    requires AllVouched(ctx, b, m, selected) && CreatedVouched(ctx, b, m)
    requires a.created == m.created && a.checks == m.checks
    ensures AllVouched(ctx, b, a, selected) && CreatedVouched(ctx, b, a)
  {
    AllInspected(ctx, b, m, a, selected);
  }

  /** What the publication and the retirement do. */
  ghost predicate RetirementOf(stage: Stage, current: seq<Row>, before: Run, now: Run) {
    && now.pool == before.pool.(rows := now.pool.rows, containers := now.pool.containers, asked := now.pool.asked,
                                checks := now.pool.checks)
    && now == before.(pool := now.pool, endpoints := now.endpoints, retiring := now.retiring, retired := now.retired)
    && Inspections(before.pool.checks, now.pool.checks) && DistinctRows(now.retiring)
    && RetireAsked(before.pool.asked, now.pool.asked, now.retiring, now.retired)
    && RetireRows(before.pool.rows, now.pool.rows, now.retiring, now.retired)
    && now.pool.containers == before.pool.containers - IdSet(now.retiring[..now.retired.gone])
    && (if stage == Retiring then IsUnselected(before.pool.rows, current, now.retiring)
        else now.retiring == [] && now.pool.rows == before.pool.rows)
  }

  lemma NothingRetired(stage: Stage, current: seq<Row>, before: Run, now: Run)
    requires stage != Retiring && before.retiring == [] && before.retired == NoneRetired
    requires OnlyPublished(before, now)
    ensures RetirementOf(stage, current, before, now)
  {
    assert now.retiring[..0] == [] && Ids([]) == [];
  }

  ghost predicate OnlyPublished(before: Run, now: Run) {
    && now.pool == before.pool.(checks := now.pool.checks)
    && now == before.(pool := now.pool, endpoints := now.endpoints)
    && Inspections(before.pool.checks, now.pool.checks)
  }

  lemma SomeRetired(current: seq<Row>, before: Run, middle: Run, now: Run)
    requires OnlyPublished(before, middle)
    requires now.pool == middle.pool.(rows := now.pool.rows, containers := now.pool.containers, asked := now.pool.asked)
    requires now == middle.(pool := now.pool, retiring := now.retiring, retired := now.retired)
    requires DistinctRows(now.retiring) && IsUnselected(middle.pool.rows, current, now.retiring)
    requires RetireAsked(middle.pool.asked, now.pool.asked, now.retiring, now.retired)
    requires RetireRows(middle.pool.rows, now.pool.rows, now.retiring, now.retired)
    requires now.pool.containers == middle.pool.containers - IdSet(now.retiring[..now.retired.gone])
    ensures RetirementOf(Retiring, current, before, now)
  {}

  // ---- a run that fails ----

  /** What the catch block relies on until instances are retired. */
  ghost predicate Preserving(start: Pool, now: Run) {
    && Grown(start, now.pool) && |now.pool.leftover| <= 1
    && ReadyKept(start.rows, now.pool.rows, start.containers, now.stopped)
  }

  /** The state of a run that is about to be given up. */
  ghost predicate Failing(ctx: Context, start: Pool, stage: Stage, current: seq<Row>, endpointsBefore: Endpoints,
                          now: Run)
    requires forall n :: n in ctx.order ==> n in ctx.components
  {
    && Evolved(start.rows, now.pool.rows) && RunKept(ctx, start, now) && AskedAt(start.asked, now.pool.asked, now)
    && FailedServing(ctx, stage, start, current, endpointsBefore, now) && start.checks <= now.pool.checks
    && (if stage == Retiring then LeftOver(start, IdSet(now.pool.created), current, now) else Preserving(start, now))
  }

  lemma {:induction false} UnderwayFails(ctx: Context, start: Pool, current: seq<Row>, now: Run)
    requires forall n :: n in ctx.order ==> n in ctx.components
    requires start.created == [] && Underway(ctx, start, now)
    ensures Failing(ctx, start, Materializing, current, now.endpoints, now)
  {
    GrownIsNew(start, now.pool);
    assert now.stopped[0..] == now.stopped && now.retiring[..0] == [] && Ids([]) == [];
  }

  /** The publication and the retirement leave what a run has promised so far. */
  lemma {:induction false} Closed(ctx: Context, start: Pool, stage: Stage, current: seq<Row>, before: Run, now: Run)
    requires Proper(ctx) && start.created == [] && stage != Materializing
    requires Underway(ctx, start, before) && SelectedRun(ctx, start, current, before)
    requires RetirementOf(stage, current, before, now) && InStore(now.pool.rows, now.pool.containers, current)
    requires EndpointsAt(stage, ctx, before.endpoints, now.endpoints, current)
    ensures Failing(ctx, start, stage, current, before.endpoints, now)
    ensures SelectedWell(ctx, start, current, now)
  {
    ClosedAsked(ctx, start, stage, current, before, now);
    ClosedKept(ctx, start, stage, current, before, now);
    ClosedWell(ctx, start, stage, current, before, now);
    if stage == Retiring {
      ClosedLeft(ctx, start, current, before, now);
    } else {
      ClosedPreserving(ctx, start, stage, current, before, now);
    }
  }

  lemma {:induction false} ClosedAsked(ctx: Context, start: Pool, stage: Stage, current: seq<Row>, before: Run,
                                       now: Run)
    requires Underway(ctx, start, before) && before.halted == None && RetirementOf(stage, current, before, now)
    ensures AskedAt(start.asked, now.pool.asked, now)
  {
    assert before.stopped[0..] == before.stopped;
    assert start.asked.stops + Ids(before.stopped) + [] == start.asked.stops + Ids(before.stopped);
  }

  lemma {:induction false} ClosedKept(ctx: Context, start: Pool, stage: Stage, current: seq<Row>, before: Run,
                                      now: Run)
    requires forall n :: n in ctx.order ==> n in ctx.components
    requires start.created == [] && Underway(ctx, start, before) && SelectedRun(ctx, start, current, before)
    requires RetirementOf(stage, current, before, now)
    ensures RunKept(ctx, start, now) && Evolved(start.rows, now.pool.rows)
    ensures AllVouched(ctx, start, now.pool, current) && CreatedNew(start, now.pool.rows, now.pool.created)
  {
    GrownIsNew(start, before.pool);
    NewStill(start, before.pool.rows, now.pool.rows, now.pool.created);
    AllInspected(ctx, start, before.pool, now.pool, current);
    RetireKeepsGone(before.pool, now.pool, now.retiring, now.retired);
  }

  lemma {:induction false} ClosedWell(ctx: Context, start: Pool, stage: Stage, current: seq<Row>, before: Run,
                                      now: Run)
    requires Proper(ctx) && start.created == [] && Underway(ctx, start, before)
    requires SelectedRun(ctx, start, current, before) && RetirementOf(stage, current, before, now)
    requires RunKept(ctx, start, now) && AllVouched(ctx, start, now.pool, current)
    requires InStore(now.pool.rows, now.pool.containers, current)
    ensures SelectedWell(ctx, start, current, now) && AllStand(now.pool, current)
  {
    SelectedDistinct(ctx, before.pool.rows, before.pool.containers, current);
    forall i | 0 <= i < |now.retiring|
      ensures now.retiring[i].id in now.pool.rows && SamePlace(now.pool.rows[now.retiring[i].id], now.retiring[i])
      ensures !IsSelected(current, now.retiring[i].id) {
      assert now.retiring[i] in now.retiring;
    }
    SelectedNotStopped(ctx, start, current, before);
  }

  /** A selected instance is current and not forced, or new: it was not stopped. */
  lemma {:induction false} SelectedNotStopped(ctx: Context, start: Pool, current: seq<Row>, now: Run)
    requires Proper(ctx) && start.created == [] && Underway(ctx, start, now) && SelectedRun(ctx, start, current, now)
    ensures NoneStopped(current, now.stopped)
  {
    OrderMeans(ctx, |ctx.order|, current);
    GrownIsNew(start, now.pool);
    forall i, j | 0 <= i < |now.stopped| && 0 <= j < |current| ensures now.stopped[i].id != current[j].id {
      assert FoundIn(ctx, start.rows, now.stopped[i], ctx.order) && current[j] in current;
      OneIsNot(ctx, start, now.pool, now.stopped[i], current[j]);
    }
  }

  lemma {:induction false} OneIsNot(ctx: Context, start: Pool, now: Pool, stopped: Row, selected: Row)
    requires Vouched(ctx, start, now, selected) && Fits(ctx.components[selected.component], selected)
    requires FoundIn(ctx, start.rows, stopped, ctx.order) && CreatedNew(start, now.rows, now.created)
    requires ctx.components[selected.component].name == selected.component
    requires Evolved(start.rows, now.rows) && selected.id in now.rows && now.rows[selected.id] == selected
    requires start.created == []
    ensures stopped.id != selected.id
  {
    forall i | 0 <= i < |now.created| ensures now.created[i].id != stopped.id {
      assert IsNewIn(start, now.rows, now.created[i].id);
    }
    assert stopped.id == selected.id ==> SameBut(selected, stopped);
  }

  lemma {:induction false} ClosedLeft(ctx: Context, start: Pool, current: seq<Row>, before: Run, now: Run)
    requires forall n :: n in ctx.order ==> n in ctx.components
    requires start.created == [] && Underway(ctx, start, before) && SelectedRun(ctx, start, current, before)
    requires RetirementOf(Retiring, current, before, now)
    ensures LeftOver(start, IdSet(now.pool.created), current, now)
  {
    if RemovedGone(start.rows, start.containers) {
      LeftIs(start, before.pool, now.pool, IdSet(now.pool.created), current, now.retiring, now.retired);
    }
  }

  lemma {:induction false} ClosedPreserving(ctx: Context, start: Pool, stage: Stage, current: seq<Row>, before: Run,
                                            now: Run)
    requires start.created == [] && Underway(ctx, start, before) && stage != Retiring
    requires RetirementOf(stage, current, before, now)
    ensures Preserving(start, now)
  {
    assert IdSet(now.retiring[..now.retired.gone]) == {} && Ids([]) == [];
    assert now.pool == before.pool.(checks := now.pool.checks);
    forall i | |start.created| <= i < |now.pool.created| ensures IsNew(start, now.pool, now.pool.created[i].id) {
      assert IsNew(start, before.pool, before.pool.created[i].id);
    }
  }

  // ---- the catch block ----

  /** No row is newly marked as removed. */
  ghost predicate NoneRemoved(before: Rows, after: Rows) {
    forall id :: IsRemoved(after, id) ==> IsRemoved(before, id)
  }

  /** What the catch block changes. */
  ghost predicate UndoneFrom(undo: Undo, before: Run, now: Run) {
    && now.pool == before.pool.(rows := now.pool.rows, containers := now.pool.containers, asked := now.pool.asked,
                                checks := now.pool.checks)
    && now == before.(pool := now.pool, admission := now.admission)
    && UndoChanged(before.pool.rows, now.pool.rows, now.pool.created, now.stopped)
    && NoneRemoved(before.pool.rows, now.pool.rows) && before.pool.checks <= now.pool.checks
    && now.pool.containers == before.pool.containers - (IdSet(now.pool.created) - undo.kept)
    && undo.before == before.pool.asked && undo.heard == |before.pool.checks|
  }

  /** The catch block leaves what a run has promised. */
  lemma {:induction false} UndoneStill(ctx: Context, start: Pool, stage: Stage, current: seq<Row>,
                                       endpointsBefore: Endpoints, undo: Undo, before: Run, now: Run)
    requires forall n :: n in ctx.order ==> n in ctx.components
    requires start.created == [] && Failing(ctx, start, stage, current, endpointsBefore, before)
    requires UndoneFrom(undo, before, now)
    requires undo.restarted <= |now.stopped|
    requires RestartsHeard(now.pool.checks, undo.heard,
                           now.stopped[..RestartsBegun(undo, |now.pool.created|, |now.stopped|)])
    ensures RunKept(ctx, start, now) && Evolved(start.rows, now.pool.rows)
    ensures AskedAt(start.asked, undo.before, now)
    ensures FailedServing(ctx, stage, start, current, endpointsBefore, now)
    ensures stage == Retiring ==> LeftOver(start, undo.kept, current, now)
    ensures stage != Retiring ==> PoolPreserved(start, now.pool, now.stopped)
  {
    var begun := RestartsBegun(undo, |now.pool.created|, |now.stopped|);
    HeardRestarts(now.pool.checks, undo.heard, now.stopped, begun);
    KeptUndone(ctx, start, undo, before, now);
    ServingUndone(ctx, stage, start, current, endpointsBefore, undo, before, now);
    if stage == Retiring {
      LeftUndone(start, current, undo, before, now);
    } else {
      PreservedUndone(start, undo, before, now);
    }
  }

  lemma {:induction false} GivenUp(ctx: Context, start: Pool, stage: Stage, complete: bool, current: seq<Row>,
                                   endpointsBefore: Endpoints, undo: Undo, refusals: nat, before: Run, now: Run,
                                   jobs: Jobs.Store)
    requires forall n :: n in ctx.order ==> n in ctx.components
    requires start.created == [] && Failing(ctx, start, stage, current, endpointsBefore, before)
    requires UndoneFrom(undo, before, now) && Undone(undo, complete, refusals, now.pool, now.stopped)
    requires AdmissionKept(ctx, GaveUp(stage, complete), now.admission)
    ensures Evolved(start.rows, now.pool.rows)
    ensures Promised(ctx, GaveUp(stage, complete), undo, refusals, current, start, endpointsBefore, now, jobs)
  {
    UndoneStill(ctx, start, stage, current, endpointsBefore, undo, before, now);
    PromisedFailure(ctx, stage, complete, undo, refusals, current, start, endpointsBefore, now, jobs);
  }

  /** All that was heard since is about these instances. */
  ghost predicate HeardBy(checks: seq<Check>, from: nat, list: seq<Row>) {
    forall j :: from <= j < |checks| ==> HasId(list, 0, checks[j].id)
  }

  lemma {:induction false} HeardRestarts(checks: seq<Check>, from: nat, list: seq<Row>, n: nat)
    requires n <= |list| && RestartsHeard(checks, from, list[..n])
    ensures HeardBy(checks, from, list)
  {
    forall j | from <= j < |checks| ensures HasId(list, 0, checks[j].id) {
      var k := (j - from) / 2;
      assert RestartHeard(checks, from + 2 * k, list[..n][k].id);
      assert j == from + 2 * k || j == from + 2 * k + 1;
      assert list[k].id == checks[j].id;
    }
  }

  lemma {:induction false} VouchedUndone(ctx: Context, b: Pool, m: Pool, a: Pool, stopped: seq<Row>, list: seq<Row>,
                                         i: nat)
    requires i < |list| && Vouched(ctx, b, m, list[i]) && a.created == m.created && m.checks <= a.checks
    requires HeardBy(a.checks, |m.checks|, stopped) && !HasId(stopped, 0, list[i].id)
    ensures Vouched(ctx, b, a, list[i])
  {
    forall j | |m.checks| <= j < |a.checks| ensures a.checks[j].id != list[i].id {
      assert HasId(stopped, 0, a.checks[j].id);
    }
    VouchedStill(ctx, b, m, a, list[i]);
  }

  lemma GoneUndone(start: Pool, undo: Undo, before: Run, now: Run)
    requires RemovedKept(start, before.pool) && UndoneFrom(undo, before, now)
    ensures RemovedKept(start, now.pool)
  {
    var p := now.pool;
    forall id | IsStray(p.rows, p.containers, id) ensures IsStray(start.rows, start.containers, id) {
      assert IsRemoved(p.rows, id) && IsRemoved(before.pool.rows, id);
      assert IsStray(before.pool.rows, before.pool.containers, id);
    }
  }

  lemma {:induction false} KeptUndone(ctx: Context, start: Pool, undo: Undo, before: Run, now: Run)
    requires start.created == [] && Evolved(start.rows, before.pool.rows) && RunKept(ctx, start, before)
    requires UndoneFrom(undo, before, now) && HeardBy(now.pool.checks, undo.heard, now.stopped)
    ensures RunKept(ctx, start, now) && Evolved(start.rows, now.pool.rows)
  {
    UndoKeeps(ctx, start, before.pool.rows, now.pool.rows, now.pool.created, now.stopped, now.halted, ctx.order);
    CreatedNotStopped(ctx, start, before.pool.rows, now.pool.created, now.stopped, ctx.order);
    var created := now.pool.created;
    forall i | 0 <= i < |created| ensures Vouched(ctx, start, now.pool, created[i]) {
      assert created[i] in created && Vouched(ctx, start, before.pool, before.pool.created[i]);
      VouchedUndone(ctx, start, before.pool, now.pool, now.stopped, created, i);
    }
    GoneUndone(start, undo, before, now);
  }

  /** Rows of created and stopped instances may have another status, and no others. */
  ghost predicate UndoChanged(before: Rows, after: Rows, created: seq<Row>, stopped: seq<Row>) {
    && Evolved(before, after) && after.Keys == before.Keys
    && forall id :: id in before && after[id] != before[id] ==> HasId(created, 0, id) || HasId(stopped, 0, id)
  }

  lemma UndoChangedThen(before: Rows, middle: Rows, after: Rows, created: seq<Row>, stopped: seq<Row>)
    requires ChangedOnly(before, middle, created) && (after == middle || ChangedOnly(middle, after, stopped))
    ensures UndoChanged(before, after, created, stopped)
  {
    forall id | id in before && after[id] != before[id] ensures HasId(created, 0, id) || HasId(stopped, 0, id) {
      if middle[id] != before[id] {
        var r :| r in created && r.id == id;
        var i :| 0 <= i < |created| && created[i] == r;
      } else {
        var r :| r in stopped && r.id == id;
        var i :| 0 <= i < |stopped| && stopped[i] == r;
      }
    }
  }

  lemma UndoneHaveRows(ctx: Context, start: Pool, rows: Rows, created: seq<Row>, stopped: seq<Row>, names: seq<string>)
    requires CreatedNew(start, rows, created) && StoppedOk(ctx, start.rows, stopped, names)
    requires Evolved(start.rows, rows)
    ensures HaveRows(rows, created) && HaveRows(rows, stopped)
  {
    forall i | 0 <= i < |created| ensures created[i].id in rows {
      assert IsNewIn(start, rows, created[i].id);
    }
    forall i | 0 <= i < |stopped| ensures stopped[i].id in rows {
      assert FoundIn(ctx, start.rows, stopped[i], names);
    }
  }

  lemma UndoKeeps(ctx: Context, start: Pool, before: Rows, after: Rows, created: seq<Row>, stopped: seq<Row>,
                  halted: Option<Halt>, names: seq<string>)
    requires Evolved(start.rows, before) && UndoChanged(before, after, created, stopped)
    requires CreatedNew(start, before, created) && HaltKept(ctx, start.rows, before, stopped, halted, names)
    ensures Evolved(start.rows, after) && CreatedNew(start, after, created)
    ensures HaltKept(ctx, start.rows, after, stopped, halted, names)
  {
    NewStill(start, before, after, created);
    HaltStays(ctx, start, before, after, created, stopped, halted, names);
  }

  lemma UndoKeepsReady(start: Pool, before: Rows, after: Rows, created: seq<Row>, stopped: seq<Row>)
    requires ReadyKept(start.rows, before, start.containers, stopped) && UndoChanged(before, after, created, stopped)
    requires CreatedNew(start, before, created)
    ensures ReadyKept(start.rows, after, start.containers, stopped)
  {
    forall id | id in start.rows && IsReady(start.rows, start.containers, id)
      ensures SameRow(start.rows, after, id) || HasId(stopped, 0, id) {
      forall i | 0 <= i < |created| ensures created[i].id != id { assert IsNewIn(start, before, created[i].id); }
      assert !HasId(created, 0, id);
    }
  }

  /** The catch block leaves the selected instances alone, but for those that it removes. */
  lemma {:induction false} ServingUndone(ctx: Context, stage: Stage, start: Pool, current: seq<Row>,
                                         endpointsBefore: Endpoints, undo: Undo, before: Run, now: Run)
    requires forall n :: n in ctx.order ==> n in ctx.components
    requires FailedServing(ctx, stage, start, current, endpointsBefore, before) && UndoneFrom(undo, before, now)
    requires HeardBy(now.pool.checks, undo.heard, now.stopped)
    ensures FailedServing(ctx, stage, start, current, endpointsBefore, now)
  {
    if stage != Materializing {
      forall i | 0 <= i < |current| ensures Vouched(ctx, start, now.pool, current[i]) {
        assert Vouched(ctx, start, before.pool, current[i]);
        NotStopped(current, now.stopped, i);
        VouchedUndone(ctx, start, before.pool, now.pool, now.stopped, current, i);
      }
      IdSetHas(now.pool.created);
      forall i | 0 <= i < |current| ensures Stands(now.pool, current[i]) {
        assert Stands(before.pool, current[i]);
        NotStopped(current, now.stopped, i);
      }
    }
  }

  lemma NotStopped(current: seq<Row>, stopped: seq<Row>, i: nat)
    requires i < |current| && NoneStopped(current, stopped)
    ensures !HasId(stopped, 0, current[i].id)
  {
    forall j | 0 <= j < |stopped| ensures stopped[j].id != current[i].id { assert !IsSelected(current, stopped[j].id); }
  }

  lemma {:induction false} LeftUndone(start: Pool, current: seq<Row>, undo: Undo, before: Run, now: Run)
    requires LeftOver(start, IdSet(before.pool.created), current, before) && UndoneFrom(undo, before, now)
    requires CreatedNew(start, before.pool.rows, before.pool.created)
    ensures LeftOver(start, undo.kept, current, now)
  {
    var p := now.pool;
    IdSetHas(p.created);
    if RemovedGone(start.rows, start.containers) {
      forall id | id in p.rows
        ensures id in p.containers <==> IsLeft(start, p, undo.kept, current, now.retiring, now.retired, id) {
        assert IsLeft(start, before.pool, IdSet(p.created), current, now.retiring, now.retired, id)
          <==> id in before.pool.containers;
        if i :| 0 <= i < |p.created| && p.created[i].id == id {
          assert IsNewIn(start, before.pool.rows, p.created[i].id);
        }
      }
    }
  }

  lemma {:induction false} PreservedUndone(start: Pool, undo: Undo, before: Run, now: Run)
    requires start.created == [] && Preserving(start, before) && UndoneFrom(undo, before, now)
    ensures PoolPreserved(start, now.pool, now.stopped)
  {
    GrownIsNew(start, before.pool);
    IdSetHas(now.pool.created);
    forall name | name in before.pool.containers && name !in now.pool.containers
      ensures exists r :: r in now.pool.created && r.id == name {
      assert name in IdSet(now.pool.created);
    }
    LostNothing(start, before.pool, now.pool);
    UndoKeepsReady(start, before.pool.rows, now.pool.rows, now.pool.created, now.stopped);
  }

  /** Converged already, with nothing forced, no job to run, and Docker and the store reliable. */
  ghost predicate Steady(ctx: Context, reliable: bool, rows: Rows, containers: set<string>, endpoints: Endpoints,
                         jobs: Jobs.Store, was: seq<Row>)
    requires forall n :: n in ctx.order ==> n in ctx.components
  {
    && reliable && NoForce(ctx) && Converged(ctx, rows, containers, endpoints, was)
    && JobsFor(ctx, jobs, was) == [] && !WriterMissing(ctx)
  }

  lemma {:induction false} DoneIsSteady(ctx: Context, returned: bool, undo: Undo, refusals: nat, selected: seq<Row>,
                                        start: Pool, endpointsBefore: Endpoints, now: Run, jobs: Jobs.Store)
    requires (forall n :: n in ctx.order ==> n in ctx.components) && NoForce(ctx)
    requires Promised(ctx, Done(returned), undo, refusals, selected, start, endpointsBefore, now, jobs)
    ensures Steady(ctx, true, now.pool.rows, now.pool.containers, now.endpoints, jobs, selected)
  {}

  lemma RoundKeepsLog(ctx: Context, st: Jobs.Store, current: seq<Row>, endings: seq<Jobs.Ending>)
    requires Jobs.LogKept(st) && DistinctRows(current)
    ensures Jobs.LogKept(Jobs.RunJobs(st, JobsFor(ctx, st, current), endings))
  {
    var r := JobRound(ctx, current);
    Jobs.PlanKeysDistinct(r.execution, r.settings, st.records, r.jobs, r.instances);
    Jobs.RoundIsNew(st, r);
    Jobs.RunJobsKeeps(st, JobsFor(ctx, st, current), endings);
  }
}
