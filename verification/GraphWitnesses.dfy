/** Two runs whose compensation is complete and leaves something behind. Each step is what the contract of the
    executor's method gives for the input. */
module GraphWitnesses {
  import opened Options
  import opened Lists
  import opened StringOrder
  import opened GraphModel
  import opened GraphGates
  import opened GraphRetirement
  import opened GraphRecovery
  import Jobs

  const NothingAsked: Asked := Asked([], [], [], [], [])

  // ---- a writer that stays down ----

  /** One component, which is replaced exclusively, with one ready instance, which is outdated or forced. */
  ghost predicate OneWriter(ctx: Context, c: Component, r: Row) {
    && Proper(ctx) && ctx.order == [c.name] && InGraph(ctx, c) && ReplacesExclusively(c)
    && r.component == c.name && r.status == Ready && IsStale(ctx, c, r)
  }

  function Finding(r: Row): Pool {
    Pool(map[r.id := r], {r.id}, [], {}, NothingAsked, [])
  }

  /** It is all that the run finds to stop. */
  lemma {:induction false} OneStale(ctx: Context, c: Component, r: Row)
    requires OneWriter(ctx, c, r)
    ensures StaleOf(ctx, c, Existing(Listed(Finding(r).rows), c.name)) == [r]
  {
    var rows := Finding(r).rows;
    ListedIs(rows);
    ExistingIs(Listed(rows), c.name);
    StaleIs(ctx, c, Existing(Listed(rows), c.name));
    ExistingRows(ctx, c, rows);
    assert rows[r.id] == r;
    OnlyElement(StaleOf(ctx, c, Existing(Listed(rows), c.name)), r);
  }

  lemma {:induction false} OnlyElement(list: seq<Row>, r: Row)
    requires DistinctRows(list) && forall x :: x in list <==> x == r
    ensures list == [r]
  {
    assert r in list;
    forall i | 0 <= i < |list| ensures list[i] == r { assert list[i] in list; }
    assert |list| > 1 ==> list[0].id != list[1].id;
  }

  /** The end of a run that could not stop its first instance as it should. */
  ghost predicate HaltedFirst(start: Pool, stale: seq<Row>, now: Run) {
    && now.pool == start.(rows := StopRows(start.rows, stale, 0),
                          asked := start.asked.(stops := start.asked.stops + Ids(stale[..0])
                                                         + HaltedIds(HaltAt(stale, 0, true))))
    && now.stopped == stale[..0] && now.halted == HaltAt(stale, 0, true)
    && now.retiring == [] && now.retired == NoneRetired && now.admission == Admission(false, false, false)
  }

  /** Docker stops the writer and the store refuses the patch: the writer is down with its row unchanged, and is not
      restarted, although the compensation is complete. */
  lemma {:induction false} WriterLeftDown(ctx: Context, c: Component, r: Row, endpoints: Endpoints, jobs: Jobs.Store)
    returns (undo: Undo, now: Run)
    requires OneWriter(ctx, c, r)
    ensures HaltedFirst(Finding(r), StaleOf(ctx, c, Existing(Listed(Finding(r).rows), c.name)), now)
    ensures Promised(ctx, GaveUp(Materializing, true), undo, 0, [], Finding(r), endpoints, now, jobs)
    ensures now.pool.asked.stops == [r.id] && now.pool.asked.starts == [] && now.halted == Some(Halt(r, true))
    ensures now.pool.rows == Finding(r).rows
  {
    OneStale(ctx, c, r);
    var start := Finding(r);
    var asked := NothingAsked.(stops := [r.id]);
    undo := Undo(asked, 0, 0, 0, {});
    now := Run(start.(asked := asked), endpoints, [], Some(Halt(r, true)), Admission(false, false, false), [],
               NoneRetired);
    assert Ids([]) == [] && [r.id] == [] + Ids([]) + HaltedIds(Some(Halt(r, true)));
    HaltedIsKept(ctx, c, r, now);
    HaltedUndone(ctx, undo, r, now);
    PromisedFailure(ctx, Materializing, true, undo, 0, [], start, endpoints, now, jobs);
  }

  lemma {:induction false} HaltedIsKept(ctx: Context, c: Component, r: Row, now: Run)
    requires OneWriter(ctx, c, r) && now.pool.rows == Finding(r).rows && now.pool.containers == Finding(r).containers
    requires now.pool.created == [] && now.stopped == [] && now.halted == Some(Halt(r, true))
    ensures RunKept(ctx, Finding(r), now)
  {
    assert Ids([]) == [];
  }

  lemma {:induction false} HaltedUndone(ctx: Context, undo: Undo, r: Row, now: Run)
    requires undo == Undo(NothingAsked.(stops := [r.id]), 0, 0, 0, {}) && now.pool == Finding(r).(asked := undo.before)
    requires now.stopped == [] && now.halted == Some(Halt(r, true))
    requires now.retiring == [] && now.retired == NoneRetired
    ensures Undone(undo, true, 0, now.pool, []) && AskedAt(NothingAsked, undo.before, now)
    ensures PoolPreserved(Finding(r), now.pool, [])
  {
    assert Ids([]) == [] && [r.id] == [] + Ids([]) + HaltedIds(Some(Halt(r, true))) + [];
  }

  // ---- a removed instance that is still served ----

  /** One component with one slot and no job, and two services of it; the second one needs a port. */
  ghost predicate TwoServices(ctx: Context, c: Component) {
    && Proper(ctx) && ctx.order == [c.name] && InGraph(ctx, c) && |c.slots| == 1 && ctx.jobs == map[] && !ctx.commits
    && |ctx.services| == 2 && ctx.services[0].component == c.name && ctx.services[1].component == c.name
    && NeedsPort(ctx.services[1]) && !ctx.services[0].hostNetwork
  }

  function Untried(): Pool {
    Pool(map[], {}, [], {}, NothingAsked, [])
  }

  /** The row of the instance that is created for the slot. */
  function NewRow(c: Component, id: string): Row
    requires |c.slots| == 1
  {
    Row(id, c.name, c.slots[0], c.release, c.configuration, None, Ready)
  }

  /** The instance has been created and has passed its gate. */
  function Filling(c: Component, id: string): Pool
    requires |c.slots| == 1
  {
    Pool(map[id := NewRow(c, id)], {id}, [NewRow(c, id)], {},
         NothingAsked.(starts := [id], creations := [Creation(id, 0)]), [Started(id, true)] + Gate(c, id))
  }

  /** The slot has no candidate, so that an instance is created: this is what its creation leaves. */
  lemma {:induction false} FillingIs(ctx: Context, c: Component, id: string)
    requires TwoServices(ctx, c)
    ensures CandidatesOf(ctx, c, c.slots[0], Existing(Listed(map[]), c.name)) == []
    ensures SlotStep(Untried(), Filling(c, id), c, c.slots[0], true, NewRow(c, id))
    ensures SlotGate(ctx, Untried(), Filling(c, id), c.name, c.slots[0], true, NewRow(c, id))
  {
    SortedMembers({});
    EmptyOrHead(Sorted({}));
    assert Listed(map[]) == [];
    var p, r := Filling(c, id), NewRow(c, id);
    assert p.created[0] == r && HasId(p.created, 0, id) && IsNew(Untried(), p, id);
    NewGate(ctx, Untried(), p, c, c.slots[0], r);
  }

  lemma {:induction false} NoJobs(ctx: Context, jobs: Jobs.Store, current: seq<Row>)
    requires ctx.jobs == map[]
    ensures JobsFor(ctx, jobs, current) == [] && !WriterMissing(ctx)
  {
    Jobs.OrderedMembers(ctx.jobs, ctx.order);
    EmptyOrHead(Jobs.OrderedJobs(ctx.jobs, ctx.order));
  }

  /** What is heard of the instance during the publication. */
  function Looked(ctx: Context, id: string): seq<Check>
    requires |ctx.services| >= 2
  {
    [Inspected(id, true, true), Bound(id, ctx.services[0].id, true), Inspected(id, true, true),
     Bound(id, ctx.services[1].id, false)]
  }

  /** After the publication of the first service, for which the container is inspected, it is inspected for the second
      one and has no port. The run is given up, and the catch block removes the instance. */
  ghost predicate GivenUpServing(ctx: Context, c: Component, id: string, undo: Undo, now: Run)
    requires |c.slots| == 1 && |ctx.services| >= 2
  {
    var made := Filling(c, id);
    && now.pool == made.(rows := map[id := NewRow(c, id).(status := Failed)], containers := {},
                         asked := made.asked.(removals := [id]),
                         checks := made.checks + Looked(ctx, id))
    && now.endpoints == Published(map[], ctx.services, 1, [NewRow(c, id)]) && now.stopped == [] && now.halted == None
    && now.retiring == [] && now.retired == NoneRetired && now.admission == Admission(false, false, false)
    && undo == Undo(made.asked, |now.pool.checks|, 1, 0, {})
  }

  /** The instance is failed and sent for removal, and stays the endpoint of the first service. */
  lemma {:induction false} RemovedYetServed(ctx: Context, c: Component, id: string, jobs: Jobs.Store)
    returns (undo: Undo, now: Run)
    requires TwoServices(ctx, c)
    ensures GivenUpServing(ctx, c, id, undo, now)
    ensures JobsFor(ctx, jobs, [NewRow(c, id)]) == [] && !WriterMissing(ctx)
    ensures Promised(ctx, GaveUp(Publishing(1), true), undo, 0, [NewRow(c, id)], Untried(), map[], now, jobs)
    ensures IsFailed(now.pool.rows, id) && id !in now.pool.containers
    ensures ctx.services[0].id in now.endpoints
         && now.endpoints[ctx.services[0].id] == [Endpoint(id, c.release, c.configuration)]
  {
    NoJobs(ctx, jobs, [NewRow(c, id)]);
    var made, r := Filling(c, id), NewRow(c, id);
    var heard := made.checks + Looked(ctx, id);
    var pool := made.(rows := map[id := r.(status := Failed)], containers := {},
                      asked := made.asked.(removals := [id]), checks := heard);
    undo := Undo(made.asked, |heard|, 1, 0, {});
    now := Run(pool, Published(map[], ctx.services, 1, [r]), [], None, Admission(false, false, false), [],
               NoneRetired);
    GivenUpIsKept(ctx, c, id, undo, now);
    GivenUpServes(ctx, c, id, undo, now);
    GivenUpUndone(ctx, c, id, undo, now);
    PromisedFailure(ctx, Publishing(1), true, undo, 0, [r], Untried(), map[], now, jobs);
    EndpointIs(ctx, c, id);
  }

  lemma {:induction false} EndpointIs(ctx: Context, c: Component, id: string)
    requires TwoServices(ctx, c)
    ensures Published(map[], ctx.services, 1, [NewRow(c, id)])
         == map[ctx.services[0].id := [Endpoint(id, c.release, c.configuration)]]
  {
    var r := NewRow(c, id);
    assert [r][1..] == [] && OfComponent([r], c.name) == [r];
    assert EndpointsFor([r]) == [Endpoint(id, c.release, c.configuration)];
    assert Published(map[], ctx.services, 0, [r]) == map[];
  }

  lemma {:induction false} GivenUpVouched(ctx: Context, c: Component, id: string, undo: Undo, now: Run)
    requires TwoServices(ctx, c) && GivenUpServing(ctx, c, id, undo, now)
    ensures Vouched(ctx, Untried(), now.pool, NewRow(c, id)) && HasId(now.pool.created, 0, id)
  {
    FillingIs(ctx, c, id);
    PassedInspected(Filling(c, id).checks, now.pool.checks, 0, c, id);
    assert now.pool.created[0].id == id;
  }

  lemma {:induction false} GivenUpIsKept(ctx: Context, c: Component, id: string, undo: Undo, now: Run)
    requires TwoServices(ctx, c) && GivenUpServing(ctx, c, id, undo, now)
    ensures RunKept(ctx, Untried(), now)
  {
    GivenUpVouched(ctx, c, id, undo, now);
  }

  lemma {:induction false} GivenUpServes(ctx: Context, c: Component, id: string, undo: Undo, now: Run)
    requires TwoServices(ctx, c) && GivenUpServing(ctx, c, id, undo, now)
    ensures FailedServing(ctx, Publishing(1), Untried(), [NewRow(c, id)], map[], now)
  {
    var selected := [NewRow(c, id)];
    GivenUpVouched(ctx, c, id, undo, now);
    OneFills(ctx, c, selected);
  }

  lemma {:induction false} OneFills(ctx: Context, c: Component, selected: seq<Row>)
    requires TwoServices(ctx, c) && |selected| == 1 && Fits(c, selected[0]) && selected[0].slot == c.slots[0]
    ensures FillsOrder(ctx, |ctx.order|, selected)
  {
    var none := selected[..0];
    assert FillsOrder(ctx, 0, none) && selected[|selected| - |c.slots|..] == selected;
  }

  lemma {:induction false} GivenUpUndone(ctx: Context, c: Component, id: string, undo: Undo, now: Run)
    requires TwoServices(ctx, c) && GivenUpServing(ctx, c, id, undo, now)
    ensures Undone(undo, true, 0, now.pool, now.stopped) && AskedAt(NothingAsked, undo.before, now)
    ensures PoolPreserved(Untried(), now.pool, [])
  {
    var created := now.pool.created;
    assert created[..1] == created && Ids(created) == [id] && Ids([]) == [];
    assert HasId(created, 0, id);
  }
}
