/** The graph executor: convergence of a component graph, and its compensation on failure.

    Docker and the store are fields of the executor. Every call to them may fail, unless `reliable` says
    that for the time being none does and every container is healthy.
 */
module GraphExecutor {
  import opened Options
  import opened Lists
  import opened StringOrder
  import opened GraphModel
  import opened GraphGates
  import opened GraphRetirement
  import opened GraphRecovery
  import opened GraphSteps
  import Jobs

  class Executor {
    // the store
    var rows: Rows
    var endpoints: Endpoints
    var records: seq<Jobs.Record>

    // Docker
    var containers: set<string>
    var reliable: bool

    // the callbacks of the external admission that a run has made
    var admission: Admission

    // the lists that one run shares between its steps
    var created: seq<Row>
    var stoppedForExclusive: seq<Row>

    /** The ids of instances that failed before they were counted as created. */
    ghost var leftover: set<string>

    /** The instance at which the stopping of a run ended early. */
    ghost var halted: Option<Halt>

    /** What Docker has been asked for and what it has said, and the keys of the jobs that have succeeded. */
    ghost var asked: Asked
    ghost var checks: seq<Check>
    ghost var succeeded: seq<Jobs.Key>

    /** The instances that a run is to retire, and how far it has come. */
    ghost var retiring: seq<Row>
    ghost var retired: Retired

    /** How many patches of an instance the store has refused; a catch block counts from its beginning. */
    ghost var refusals: nat

    // ---- Docker ----

    method StopContainer(name: string) returns (ok: bool)
      modifies this`asked
      ensures asked == old(asked).(stops := old(asked.stops) + [name]) && (reliable ==> ok)
    {
      asked := asked.(stops := asked.stops + [name]);
      ok := *;
      ok := ok || reliable;
    }

    method StartContainer(name: string) returns (ok: bool)
      modifies this`asked, this`checks
      ensures asked == old(asked).(starts := old(asked.starts) + [name]) && (reliable ==> ok)
      ensures checks == old(checks) + [Started(name, ok)]
    {
      asked := asked.(starts := asked.starts + [name]);
      ok := *;
      ok := ok || reliable;
      checks := checks + [Started(name, ok)];
    }

    method RemoveContainer(name: string) returns (ok: bool)
      modifies this`asked, this`containers
      ensures asked == old(asked).(removals := old(asked.removals) + [name]) && (reliable ==> ok)
      ensures containers == if ok then old(containers) - {name} else old(containers)
    {
      asked := asked.(removals := asked.removals + [name]);
      ok := *;
      ok := ok || reliable;
      if ok { containers := containers - {name}; }
    }

    method InspectContainer(name: string) returns (ok: bool, exists_: bool, running: bool)
      modifies this`checks
      ensures exists_ == (name in containers) && (running ==> exists_) && (reliable ==> ok && running == exists_)
      ensures checks == old(checks) + if ok then [Inspected(name, exists_, running)] else []
    {
      ok, running := *, *;
      exists_ := name in containers;
      ok, running := ok || reliable, exists_ && (running || reliable);
      if ok { checks := checks + [Inspected(name, exists_, running)]; }
    }

    method WaitHealthy(name: string) returns (ok: bool, healthy: bool)
      modifies this`checks
      ensures checks == old(checks) + [Probed(name, ok && healthy)] && (reliable ==> ok && healthy)
    {
      ok, healthy := *, *;
      ok, healthy := ok || reliable, healthy || reliable;
      checks := checks + [Probed(name, ok && healthy)];
    }

    /** Docker refuses a name that is in use. */
    method CreateContainer(name: string) returns (ok: bool)
      modifies this`containers, this`asked
      ensures asked == old(asked).(creations := old(asked.creations) + [Creation(name, |old(asked.stops)|)])
      ensures ok ==> name !in old(containers) && containers == old(containers) + {name}
      ensures !ok ==> containers == old(containers)
    {
      asked := asked.(creations := asked.creations + [Creation(name, |asked.stops|)]);
      ok := *;
      ok := (ok || reliable) && name !in containers;
      if ok { containers := containers + {name}; }
    }

    method Exec(name: string, command: Command) returns (ok: bool)
      modifies this`checks
      ensures checks == old(checks) + [Ran(name, command, ok)] && (reliable ==> ok)
    {
      ok := *;
      ok := ok || reliable;
      checks := checks + [Ran(name, command, ok)];
    }

    // ---- the store ----

    method PatchInstance(id: string, status: Status) returns (ok: bool)
      modifies this`rows, this`refusals
      ensures reliable ==> ok
      ensures rows == if ok && id in old(rows) then old(rows)[id := old(rows)[id].(status := status)] else old(rows)
      ensures refusals == old(refusals) + if ok then 0 else 1
    {
      ok := *;
      ok := ok || reliable;
      if ok && id in rows { rows := rows[id := rows[id].(status := status)]; }
      if !ok { refusals := refusals + 1; }
    }

    method PutInstance(row: Row) returns (ok: bool)
      modifies this`rows
      ensures reliable ==> ok
      ensures rows == if ok then old(rows)[row.id := row] else old(rows)
    {
      ok := *;
      ok := ok || reliable;
      if ok { rows := rows[row.id := row]; }
    }

    // ---- one component ----

    /** Stop the stale instances of a component that is replaced exclusively: the first `n` are stopped, patched
        and recorded. The next one, if there is one, was asked to stop and is not recorded: its stop failed or,
        when it is `down`, its patch. */
    method StopStale(stale: seq<Row>) returns (ok: bool, ghost n: nat, ghost down: bool)
      requires halted == None
      modifies this`rows, this`asked, this`stoppedForExclusive, this`halted, this`refusals
      ensures n <= |stale| && (ok <==> n == |stale|) && (reliable ==> ok)
      ensures rows == StopRows(old(rows), stale, n)
      ensures stoppedForExclusive == old(stoppedForExclusive) + stale[..n] && halted == HaltAt(stale, n, down)
      ensures asked == old(asked).(stops := old(asked.stops) + Ids(stale[..n]) + HaltedIds(halted))
      ensures refusals == old(refusals) + if halted.Some? && down then 1 else 0
    {
      n, down := 0, false;
      for i := 0 to |stale|
        invariant n == i && !down && halted == None && refusals == old(refusals)
        invariant rows == StopRows(old(rows), stale, i)
        invariant stoppedForExclusive == old(stoppedForExclusive) + stale[..i]
        invariant asked == old(asked).(stops := old(asked.stops) + Ids(stale[..i]))
      {
        IdsNext(stale, i);
        ok := StopContainer(stale[i].id);
        if !ok {
          halted := Some(Halt(stale[i], false));
          return;
        }
        ok := PatchInstance(stale[i].id, Stopped);
        if !ok {
          halted, down := Some(Halt(stale[i], true)), true;
          return;
        }
        stoppedForExclusive, n := stoppedForExclusive + [stale[i]], i + 1;
      }
      ok := true;
    }

    // ---- one instance ----

    /** The commands of the component's profile, if it has any. */
    method EnsureComponentProvisioned(c: Component, name: string) returns (ok: bool)
      modifies this`checks
      ensures HeardOnly(old(checks), checks, name) && (reliable ==> ok)
      ensures ok ==> checks == old(checks) + Provisioned(c, name)
    {
      ok := true;
      if c.provisions {
        ok := Exec(name, Provision);
        if ok { ok := Exec(name, Verify); }
      }
    }

    /** One candidate of a slot. `found` when it passes its gate and is selected; when it does not, its container
        is gone or its probe failed, and nothing or only its own row has changed. */
    method TryCandidate(c: Component, r: Row) returns (ok: bool, found: bool, selected: Row)
      requires ProperRows(rows) && r.id in rows && SameBut(rows[r.id], r)
      modifies this`rows, this`asked, this`refusals, this`checks
      ensures RowChanged(old(rows), rows, r.id) && SameBut(rows[r.id], r)
      ensures ok && found ==>
              selected == r.(status := Ready) && rows == old(rows)[r.id := selected] && r.id in containers
      ensures ok && found ==> CandidatePasses(old(checks), checks, c, r.id)
      ensures ok && !found ==> CandidateRejected(old(checks), checks, r.id)
      ensures HeardOnly(old(checks), checks, r.id)
      ensures r.id in containers && rows[r.id].status == Removed ==> rows == old(rows)
      ensures asked == old(asked).(starts := asked.starts) && old(asked.starts) <= asked.starts
      ensures r.id in containers && old(rows)[r.id].status == Ready ==> rows == old(rows)
      ensures reliable && r.id in containers ==> ok && found && asked == old(asked)
    {
      selected, found := r, false;
      var present, running;
      ok, present, running := InspectContainer(r.id);
      if !ok { return; }
      if !present {
        ok := PatchInstance(r.id, Removed);
        return;
      }
      if !running {
        ok := StartContainer(r.id);
        if !ok { return; }
      }
      var healthy;
      ok, healthy := WaitHealthy(r.id);
      if !ok || !healthy { return; }
      ok := EnsureComponentProvisioned(c, r.id);
      if !ok { return; }
      ok := PatchInstance(r.id, Ready);
      found, selected := true, r.(status := Ready);
    }

    /** The health gate of a new instance. */
    method AdmitInstance(c: Component, row: Row) returns (ok: bool, admitted: Row)
      requires row.id in rows && rows[row.id] == row && row.status == Starting
      modifies this`rows, this`asked, this`refusals, this`checks
      ensures RowChanged(old(rows), rows, row.id) && SameBut(rows[row.id], row) && rows[row.id].status != Removed
      ensures admitted == row.(status := admitted.status)
      ensures ok ==> admitted.status == Ready && rows == old(rows)[row.id := admitted]
      ensures ok ==> checks == old(checks) + [Started(row.id, true)] + Gate(c, row.id)
      ensures HeardOnly(old(checks), checks, row.id)
      ensures asked == old(asked).(starts := old(asked.starts) + [row.id])
    {
      admitted := row;
      ok := StartContainer(row.id);
      if !ok { return; }
      var healthy;
      ok, healthy := WaitHealthy(row.id);
      if !ok { return; }
      if !healthy {
        ok := PatchInstance(row.id, Failed);
        return false, row;
      }
      ok := EnsureComponentProvisioned(c, row.id);
      if !ok { return; }
      ok := PatchInstance(row.id, Ready);
      if ok { admitted := row.(status := Ready); }
    }

    /** Create the container of a new instance and enter its row. */
    method PlaceInstance(row: Row) returns (ok: bool)
      requires row.id !in rows && row.id !in containers
      modifies this`rows, this`containers, this`asked
      ensures old(containers) <= containers <= old(containers) + {row.id}
      ensures if ok then rows == old(rows)[row.id := row] && row.id in containers else rows == old(rows)
      ensures asked == old(asked).(creations := old(asked.creations) + [Creation(row.id, |old(asked.stops)|)])
    {
      ok := CreateContainer(row.id);
      if ok { ok := PutInstance(row); }
    }

    /** A new instance, up to its health gate. When this fails, its row and its container are all that it may have
        left behind. */
    method CreateInstance(c: Component, slot: string, replacementFor: Option<string>) returns (ok: bool, row: Row)
      modifies this`rows, this`containers, this`asked, this`refusals, this`checks
      ensures row.id !in old(rows) && row.id !in old(containers)
      ensures old(containers) <= containers <= old(containers) + {row.id}
      ensures row.id !in rows ==> rows == old(rows) && checks == old(checks)
      ensures row.id in rows ==>
              RowChanged(old(rows), rows, row.id) && SameBut(rows[row.id], row) && rows[row.id].status != Removed
      ensures row == Row(row.id, c.name, slot, c.release, c.configuration, replacementFor, row.status)
      ensures ok ==> row.status == Ready && rows == old(rows)[row.id := row] && row.id in containers
      ensures ok ==> checks == old(checks) + [Started(row.id, true)] + Gate(c, row.id)
      ensures HeardOnly(old(checks), checks, row.id) && AskedMore(old(asked), asked)
      ensures asked.creations == old(asked.creations) + [Creation(row.id, |old(asked.stops)|)]
    {
      row := Row(FreshId(rows.Keys + containers), c.name, slot, c.release, c.configuration, replacementFor, Starting);
      ok := PlaceInstance(row);
      ghost var placed := rows;
      OneCreated(old(asked), asked, row.id);
      if !ok { return; }
      ok, row := AdmitInstance(c, row);
      OneCreated(old(asked), asked, row.id);
      AddThenChange(old(rows), placed, rows, row.id);
    }

    ghost function Shared(): Pool
      reads this`rows, this`containers, this`created, this`leftover, this`asked, this`checks
    {
      Pool(rows, containers, created, leftover, asked, checks)
    }

    /** Everything that the steps of one run share, but for what they have heard. */
    ghost function Everything(): (Pool, seq<Row>, Option<Halt>)
      reads this`rows, this`containers, this`created, this`leftover, this`asked, this`stoppedForExclusive, this`halted
    {
      (Pool(rows, containers, created, leftover, asked, []), stoppedForExclusive, halted)
    }

    /** Create an instance for a slot and count it as created. */
    method FillSlot(ctx: Context, c: Component, slot: string, replacementFor: Option<string>)
      returns (ok: bool, ready: Row)
      requires slot in c.slots && InGraph(ctx, c)
      modifies this`rows, this`containers, this`asked, this`created, this`leftover, this`refusals, this`checks
      ensures SlotStep(old(Shared()), Shared(), c, slot, ok, ready)
      ensures SlotGate(ctx, old(Shared()), Shared(), c.name, slot, ok, ready)
      ensures RemovedKept(old(Shared()), Shared())
      ensures if ok then ready.id !in old(rows) && created == old(created) + [ready] else created == old(created)
      ensures ready.replacementFor == replacementFor
    {
      ok, ready := CreateInstance(c, slot, replacementFor);
      if ok {
        created := created + [ready];
        assert created[|old(created)|] == ready && HasId(created, |old(created)|, ready.id);
        NewGate(ctx, old(Shared()), Shared(), c, slot, ready);
      } else {
        leftover := leftover + {ready.id};
      }
      HeardOnlyAt(old(Shared()), Shared(), c.name, slot, ready.id);
      NewKeepsGone(old(Shared()), Shared(), ready.id);
    }

    /** One more candidate of a slot. */
    method TryNext(ghost start: Pool, ctx: Context, c: Component, slot: string, candidates: seq<Row>, i: nat)
      returns (ok: bool, found: bool, ready: Row)
      requires slot in c.slots && InGraph(ctx, c) && DistinctRows(candidates) && i < |candidates|
      requires forall r :: r in candidates ==> CandidateRow(ctx, start.rows, c, slot, r)
      requires Tried(start, Shared(), c, slot, candidates[..i])
      modifies this`rows, this`asked, this`refusals, this`checks
      ensures Looked(start, Shared(), c, slot) && HeardAt(start, Shared(), c.name, [slot])
      ensures ok && found ==> Selected(Shared(), c, slot, ready) && Vouched(ctx, start, Shared(), ready)
      ensures ok && !found ==> Tried(start, Shared(), c, slot, candidates[..i + 1])
      ensures reliable && i == 0 && IsReadyFirst(old(rows), containers, candidates)
          ==> ok && found && Everything() == old(Everything())
    {
      assert candidates[i] in candidates && CandidateRow(ctx, start.rows, c, slot, candidates[i]);
      ok, found, ready := TryCandidate(c, candidates[i]);
      TriedMore(start, old(Shared()), Shared(), ctx, c, slot, candidates, i);
      if ok && found {
        assert old(rows)[candidates[i].id] == ready ==> rows == old(rows);
        PickedGate(ctx, start, old(Shared()), Shared(), c, slot, candidates, i, ready);
      } else if ok {
        TriedRejected(start, old(Shared()), Shared(), c, slot, candidates, i);
      }
    }

    /** The first candidate of a slot that passes its gate. */
    method PickCandidate(ctx: Context, c: Component, slot: string, candidates: seq<Row>)
      returns (ok: bool, found: bool, ready: Row)
      requires slot in c.slots && ProperRows(rows) && InGraph(ctx, c) && DistinctRows(candidates)
      requires forall r :: r in candidates ==> CandidateRow(ctx, rows, c, slot, r)
      modifies this`rows, this`asked, this`refusals, this`checks
      ensures Looked(old(Shared()), Shared(), c, slot) && HeardAt(old(Shared()), Shared(), c.name, [slot])
      ensures ok && found ==> Selected(Shared(), c, slot, ready) && Vouched(ctx, old(Shared()), Shared(), ready)
      ensures ok && !found ==> AllRejected(checks, |old(checks)|, candidates)
      ensures reliable && IsReadyFirst(old(rows), containers, candidates)
          ==> ok && found && Everything() == old(Everything())
    {
      ok, found, ready := true, false, Row("", "", "", "", "", None, Removed);
      for i := 0 to |candidates|
        invariant ok && !found && Tried(old(Shared()), Shared(), c, slot, candidates[..i])
        invariant i == 0 ==> Shared() == old(Shared())
        invariant i > 0 ==> !(reliable && IsReadyFirst(old(rows), containers, candidates))
      {
        ok, found, ready := TryNext(old(Shared()), ctx, c, slot, candidates, i);
        if !ok || found { return; }
      }
      assert candidates[..|candidates|] == candidates;
      HeardInSlot(old(Shared()), Shared(), ctx, c, slot, candidates);
    }

    /** One slot: the first candidate that passes its gate, or a new instance when every candidate is rejected. */
    method ConvergeSlot(ctx: Context, c: Component, slot: string, candidates: seq<Row>, replacementFor: Option<string>)
      returns (ok: bool, ready: Row)
      requires slot in c.slots && ProperRows(rows) && InGraph(ctx, c) && DistinctRows(candidates)
      requires forall r :: r in candidates ==> CandidateRow(ctx, rows, c, slot, r)
      modifies this`rows, this`containers, this`asked, this`created, this`leftover, this`refusals, this`checks
      ensures SlotStep(old(Shared()), Shared(), c, slot, ok, ready)
      ensures SlotGate(ctx, old(Shared()), Shared(), c.name, slot, ok, ready)
      ensures asked.creations != old(asked.creations) ==> AllRejected(checks, |old(checks)|, candidates)
      ensures old(created) <= created && ReplacementsFor(created, |old(created)|, replacementFor)
      ensures RemovedKept(old(Shared()), Shared()) && (!ok ==> created == old(created))
      ensures reliable && IsReadyFirst(old(rows), old(containers), candidates) ==>
              ok && Everything() == old(Everything())
    {
      var found;
      ok, found, ready := PickCandidate(ctx, c, slot, candidates);
      if !ok || found { return; }
      ghost var middle := Shared();
      ok, ready := FillSlot(ctx, c, slot, replacementFor);
      SlotStepThen(old(Shared()), middle, Shared(), c, slot, ok, ready);
      SlotGateThen(ctx, old(Shared()), middle, Shared(), c.name, slot, ok, ready);
      RejectedStill(middle.checks, checks, |old(checks)|, candidates);
    }

    /** One more slot of a component. */
    method ConvergeNextSlot(ghost start: Pool, ctx: Context, c: Component, existing: seq<Row>,
                            replacementFor: Option<string>, i: nat, selected: seq<Row>)
      returns (ok: bool, more: seq<Row>)
      requires i < |c.slots| && NoRepeat(c.slots) && ProperRows(rows) && StillThere(rows, existing, c.name)
      requires InGraph(ctx, c) && DistinctRows(existing)
      requires ComponentStep(start, Shared(), c, c.slots[..i], selected)
      requires SlotGates(ctx, start, Shared(), c.name, c.slots[..i], selected)
      modifies this`rows, this`containers, this`asked, this`created, this`leftover, this`refusals, this`checks
      ensures if ok then ComponentStep(start, Shared(), c, c.slots[..i + 1], more) else Framed(start, Shared(), c)
      ensures if ok then SlotGates(ctx, start, Shared(), c.name, c.slots[..i + 1], more)
              else GatesLeft(ctx, start, Shared(), c.name, c.slots)
      ensures SlotsKeep(old(Shared()), Shared())
      ensures old(created) <= created && ReplacementsFor(created, |old(created)|, replacementFor)
      ensures reliable && Idle(ctx, c, old(rows), old(containers), existing) ==> ok && Everything() == old(Everything())
    {
      var slot := c.slots[i];
      assert slot in c.slots;
      var candidates := CandidatesOf(ctx, c, slot, existing);
      CandidateRows(ctx, c, slot, rows, existing);
      CandidatesDistinct(ctx, c, slot, existing);
      if Idle(ctx, c, rows, containers, existing) { SettledCandidate(ctx, c, rows, containers, slot); }
      ghost var before := Shared();
      var ready;
      ok, ready := ConvergeSlot(ctx, c, slot, candidates, replacementFor);
      more := selected + [ready];
      if ok {
        NextSlot(start, before, Shared(), c, i, selected, ready);
        NextSlotGate(ctx, start, before, Shared(), c, i, selected, ready);
      } else {
        FailedSlot(start, before, Shared(), c, slot);
        FailedSlotGate(ctx, start, before, Shared(), c, i, selected);
      }
    }

    /** The component's slots, one after the other. */
    method ConvergeSlots(ghost start: Pool, ctx: Context, c: Component, existing: seq<Row>,
                         replacementFor: Option<string>)
      returns (ok: bool, selected: seq<Row>)
      requires NoRepeat(c.slots) && ProperRows(start.rows) && StillThere(rows, existing, c.name)
      requires InGraph(ctx, c) && DistinctRows(existing)
      requires Framed(start, Shared(), c) && leftover == start.leftover && created == start.created
      requires checks == start.checks
      modifies this`rows, this`containers, this`asked, this`created, this`leftover, this`refusals, this`checks
      ensures if ok then ComponentStep(start, Shared(), c, c.slots, selected) else Framed(start, Shared(), c)
      ensures if ok then SlotGates(ctx, start, Shared(), c.name, c.slots, selected)
              else GatesLeft(ctx, start, Shared(), c.name, c.slots)
      ensures SlotsKeep(old(Shared()), Shared())
      ensures old(created) <= created && ReplacementsFor(created, |old(created)|, replacementFor)
      ensures reliable && Idle(ctx, c, old(rows), old(containers), existing) ==> ok && Everything() == old(Everything())
    {
      selected, ok := [], true;
      for i := 0 to |c.slots|
        invariant ok && ComponentStep(start, Shared(), c, c.slots[..i], selected)
        invariant SlotGates(ctx, start, Shared(), c.name, c.slots[..i], selected)
        invariant StillThere(rows, existing, c.name) && SlotsKeep(old(Shared()), Shared())
        invariant old(created) <= created && ReplacementsFor(created, |old(created)|, replacementFor)
        invariant reliable && Idle(ctx, c, old(rows), old(containers), existing) ==> Everything() == old(Everything())
      {
        ghost var before := Shared();
        ok, selected := ConvergeNextSlot(start, ctx, c, existing, replacementFor, i, selected);
        SlotsKeepThen(old(Shared()), before, Shared());
        if !ok { return; }
      }
      assert c.slots[..|c.slots|] == c.slots;
    }

    /** Before an exclusive replacement every stale instance is stopped; any other stops nothing. */
    method MakeWay(ctx: Context, c: Component, stale: seq<Row>) returns (ok: bool)
      requires ProperRows(rows) && AreRows(rows, stale, c.name) && DistinctRows(stale) && halted == None
      requires InGraph(ctx, c) && AreStale(ctx, c, stale)
      modifies this`rows, this`asked, this`stoppedForExclusive, this`halted, this`refusals
      ensures Framed(old(Shared()), Shared(), c) && RemovedKept(old(Shared()), Shared())
      ensures ComponentStops(ctx, old(Shared()), Shared(), c.name, old(stoppedForExclusive), stoppedForExclusive,
                             halted)
      ensures asked == old(asked).(stops := asked.stops) && (ok ==> halted == None)
      ensures stale == [] || !ReplacesExclusively(c) ==> ok && Everything() == old(Everything())
      ensures ok && ReplacesExclusively(c) ==> AllStopped(stale, asked.stops, stoppedForExclusive)
    {
      ok := true;
      ghost var n, down := |stale|, false;
      assert stoppedForExclusive[|stoppedForExclusive|..] == [];
      if (c.exclusive || !c.rolling) && stale != [] {
        ok := *;            // assertProfileVersionTransitionCompatible
        if c.exclusive && !ok { return; }
        ok, n, down := StopStale(stale);
        WayMade(ctx, old(Shared()), Shared(), c, stale, n, down, old(stoppedForExclusive), stoppedForExclusive);
      }
    }

    /** The component's live instances, with the outdated ones out of the way. */
    method OpenComponent(ctx: Context, c: Component)
      returns (ok: bool, existing: seq<Row>, replacementFor: Option<string>)
      requires ProperRows(rows) && halted == None && InGraph(ctx, c)
      modifies this`rows, this`asked, this`stoppedForExclusive, this`halted, this`refusals
      ensures Framed(old(Shared()), Shared(), c) && StillThere(rows, existing, c.name) && DistinctRows(existing)
      ensures ComponentStops(ctx, old(Shared()), Shared(), c.name, old(stoppedForExclusive), stoppedForExclusive,
                             halted)
      ensures asked == old(asked).(stops := asked.stops) && (ok ==> halted == None)
      ensures existing == Existing(Listed(old(rows)), c.name) && RemovedKept(old(Shared()), Shared())
      ensures replacementFor == FirstId(StaleOf(ctx, c, existing))
      ensures Settled(ctx, c, old(rows), containers) || !ReplacesExclusively(c)
          ==> ok && Everything() == old(Everything())
      ensures ok && ReplacesExclusively(c) ==> StaleStopped(ctx, c, old(rows), asked.stops, stoppedForExclusive)
    {
      existing := Existing(Listed(rows), c.name);
      var stale := StaleOf(ctx, c, existing);
      replacementFor := FirstId(stale);
      ExistingRows(ctx, c, rows);
      if Settled(ctx, c, rows, containers) { SettledNoStale(ctx, c, rows, containers); }
      ok := MakeWay(ctx, c, stale);
      StoppedAreStale(ctx, c, old(rows), asked.stops, stoppedForExclusive);
      AreStillThere(old(rows), rows, existing, c.name);
    }

    /** The slots, when the outdated instances are out of the way. */
    method FillOpened(ghost start: Pool, ghost before: seq<Row>, ctx: Context, c: Component, existing: seq<Row>,
                      replacementFor: Option<string>)
      returns (ok: bool, selected: seq<Row>)
      requires NoRepeat(c.slots) && ProperRows(start.rows) && StillThere(rows, existing, c.name)
      requires InGraph(ctx, c) && DistinctRows(existing)
      requires Framed(start, Shared(), c) && leftover == start.leftover && created == start.created
      requires checks == start.checks && RemovedKept(start, Shared())
      requires ComponentStops(ctx, start, Shared(), c.name, before, stoppedForExclusive, None)
      requires asked == start.asked.(stops := asked.stops)
      modifies this`rows, this`containers, this`asked, this`created, this`leftover, this`refusals, this`checks
      ensures ComponentRun(ctx, start, Shared(), c, ok, selected) && asked.stops == old(asked.stops)
      ensures CreatedLast(start.asked, asked) && asked.jobs == start.asked.jobs
      ensures old(created) <= created && ReplacementsFor(created, |old(created)|, replacementFor)
      ensures ComponentStops(ctx, start, Shared(), c.name, before, stoppedForExclusive, None)
      ensures reliable && Idle(ctx, c, old(rows), old(containers), existing) ==> ok && Everything() == old(Everything())
    {
      ok, selected := ConvergeSlots(start, ctx, c, existing, replacementFor);
      StopsThenSlots(ctx, start, old(Shared()), Shared(), c.name, before, stoppedForExclusive);
      CreatedAfterStops(start.asked, old(asked), asked, before, stoppedForExclusive);
    }

    /** `convergeComponent`: the instances that it selects, one for each slot. Where it replaces exclusively no
        container is created before all outdated instances have been stopped and recorded; otherwise nothing is
        stopped. */
    method ConvergeComponent(ctx: Context, c: Component) returns (ok: bool, selected: seq<Row>)
      requires NoRepeat(c.slots) && ProperRows(rows) && halted == None && InGraph(ctx, c)
      modifies this`rows, this`containers, this`asked, this`created, this`leftover, this`stoppedForExclusive,
               this`halted, this`refusals, this`checks
      ensures ComponentRun(ctx, old(Shared()), Shared(), c, ok, selected)
      ensures ComponentStops(ctx, old(Shared()), Shared(), c.name, old(stoppedForExclusive), stoppedForExclusive,
                             halted)
      ensures ok ==> halted == None
      ensures reliable && Settled(ctx, c, old(rows), old(containers)) ==> ok && Everything() == old(Everything())
      ensures (ok || asked.creations != old(asked.creations)) && ReplacesExclusively(c)
          ==> StaleStopped(ctx, c, old(rows), asked.stops, stoppedForExclusive)
      ensures CreatedLast(old(asked), asked) && asked.jobs == old(asked.jobs)
      ensures old(created) <= created
      ensures ReplacementsFor(created, |old(created)|, FirstId(StaleOf(ctx, c, Existing(Listed(old(rows)), c.name))))
    {
      selected := [];
      var existing, replacementFor;
      ok, existing, replacementFor := OpenComponent(ctx, c);
      if ok {
        ok, selected := FillOpened(old(Shared()), old(stoppedForExclusive), ctx, c, existing, replacementFor);
      } else {
        ComponentFailed(ctx, old(Shared()), Shared(), c, selected);
      }
    }

    /** One more component of the order. */
    method ConvergeNext(ghost start: Pool, ctx: Context, k: nat, current: seq<Row>) returns (ok: bool, more: seq<Row>)
      requires Proper(ctx) && k < |ctx.order| && ProperRows(start.rows) && halted == None
      requires ComponentsRun(ctx, start, Shared(), k, current, stoppedForExclusive)
      modifies this`rows, this`containers, this`asked, this`created, this`leftover, this`stoppedForExclusive,
               this`halted, this`refusals, this`checks
      ensures ok ==> halted == None && ComponentsRun(ctx, start, Shared(), k + 1, more, stoppedForExclusive)
      ensures !ok ==> ComponentsLeft(ctx, start, Shared(), stoppedForExclusive, halted)
      ensures reliable && AllSettled(ctx, old(rows), old(containers)) ==> ok && Everything() == old(Everything())
    {
      var c := ctx.components[ctx.order[k]];
      assert ctx.order[k] in ctx.order;
      var selected;
      ok, selected := ConvergeComponent(ctx, c);
      more := current + selected;
      if ok {
        ComponentsMore(ctx, start, old(Shared()), Shared(), k, current, selected, old(stoppedForExclusive),
                       stoppedForExclusive);
      } else {
        ComponentsEnd(ctx, start, old(Shared()), Shared(), k, current, selected, old(stoppedForExclusive),
                      stoppedForExclusive, halted);
      }
    }

    /** The lists with which the components begin. */
    ghost predicate Blank()
      reads this`created, this`stoppedForExclusive, this`leftover, this`halted, this`retiring, this`retired
    {
      && created == [] && stoppedForExclusive == [] && leftover == {} && halted == None
      && retiring == [] && retired == NoneRetired
    }

    /** Every component in order; `current` are the instances selected for them. */
    method ConvergeComponents(ctx: Context) returns (ok: bool, current: seq<Row>)
      requires Proper(ctx) && ProperRows(rows) && Blank()
      modifies this`rows, this`containers, this`asked, this`created, this`leftover, this`stoppedForExclusive,
               this`halted, this`refusals, this`checks
      ensures ComponentsLeft(ctx, old(Shared()), Shared(), stoppedForExclusive, halted)
      ensures ok ==> halted == None
      ensures ok ==> ComponentsRun(ctx, old(Shared()), Shared(), |ctx.order|, current, stoppedForExclusive)
      ensures reliable && AllSettled(ctx, old(rows), old(containers)) ==> ok && Everything() == old(Everything())
    {
      current, ok := [], true;
      for k := 0 to |ctx.order|
        invariant ok && halted == None
        invariant ComponentsRun(ctx, old(Shared()), Shared(), k, current, stoppedForExclusive)
        invariant reliable && AllSettled(ctx, old(rows), old(containers)) ==> Everything() == old(Everything())
      {
        ok, current := ConvergeNext(old(Shared()), ctx, k, current);
        if !ok { return; }
      }
      AllComponents(ctx, old(Shared()), Shared(), current, stoppedForExclusive);
    }

    // ---- jobs ----

    ghost function JobStore(): Jobs.Store
      reads this`records, this`succeeded
    {
      Jobs.Store(Jobs.RecordMap(records), succeeded)
    }

    /** Enter a job's row, with `startJob` or `finishJob`. */
    method WriteJob(p: Jobs.Planned, status: Jobs.Status) returns (ok: bool)
      modifies this`records
      ensures reliable ==> ok
      ensures Jobs.RecordMap(records)
           == if ok then Jobs.RecordMap(old(records))[p.key := Jobs.Record(p.key, status, p.attempt)]
              else Jobs.RecordMap(old(records))
    {
      ok := *;
      ok := ok || reliable;
      if ok {
        var r := Jobs.Record(p.key, status, p.attempt);
        Jobs.UpsertIs(records, r);
        records := Jobs.Upsert(records, r);
      }
    }

    /** One planned job. A job whose run or whose last entry throws stays `running`, as after a crash; it may
        have succeeded all the same. */
    method RunJob(p: Jobs.Planned) returns (begun: bool, success: bool, ghost ending: Jobs.Ending)
      modifies this`records, this`asked, this`succeeded
      ensures JobStore() == if begun then Jobs.Ended(old(JobStore()), p, ending) else old(JobStore())
      ensures success <==> begun && ending == Jobs.Success
      ensures asked == old(asked).(jobs := old(asked.jobs) + if begun then [p.key] else [])
    {
      ending, success := Jobs.CrashBefore, false;
      begun := WriteJob(p, Jobs.Running);
      if !begun { return; }
      asked := asked.(jobs := asked.jobs + [p.key]);
      var ran, exitOk := *, *;
      if exitOk {
        succeeded, ending := succeeded + [p.key], Jobs.CrashAfter;
      }
      if !ran { return; }
      var entered := WriteJob(p, if exitOk then Jobs.Succeeded else Jobs.Failed);
      if !entered { return; }
      ending, success := if exitOk then Jobs.Success else Jobs.Failure, exitOk;
    }

    /** The planned jobs in order, each once, up to the first that does not succeed. */
    method RunPlanned(planned: seq<Jobs.Planned>) returns (ok: bool, ghost endings: seq<Jobs.Ending>)
      modifies this`records, this`asked, this`succeeded
      ensures |endings| <= |planned| && JobStore() == Jobs.RunJobs(old(JobStore()), planned, endings)
      ensures asked == old(asked).(jobs := old(asked.jobs) + Jobs.Keys(planned)[..|endings|])
      ensures ok ==> Jobs.AllSuccess(endings) && |endings| == |planned|
      ensures planned == [] ==>
              ok && records == old(records) && asked == old(asked) && succeeded == old(succeeded)
    {
      endings := [];
      for i := 0 to |planned|
        invariant Jobs.AllSuccess(endings) && |endings| == i
        invariant asked == old(asked).(jobs := old(asked.jobs) + Jobs.Keys(planned)[..i])
        invariant JobStore() == Jobs.RunJobs(old(JobStore()), planned, endings)
        invariant i == 0 ==> records == old(records) && asked == old(asked) && succeeded == old(succeeded)
      {
        var begun, success;
        ghost var ending;
        begun, success, ending := RunJob(planned[i]);
        if begun {
          Jobs.RunJobsStep(old(JobStore()), planned, endings, ending);
          Jobs.KeysNext(planned, i);
          endings := endings + [ending];
        }
        if !begun || !success { return false, endings; }
      }
      ok := true;
    }

    /** `runPendingJobs` */
    method RunPendingJobs(ctx: Context, current: seq<Row>) returns (ok: bool, ghost endings: seq<Jobs.Ending>)
      modifies this`records, this`asked, this`succeeded
      ensures var planned := JobsFor(ctx, old(JobStore()), current);
              && |endings| <= |planned|
              && asked == old(asked).(jobs := old(asked.jobs) + Jobs.Keys(planned)[..|endings|])
              && JobStore() == Jobs.RunJobs(old(JobStore()), planned, endings)
              && (ok ==> !WriterMissing(ctx) && Jobs.AllSuccess(endings) && |endings| == |planned|)
              && (planned == [] && !WriterMissing(ctx) ==>
                    ok && records == old(records) && asked == old(asked) && succeeded == old(succeeded))
    {
      var round := JobRound(ctx, current);
      var planned, gates, blocked :=
        Jobs.PlanApplicationJobs(round.execution, round.settings, records, round.jobs, round.instances);
      endings := [];
      ok := !blocked;
      if ok { ok, endings := RunPlanned(planned); }
    }

    // ---- endpoints ----

    /** The port of a service in a container's inspection. */
    method HostPort(name: string, service: Service) returns (found: bool)
      modifies this`checks
      ensures checks == old(checks) + [Bound(name, service.id, found)]
      ensures reliable && name in containers ==> found
    {
      found := *;
      found := found || (reliable && name in containers);
      checks := checks + [Bound(name, service.id, found)];
    }

    /** One instance of a service. */
    method BuildEndpoint(service: Service, r: Row) returns (ok: bool, built: Endpoint)
      modifies this`checks
      ensures Inspections(old(checks), checks) && built == Endpoint(r.id, r.release, r.configuration)
      ensures ok && NeedsPort(service) ==> PortFound(checks, |old(checks)|, service, r.id)
      ensures reliable && r.id in containers ==> ok
    {
      built := Endpoint(r.id, r.release, r.configuration);
      var present, running;
      ok, present, running := InspectContainer(r.id);
      if !ok { return; }
      var port := true;
      if !service.hostNetwork { port := HostPort(r.id, service); }
      if service.published && !port { ok := false; }
      assert ok && NeedsPort(service) ==> checks[|checks| - 1] == Bound(r.id, service.id, true);
    }

    /** The endpoints of one service; a published service needs a port of every instance. */
    method BuildEndpoints(service: Service, instances: seq<Row>) returns (ok: bool, built: seq<Endpoint>)
      modifies this`checks
      ensures Inspections(old(checks), checks)
      ensures ok ==> built == EndpointsFor(instances) && PortsFound(checks, |old(checks)|, service, instances)
      ensures reliable && (forall i :: 0 <= i < |instances| ==> instances[i].id in containers) ==> ok
    {
      built := [];
      for i := 0 to |instances|
        invariant built == EndpointsFor(instances[..i]) && Inspections(old(checks), checks)
        invariant PortsFound(checks, |old(checks)|, service, instances[..i])
      {
        ghost var before := checks;
        var one;
        ok, one := BuildEndpoint(service, instances[i]);
        if !ok { return; }
        PortsMore(before, checks, |old(checks)|, service, instances, i);
        built := built + [one];
      }
      ok := true;
      assert instances[..|instances|] == instances;
    }

    /** `publishEndpoints`: one service after the other. */
    method PublishEndpoints(ctx: Context, current: seq<Row>) returns (ok: bool, published: nat)
      modifies this`endpoints, this`checks
      ensures Inspections(old(checks), checks)
      ensures published <= |ctx.services| && (ok ==> published == |ctx.services|)
      ensures endpoints == Published(old(endpoints), ctx.services, published, current)
      ensures AllPortsFound(checks, |old(checks)|, ctx.services, published, current)
      ensures reliable && InStore(rows, containers, current) ==> ok
    {
      published := 0;
      while published < |ctx.services|
        invariant published <= |ctx.services| && Inspections(old(checks), checks)
        invariant endpoints == Published(old(endpoints), ctx.services, published, current)
        invariant AllPortsFound(checks, |old(checks)|, ctx.services, published, current)
      {
        var service := ctx.services[published];
        ghost var before := checks;
        var built;
        OfComponentIs(current, service.component);
        ok, built := BuildEndpoints(service, OfComponent(current, service.component));
        PortsStay(before, checks, |old(checks)|, ctx.services, published, current);
        if !ok { return; }
        AllPortsMore(before, checks, |old(checks)|, ctx.services, published, current);
        ok := *;            // replaceReadyEndpoints
        ok := ok || reliable;
        if !ok { return; }
        endpoints := endpoints[service.id := built];
        published := published + 1;
      }
      ok := true;
    }

    // ---- retirement ----

    /** Mark the unselected instances as draining. */
    method DrainAll(stale: seq<Row>) returns (ok: bool)
      requires retired == NoneRetired
      modifies this`rows, this`refusals, this`retired
      ensures ChangedOnly(old(rows), rows, stale) && NoneRemoved(old(rows), rows)
      ensures retired == NoneRetired.(drained := retired.drained) && retired.drained <= |stale|
      ensures rows == MarkRows(old(rows), stale, retired.drained, Draining) && (ok <==> retired.drained == |stale|)
    {
      for i := 0 to |stale|
        invariant ChangedOnly(old(rows), rows, stale) && NoneRemoved(old(rows), rows)
        invariant retired == NoneRetired.(drained := i) && rows == MarkRows(old(rows), stale, i, Draining)
      {
        assert stale[i] in stale;
        ok := PatchInstance(stale[i].id, Draining);
        if !ok { return; }
        retired := retired.(drained := i + 1);
      }
      ok := true;
    }

    /** Stop and remove one of them and mark it as removed. */
    method RetireOne(stale: seq<Row>, i: nat) returns (ok: bool)
      requires i < |stale| && stale[i].id in rows && retired == Retired(|stale|, i, i, i, i)
      modifies this`rows, this`asked, this`containers, this`refusals, this`retired
      ensures InOrder(retired, |stale|) && retired.stopped == i + 1 && (ok <==> retired.marked == i + 1)
      ensures asked == old(asked).(stops := old(asked.stops) + [stale[i].id],
                                   removals := old(asked.removals) + if retired.removed > i then [stale[i].id] else [])
      ensures containers == if retired.gone > i then old(containers) - {stale[i].id} else old(containers)
      ensures rows == if ok then old(rows)[stale[i].id := old(rows)[stale[i].id].(status := Removed)] else old(rows)
      ensures retired.marked >= i
    {
      retired := retired.(stopped := i + 1);
      ok := StopContainer(stale[i].id);
      if !ok { return; }
      retired := retired.(removed := i + 1);
      ok := RemoveContainer(stale[i].id);
      if !ok { return; }
      retired := retired.(gone := i + 1);
      ok := PatchInstance(stale[i].id, Removed);
      if ok { retired := retired.(marked := i + 1); }
    }

    /** Stop and remove the unselected instances and mark them as removed, one after the other. */
    method RemoveAll(stale: seq<Row>) returns (ok: bool)
      requires HaveRows(rows, stale) && DistinctRows(stale) && retired == NoneRetired.(drained := |stale|)
      modifies this`rows, this`asked, this`containers, this`refusals, this`retired
      ensures RetireAsked(old(asked), asked, stale, retired) && RetireRows(old(rows), rows, stale, retired)
      ensures rows == MarkRows(old(rows), stale, retired.marked, Removed) && retired.drained == |stale|
      ensures containers == old(containers) - IdSet(stale[..retired.gone]) && (ok <==> retired.marked == |stale|)
    {
      for i := 0 to |stale|
        invariant retired == Retired(|stale|, i, i, i, i) && RetireAsked(old(asked), asked, stale, retired)
        invariant RetireRows(old(rows), rows, stale, retired) && rows == MarkRows(old(rows), stale, i, Removed)
        invariant containers == old(containers) - IdSet(stale[..i])
      {
        ghost var before := Shared();
        ok := RetireOne(stale, i);
        RetireAskedMore(old(asked), before.asked, asked, stale, i, retired);
        RetireRowsMore(old(rows), before.rows, rows, stale, i, retired);
        GoneMore(old(containers), before.containers, containers, stale, i, retired);
        if !ok { return; }
      }
      ok := true;
    }

    method DrainAndRemove(stale: seq<Row>) returns (ok: bool)
      requires HaveRows(rows, stale) && DistinctRows(stale) && retired == NoneRetired
      modifies this`rows, this`asked, this`containers, this`refusals, this`retired
      ensures RetireAsked(old(asked), asked, stale, retired) && RetireRows(old(rows), rows, stale, retired)
      ensures rows == RetiredRows(old(rows), stale, retired)
      ensures containers == old(containers) - IdSet(stale[..retired.gone]) && (ok <==> retired.marked == |stale|)
    {
      ok := DrainAll(stale);
      ghost var drained := rows;
      if ok {
        ok := RemoveAll(stale);
        RetireAfterDrain(old(rows), drained, rows, stale, retired);
      }
    }

    /** `retireStaleInstances`: exactly the instances that are neither removed nor selected. All are draining before
        the first is stopped; then Docker is asked to stop and to remove one after the other, and nothing else. */
    method RetireStaleInstances(current: seq<Row>) returns (ok: bool)
      requires ProperRows(rows) && InStore(rows, containers, current) && retired == NoneRetired
      modifies this`rows, this`asked, this`containers, this`refusals, this`retiring, this`retired
      ensures InStore(rows, containers, current) && Evolved(old(rows), rows)
      ensures retiring == Unselected(Listed(old(rows)), current) && DistinctRows(retiring)
      ensures IsUnselected(old(rows), current, retiring)
      ensures RetireAsked(old(asked), asked, retiring, retired) && RetireRows(old(rows), rows, retiring, retired)
      ensures containers == old(containers) - IdSet(retiring[..retired.gone])
      ensures rows == RetiredRows(old(rows), retiring, retired)
      ensures (ok <==> retired.marked == |retiring|) && (ok ==> OnlySelected(rows, current))
      ensures OnlySelected(old(rows), current)
          ==> ok && rows == old(rows) && asked == old(asked) && containers == old(containers)
    {
      var stale := Unselected(Listed(rows), current);
      retiring := stale;
      UnselectedRows(rows, current);
      UnselectedHaveRows(rows, current, stale);
      ok := DrainAndRemove(stale);
      RetiredWell(old(rows), rows, old(containers), containers, current, stale, retired);
    }

    // ---- compensation ----

    /** One created instance: Docker's failure is ignored. */
    method RemoveOne(r: Row) returns (ok: bool, ghost gone: bool)
      requires r.id in rows
      modifies this`rows, this`containers, this`asked, this`refusals
      ensures rows == if ok then old(rows)[r.id := old(rows)[r.id].(status := Failed)] else old(rows)
      ensures containers == if gone then old(containers) - {r.id} else old(containers)
      ensures refusals == old(refusals) + if ok then 0 else 1
      ensures asked == old(asked).(removals := old(asked.removals) + [r.id])
    {
      gone := RemoveContainer(r.id);
      ok := PatchInstance(r.id, Failed);
    }

    /** One stopped instance: Docker's failures count as a probe that does not pass. */
    method RestartOne(r: Row) returns (ok: bool, healthy: bool)
      requires r.id in rows
      modifies this`rows, this`asked, this`refusals, this`checks
      ensures rows == if ok then old(rows)[r.id := old(rows)[r.id].(status := if healthy then Ready else Failed)]
                      else old(rows)
      ensures exists started :: checks == old(checks) + [Started(r.id, started), Probed(r.id, healthy)]
      ensures refusals == old(refusals) + if ok then 0 else 1
      ensures asked == old(asked).(starts := old(asked.starts) + [r.id])
    {
      var started := StartContainer(r.id);
      var answered;
      answered, healthy := WaitHealthy(r.id);
      healthy := answered && healthy;
      assert checks == old(checks) + [Started(r.id, started), Probed(r.id, healthy)];
      ok := PatchInstance(r.id, if healthy then Ready else Failed);
    }

    /** Send every created container for removal and mark its row as failed; a failing store ends it after `removed`
        instances. Docker has not removed the containers in `kept`. */
    method RemoveCreated() returns (complete: bool, ghost removed: nat, ghost kept: set<string>)
      requires HaveRows(rows, created)
      modifies this`rows, this`containers, this`asked, this`refusals
      ensures ChangedOnly(old(rows), rows, created) && NoneRemoved(old(rows), rows)
      ensures containers == old(containers) - (IdSet(created) - kept)
      ensures removed <= |created| && (complete <==> removed == |created|)
      ensures refusals == old(refusals) + if complete then 0 else 1
      ensures AllFailed(rows, created[..removed])
      ensures asked == old(asked).(removals := old(asked.removals) + Ids(created[..Reached(removed, |created|)]))
    {
      removed, kept := 0, IdSet(created);
      for i := 0 to |created|
        invariant ChangedOnly(old(rows), rows, created) && NoneRemoved(old(rows), rows)
        invariant containers == old(containers) - (IdSet(created) - kept)
        invariant removed == i && refusals == old(refusals)
        invariant AllFailed(rows, created[..i])
        invariant asked == old(asked).(removals := old(asked.removals) + Ids(created[..i]))
      {
        IdsNext(created, i);
        ghost var before := rows;
        ghost var gone;
        complete, gone := RemoveOne(created[i]);
        if gone {
          assert created[i] in created && created[i].id in IdSet(created);
          kept := kept - {created[i].id};
        }
        if !complete { return; }
        FailedStep(old(rows), before, rows, created, i);
        removed := i + 1;
      }
      complete := true;
    }

    /** Start and probe the instances that were stopped for exclusivity. A failing store ends it after `restarted`
        instances. */
    method RestartStopped() returns (complete: bool, ghost restarted: nat)
      requires HaveRows(rows, stoppedForExclusive) && DistinctRows(stoppedForExclusive)
      modifies this`rows, this`asked, this`refusals, this`checks
      ensures ChangedOnly(old(rows), rows, stoppedForExclusive) && NoneRemoved(old(rows), rows)
      ensures restarted <= |stoppedForExclusive| && (complete <==> restarted == |stoppedForExclusive|)
      ensures refusals == old(refusals) + if complete then 0 else 1
      ensures old(checks) <= checks
      ensures RestartsHeard(checks, |old(checks)|, stoppedForExclusive[..Reached(restarted, |stoppedForExclusive|)])
      ensures AllRestarted(rows, checks, |old(checks)|, stoppedForExclusive[..restarted])
      ensures asked == old(asked).(starts := old(asked.starts)
                + Ids(stoppedForExclusive[..Reached(restarted, |stoppedForExclusive|)]))
    {
      restarted := 0;
      for i := 0 to |stoppedForExclusive|
        invariant ChangedOnly(old(rows), rows, stoppedForExclusive) && NoneRemoved(old(rows), rows)
        invariant restarted == i && refusals == old(refusals) && old(checks) <= checks
        invariant RestartsHeard(checks, |old(checks)|, stoppedForExclusive[..i])
        invariant AllRestarted(rows, checks, |old(checks)|, stoppedForExclusive[..i])
        invariant asked == old(asked).(starts := old(asked.starts) + Ids(stoppedForExclusive[..i]))
      {
        IdsNext(stoppedForExclusive, i);
        ghost var before := Shared();
        var healthy;
        complete, healthy := RestartOne(stoppedForExclusive[i]);
        if !complete {
          RestartRefused(rows, before.checks, checks, |old(checks)|, stoppedForExclusive, i, healthy);
          return;
        }
        RestartStep(old(rows), before.rows, rows, before.checks, checks, |old(checks)|, stoppedForExclusive, i,
                    healthy);
        restarted := i + 1;
      }
      complete := true;
    }

    /** `admissionRollback`, when there was a commit; what it throws is kept for the error message. */
    method RollBackAdmission(ctx: Context)
      requires admission == Admission(admission.committed, false, false)
      modifies this`admission
      ensures admission.committed == old(admission.committed) && (admission.threw ==> admission.rolledBack)
      ensures admission.rolledBack <==> old(admission.committed) && ctx.rollsBack
    {
      if admission.committed && ctx.rollsBack {
        var threw := *;
        admission := Admission(true, true, threw);
      }
    }

    /** Remove what was created, and then restart what was stopped. */
    method UndoInstances(ctx: Context, ghost start: Pool) returns (complete: bool, ghost undo: Undo)
      requires CreatedNew(start, rows, created) && StoppedOk(ctx, start.rows, stoppedForExclusive, ctx.order)
      requires Evolved(start.rows, rows) && refusals == 0
      modifies this`rows, this`containers, this`asked, this`refusals, this`checks
      ensures UndoChanged(old(rows), rows, created, stoppedForExclusive) && NoneRemoved(old(rows), rows)
      ensures containers == old(containers) - (IdSet(created) - undo.kept) && old(checks) <= checks
      ensures undo.before == old(asked) && undo.heard == |old(checks)|
      ensures Undone(undo, complete, refusals, Shared(), stoppedForExclusive)
    {
      ghost var removed, restarted, kept := 0, 0, {};
      UndoneHaveRows(ctx, start, rows, created, stoppedForExclusive, ctx.order);
      complete, removed, kept := RemoveCreated();
      ghost var middle := rows;
      if complete {
        complete, restarted := RestartStopped();
        assert created[..removed] == created;
        NewStill(start, old(rows), middle, created);
        StillFailed(ctx, start, middle, rows, created, stoppedForExclusive, ctx.order);
      }
      undo := Undo(old(asked), |old(checks)|, removed, restarted, kept);
      UndoChangedThen(old(rows), middle, rows, created, stoppedForExclusive);
    }

    /** The catch block: undo the external admission, remove what was created, restart what was stopped. */
    method Compensate(ctx: Context, ghost start: Pool) returns (complete: bool, ghost undo: Undo)
      requires CreatedNew(start, rows, created) && StoppedOk(ctx, start.rows, stoppedForExclusive, ctx.order)
      requires Evolved(start.rows, rows) && admission == Admission(admission.committed, false, false)
      modifies this`admission, this`rows, this`containers, this`asked, this`refusals, this`checks
      ensures UndoChanged(old(rows), rows, created, stoppedForExclusive) && NoneRemoved(old(rows), rows)
      ensures containers == old(containers) - (IdSet(created) - undo.kept) && old(checks) <= checks
      ensures undo.before == old(asked) && undo.heard == |old(checks)|
      ensures Undone(undo, complete, refusals, Shared(), stoppedForExclusive)
      ensures admission.committed == old(admission.committed) && (admission.threw ==> admission.rolledBack)
      ensures admission.rolledBack <==> admission.committed && ctx.rollsBack
    {
      refusals := 0;
      RollBackAdmission(ctx);
      complete, undo := UndoInstances(ctx, start);
    }

    // ---- convergence ----

    /** The state of a run, as its promises see it. */
    ghost function Now(): Run
      reads this`rows, this`containers, this`created, this`leftover, this`asked, this`stoppedForExclusive, this`halted,
            this`endpoints, this`admission, this`checks, this`retiring, this`retired
    {
      Run(Shared(), endpoints, stoppedForExclusive, halted, admission, retiring, retired)
    }

    /** The instances; with `steady` they are those of before, and nothing has been done. */
    method ConvergeInstances(ctx: Context, ghost steady: bool, ghost was: seq<Row>)
      returns (ok: bool, current: seq<Row>)
      requires Proper(ctx) && ProperRows(rows) && Blank()
      requires steady ==> Steady(ctx, reliable, rows, containers, endpoints, JobStore(), was)
      modifies this`rows, this`containers, this`asked, this`created, this`leftover, this`stoppedForExclusive,
               this`halted, this`refusals, this`checks
      ensures Underway(ctx, old(Shared()), Now()) && (ok ==> SelectedRun(ctx, old(Shared()), current, Now()))
      ensures steady ==> ok && current == was && Everything() == old(Everything())
    {
      if steady { ConvergedIsSettled(ctx, rows, containers, endpoints, was); }
      ok, current := ConvergeComponents(ctx);
      if steady { SameSelection(ctx, |ctx.order|, rows, containers, current, was); }
    }

    method DoJobs(ctx: Context, ghost start: Pool, current: seq<Row>, ghost steady: bool) returns (ok: bool)
      requires Proper(ctx) && Jobs.LogKept(JobStore())
      requires Underway(ctx, start, Now()) && SelectedRun(ctx, start, current, Now())
      requires steady ==> Steady(ctx, reliable, rows, containers, endpoints, JobStore(), current)
      modifies this`records, this`asked, this`succeeded
      ensures Jobs.LogKept(JobStore())
      ensures Underway(ctx, start, Now()) && SelectedRun(ctx, start, current, Now())
      ensures ok ==> JobsFor(ctx, JobStore(), current) == [] && !WriterMissing(ctx)
      ensures steady ==> ok && records == old(records) && asked == old(asked) && succeeded == old(succeeded)
    {
      SelectedDistinct(ctx, rows, containers, current);
      ghost var before, endings := JobStore(), [];
      ok, endings := RunPendingJobs(ctx, current);
      RoundKeepsLog(ctx, before, current, endings);
      if ok { JobsThenNone(ctx, before, current, endings); }
      JobsAskNothing(ctx, start, current, old(Now()), Now());
    }

    /** The instances, then the jobs; nothing is published yet. */
    method Materialize(ctx: Context, ghost steady: bool, ghost was: seq<Row>) returns (ok: bool, current: seq<Row>)
      requires Proper(ctx) && ProperRows(rows) && Blank() && Jobs.LogKept(JobStore())
      requires steady ==> Steady(ctx, reliable, rows, containers, endpoints, JobStore(), was)
      modifies this`rows, this`containers, this`asked, this`created, this`leftover, this`stoppedForExclusive,
               this`halted, this`refusals, this`checks, this`records, this`succeeded
      ensures Underway(ctx, old(Shared()), Now()) && Jobs.LogKept(JobStore())
      ensures ok ==> SelectedRun(ctx, old(Shared()), current, Now())
      ensures ok ==> JobsFor(ctx, JobStore(), current) == [] && !WriterMissing(ctx)
      ensures steady ==> ok && current == was && Everything() == old(Everything()) && records == old(records)
    {
      ok, current := ConvergeInstances(ctx, steady, was);
      if ok {
        ok := DoJobs(ctx, old(Shared()), current, steady);
      }
    }

    /** `admissionCommit` */
    method CommitAdmission(ctx: Context) returns (ok: bool)
      requires admission == Admission(false, false, false)
      modifies this`admission
      ensures admission == Admission(ok && ctx.commits, false, false) && (reliable ==> ok)
    {
      ok := true;
      if ctx.commits {
        ok := *;
        ok := ok || reliable;
        admission := Admission(ok, false, false);
      }
    }

    /** The retirement, as part of a run. */
    method RetireOthers(ghost before: Run, current: seq<Row>) returns (ok: bool)
      requires ProperRows(rows) && InStore(rows, containers, current)
      requires retiring == [] && retired == NoneRetired && OnlyPublished(before, Now())
      modifies this`rows, this`asked, this`containers, this`refusals, this`retiring, this`retired
      ensures RetirementOf(Retiring, current, before, Now()) && InStore(rows, containers, current)
      ensures ok ==> retired.marked == |retiring| && OnlySelected(rows, current)
      ensures OnlySelected(old(rows), current)
          ==> ok && rows == old(rows) && asked == old(asked) && containers == old(containers)
    {
      ok := RetireStaleInstances(current);
      SomeRetired(current, before, old(Now()), Now());
    }

    /** Publish the endpoints, retire the other instances, and record the placements. */
    method PublishAndRetire(ctx: Context, current: seq<Row>, ghost steady: bool) returns (ok: bool, stage: Stage)
      requires Proper(ctx) && ProperRows(rows) && FillsOrder(ctx, |ctx.order|, current)
      requires InStore(rows, containers, current) && retiring == [] && retired == NoneRetired
      requires steady ==> reliable && Converged(ctx, rows, containers, endpoints, current)
      modifies this`rows, this`endpoints, this`asked, this`containers, this`refusals, this`checks, this`retiring,
               this`retired
      ensures stage != Materializing && (ok ==> stage == Retiring && retired.marked == |retiring|)
      ensures EndpointsAt(stage, ctx, old(endpoints), endpoints, current)
      ensures RetirementOf(stage, current, old(Now()), Now()) && InStore(rows, containers, current)
      ensures ok ==> Converged(ctx, rows, containers, endpoints, current)
      ensures steady ==> ok && rows == old(rows) && containers == old(containers) && endpoints == old(endpoints)
      ensures steady ==> asked == old(asked)
    {
      var published;
      ok, published := PublishEndpoints(ctx, current);
      if steady {
        PublishedSame(old(endpoints), ctx.services, published, current);
      }
      stage := Publishing(published);
      if !ok {
        NothingRetired(stage, current, old(Now()), Now());
        return;
      }
      PublishedIs(old(endpoints), ctx.services, |ctx.services|, current);
      stage := Retiring;
      ok := RetireOthers(old(Now()), current);
      if !ok { return; }
      ok := *;              // upsertPlacement of every component
      ok := ok || reliable;
    }

    /** Everything of the guarded part of `converge` that comes before the publication. */
    method Prepare(ctx: Context, ghost steady: bool, ghost was: seq<Row>) returns (ok: bool, current: seq<Row>)
      requires Proper(ctx) && ProperRows(rows) && Blank() && admission == Admission(false, false, false)
      requires Jobs.LogKept(JobStore())
      requires steady ==> Steady(ctx, reliable, rows, containers, endpoints, JobStore(), was)
      modifies this`rows, this`containers, this`asked, this`created, this`leftover, this`stoppedForExclusive,
               this`halted, this`refusals, this`checks, this`records, this`succeeded, this`admission
      ensures Underway(ctx, old(Shared()), Now()) && Jobs.LogKept(JobStore())
      ensures admission == Admission(ok && ctx.commits, false, false)
      ensures ok ==> SelectedRun(ctx, old(Shared()), current, Now())
      ensures ok ==> JobsFor(ctx, JobStore(), current) == [] && !WriterMissing(ctx)
      ensures steady ==> ok && current == was && Everything() == old(Everything()) && records == old(records)
    {
      ok, current := Materialize(ctx, steady, was);
      if ok { ok := CommitAdmission(ctx); }
    }

    /** The catch block, and what the run as a whole then promises. */
    method GiveUp(ctx: Context, ghost start: Pool, ghost stage: Stage, ghost current: seq<Row>,
                  ghost endpointsBefore: Endpoints)
      returns (complete: bool, ghost undo: Undo)
      requires forall n :: n in ctx.order ==> n in ctx.components
      requires start.created == [] && Failing(ctx, start, stage, current, endpointsBefore, Now())
      requires admission == Admission(ctx.commits && stage != Materializing, false, false)
      modifies this`admission, this`rows, this`containers, this`asked, this`refusals, this`checks
      ensures Evolved(start.rows, rows)
      ensures Promised(ctx, GaveUp(stage, complete), undo, refusals, current, start, endpointsBefore, Now(),
                       JobStore())
    {
      complete, undo := Compensate(ctx, start);
      GivenUp(ctx, start, stage, complete, current, endpointsBefore, undo, refusals, old(Now()), Now(), JobStore());
    }

    /** The empty lists that a run begins with, and the steps before the guarded part. */
    method BeginRun() returns (begun: bool)
      modifies this`created, this`stoppedForExclusive, this`leftover, this`halted, this`admission, this`retiring,
               this`retired
      ensures Blank() && admission == Admission(false, false, false) && (reliable ==> begun)
    {
      created, stoppedForExclusive, leftover, halted := [], [], {}, None;
      retiring, retired := [], NoneRetired;
      admission := Admission(false, false, false);
      begun := *;           // admission, network, volumes, services, images, placements
      begun := begun || reliable;
    }

    /** The publication and the retirement, and the catch block around them. */
    method Finish(ctx: Context, ghost start: Pool, current: seq<Row>, ghost steady: bool)
      returns (outcome: Outcome, ghost undo: Undo)
      requires Proper(ctx) && start.created == []
      requires Underway(ctx, start, Now()) && SelectedRun(ctx, start, current, Now())
      requires JobsFor(ctx, JobStore(), current) == [] && !WriterMissing(ctx)
      requires admission == Admission(ctx.commits, false, false)
      requires steady ==> reliable && Converged(ctx, rows, containers, endpoints, current)
      modifies this`rows, this`endpoints, this`asked, this`containers, this`admission, this`refusals, this`checks,
               this`retiring, this`retired
      ensures Evolved(start.rows, rows)
      ensures Promised(ctx, outcome, undo, refusals, current, start, old(endpoints), Now(), JobStore())
      ensures steady ==>
              outcome.Done? && rows == old(rows) && containers == old(containers) && endpoints == old(endpoints)
      ensures steady ==> asked == old(asked)
    {
      undo := Undo(asked, 0, 0, 0, {});
      ghost var before := Now();
      var ok, stage := PublishAndRetire(ctx, current, steady);
      Closed(ctx, start, stage, current, before, Now());
      if ok {
        var inspected := *;
        outcome := Done(inspected);
      } else {
        var complete;
        complete, undo := GiveUp(ctx, start, stage, current, before.endpoints);
        outcome := GaveUp(stage, complete);
      }
    }

    /** The end of a run, whose instances are ready and whose jobs are done when `ready` holds. */
    method Complete(ctx: Context, ghost start: Pool, ready: bool, current: seq<Row>, ghost steady: bool)
      returns (outcome: Outcome, ghost undo: Undo)
      requires Proper(ctx) && start.created == [] && Underway(ctx, start, Now())
      requires ready ==> SelectedRun(ctx, start, current, Now())
      requires ready ==> JobsFor(ctx, JobStore(), current) == [] && !WriterMissing(ctx)
      requires admission == Admission(ready && ctx.commits, false, false)
      requires steady ==> ready && reliable && Converged(ctx, rows, containers, endpoints, current)
      modifies this`rows, this`endpoints, this`asked, this`containers, this`admission, this`refusals, this`checks,
               this`retiring, this`retired
      ensures Evolved(start.rows, rows)
      ensures Promised(ctx, outcome, undo, refusals, current, start, old(endpoints), Now(), JobStore())
      ensures steady ==>
              outcome.Done? && rows == old(rows) && containers == old(containers) && endpoints == old(endpoints)
      ensures steady ==> asked == old(asked)
    {
      if ready {
        outcome, undo := Finish(ctx, start, current, steady);
      } else {
        UnderwayFails(ctx, start, current, Now());
        var complete;
        complete, undo := GiveUp(ctx, start, Materializing, current, endpoints);
        outcome := GaveUp(Materializing, complete);
      }
    }

    /** `converge` once it has begun. */
    method ConvergeBegun(ctx: Context, ghost start: Pool, ghost steady: bool, ghost was: seq<Row>)
      returns (outcome: Outcome, selected: seq<Row>, ghost undo: Undo)
      requires Proper(ctx) && ProperRows(rows) && Blank() && admission == Admission(false, false, false)
      requires start == Shared() && Jobs.LogKept(JobStore())
      requires steady ==> Steady(ctx, reliable, rows, containers, endpoints, JobStore(), was)
      modifies this`rows, this`containers, this`asked, this`created, this`leftover, this`stoppedForExclusive,
               this`halted, this`refusals, this`checks, this`records, this`succeeded, this`admission, this`endpoints,
               this`retiring, this`retired
      ensures Jobs.LogKept(JobStore()) && Evolved(start.rows, rows)
      ensures Promised(ctx, outcome, undo, refusals, selected, start, old(endpoints), Now(), JobStore())
      ensures steady ==> outcome.Done? && selected == was && rows == old(rows) && containers == old(containers)
      ensures steady ==> endpoints == old(endpoints) && records == old(records) && asked == old(asked)
    {
      var ready;
      ready, selected := Prepare(ctx, steady, was);
      outcome, undo := Complete(ctx, start, ready, selected, steady);
    }

    /** `converge`. When it fails after it has begun, everything created is removed again and everything
        recorded as stopped is restarted, as far as the store accepts it. */
    method Converge(ctx: Context, ghost steady: bool, ghost was: seq<Row>)
      returns (outcome: Outcome, selected: seq<Row>, ghost undo: Undo)
      requires Proper(ctx) && ProperRows(rows) && Jobs.LogKept(JobStore())
      requires steady ==> Steady(ctx, reliable, rows, containers, endpoints, JobStore(), was)
      modifies this
      ensures reliable == old(reliable) && Jobs.LogKept(JobStore()) && Evolved(old(rows), rows)
      ensures Promised(ctx, outcome, undo, refusals, selected,
                       Pool(old(rows), old(containers), [], {}, old(asked), old(checks)),
                       old(endpoints), Now(), JobStore())
      ensures steady ==> outcome.Done? && selected == was && rows == old(rows) && containers == old(containers)
      ensures steady ==> endpoints == old(endpoints) && records == old(records) && asked == old(asked)
    {
      selected, outcome, undo := [], NotStarted, Undo(asked, 0, 0, 0, {});
      var begun := BeginRun();
      ghost var start := Shared();
      assert start == Pool(old(rows), old(containers), [], {}, old(asked), old(checks));
      if begun {
        outcome, selected, undo := ConvergeBegun(ctx, start, steady, was);
      } else {
        PromisedNothing(ctx, undo, refusals, Now(), JobStore());
      }
    }

    /** Convergence is quiescent: after a success, converging again with the same context, without force
        flags, with nothing failing and every container healthy selects the same instances, leaves every
        table as it is, and creates, starts, stops, removes and runs nothing. Jobs that a crash has left
        running before do not matter. */
    method ConvergeTwice(ctx: Context)
      returns (first: Outcome, second: Outcome, selected: seq<Row>, again: seq<Row>,
               ghost between: (Rows, set<string>, Endpoints, seq<Jobs.Record>), ghost askedFirst: Asked)
      requires Proper(ctx) && ProperRows(rows) && Jobs.LogKept(JobStore()) && NoForce(ctx)
      modifies this
      ensures first.Done? ==> second.Done? && again == selected && between == (rows, containers, endpoints, records)
      ensures first.Done? ==> askedFirst == asked && Converged(ctx, rows, containers, endpoints, selected)
    {
      ghost var undo;
      ghost var was, endpointsWas := Pool(rows, containers, [], {}, asked, checks), endpoints;
      first, selected, undo := Converge(ctx, false, []);
      second, again := NotStarted, [];
      between, askedFirst := (rows, containers, endpoints, records), asked;
      if first.Done? {
        DoneIsSteady(ctx, first.returned, undo, refusals, selected, was, endpointsWas, Now(), JobStore());
        reliable := true;
        second, again, undo := Converge(ctx, true, selected);
      }
    }
  }
}
