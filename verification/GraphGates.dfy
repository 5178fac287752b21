/** The health gate of an instance, and what the log of Docker's answers says about the instances of a run. */
module GraphGates {
  import opened Options
  import opened Lists
  import opened GraphModel

  // ---- the gate ----

  /** The answers with which an instance is provisioned: the profile's commands, if it has any, succeed. */
  function Provisioned(c: Component, id: string): seq<Check> {
    if c.provisions then [Ran(id, Provision, true), Ran(id, Verify, true)] else []
  }

  /** The answers with which an instance passes: it is healthy, and is provisioned. */
  function Gate(c: Component, id: string): seq<Check> {
    [Probed(id, true)] + Provisioned(c, id)
  }

  predicate Fails(check: Check) {
    match check
    case Inspected(_, _, _) => false
    case Bound(_, _, _) => false
    case Started(_, ok) => !ok
    case Probed(_, healthy) => !healthy
    case Ran(_, _, passed) => !passed
  }

  /** The candidate exists, was started if it was not running, and then passed its gate. */
  ghost predicate CandidatePasses(before: seq<Check>, after: seq<Check>, c: Component, id: string) {
    || after == before + [Inspected(id, true, true)] + Gate(c, id)
    || after == before + [Inspected(id, true, false), Started(id, true)] + Gate(c, id)
  }

  /** The candidate's container is gone, or its last probe failed. */
  ghost predicate CandidateRejected(before: seq<Check>, after: seq<Check>, id: string) {
    |before| < |after| && IsRejection(after[|after| - 1], id)
  }

  /** A candidate's container was found to be gone, or its probe failed. */
  ghost predicate WasRejected(checks: seq<Check>, from: nat, id: string) {
    exists i :: from <= i < |checks| && IsRejection(checks[i], id)
  }

  predicate IsRejection(check: Check, id: string) {
    check == Inspected(id, false, false) || check == Probed(id, false)
  }

  ghost predicate AllRejected(checks: seq<Check>, from: nat, list: seq<Row>) {
    forall i :: 0 <= i < |list| ==> WasRejected(checks, from, list[i].id)
  }

  lemma {:induction false} RejectedMore(before: seq<Check>, after: seq<Check>, from: nat, list: seq<Row>, i: nat)
    requires i < |list| && from <= |before| <= |after| && before <= after && AllRejected(before, from, list[..i])
    requires CandidateRejected(before, after, list[i].id)
    ensures AllRejected(after, from, list[..i + 1])
  {
    forall j | 0 <= j <= i ensures WasRejected(after, from, list[j].id) {
      if j < i {
        assert list[..i][j] == list[j] && WasRejected(before, from, list[..i][j].id);
        var k :| from <= k < |before| && IsRejection(before[k], list[j].id);
        assert after[k] == before[k];
      }
    }
  }

  lemma {:induction false} RejectedStill(before: seq<Check>, after: seq<Check>, from: nat, list: seq<Row>)
    requires before <= after && AllRejected(before, from, list)
    ensures AllRejected(after, from, list)
  {
    forall j | 0 <= j < |list| ensures WasRejected(after, from, list[j].id) {
      assert WasRejected(before, from, list[j].id);
      var k :| from <= k < |before| && IsRejection(before[k], list[j].id);
      assert after[k] == before[k];
    }
  }

  /** All that was heard since are inspections. */
  ghost predicate Inspections(before: seq<Check>, after: seq<Check>) {
    before <= after && forall i :: |before| <= i < |after| ==> after[i].Inspected? || after[i].Bound?
  }

  /** A published service is reached through a port of each container, unless they use the host's network. */
  predicate NeedsPort(service: Service) {
    service.published && !service.hostNetwork
  }

  ghost predicate PortsFound(checks: seq<Check>, from: nat, service: Service, instances: seq<Row>) {
    NeedsPort(service) ==> forall i :: 0 <= i < |instances| ==> PortFound(checks, from, service, instances[i].id)
  }

  ghost predicate PortFound(checks: seq<Check>, from: nat, service: Service, id: string) {
    exists k :: from <= k < |checks| && checks[k] == Bound(id, service.id, true)
  }

  ghost predicate AllPortsFound(checks: seq<Check>, from: nat, services: seq<Service>, k: nat, current: seq<Row>)
    requires k <= |services|
  {
    forall s :: 0 <= s < k ==> PortsFound(checks, from, services[s], OfComponent(current, services[s].component))
  }

  lemma {:induction false} PortsMore(b: seq<Check>, a: seq<Check>, from: nat, service: Service, instances: seq<Row>,
                                     i: nat)
    requires i < |instances| && from <= |b| && b <= a && PortsFound(b, from, service, instances[..i])
    requires NeedsPort(service) ==> PortFound(a, |b|, service, instances[i].id)
    ensures PortsFound(a, from, service, instances[..i + 1])
  {
    if NeedsPort(service) {
      forall j | 0 <= j <= i ensures PortFound(a, from, service, instances[j].id) {
        if j < i {
          assert PortFound(b, from, service, instances[..i][j].id);
          var k :| from <= k < |b| && b[k] == Bound(instances[j].id, service.id, true);
          assert a[k] == b[k];
        } else {
          var k :| |b| <= k < |a| && a[k] == Bound(instances[i].id, service.id, true);
        }
      }
    }
  }

  lemma {:induction false} PortsLater(b: seq<Check>, a: seq<Check>, from: nat, early: nat, service: Service,
                                      instances: seq<Row>)
    requires b <= a && early <= from && PortsFound(b, from, service, instances)
    ensures PortsFound(a, early, service, instances)
  {
    if NeedsPort(service) {
      forall i | 0 <= i < |instances| ensures PortFound(a, early, service, instances[i].id) {
        assert PortFound(b, from, service, instances[i].id);
        var k :| from <= k < |b| && b[k] == Bound(instances[i].id, service.id, true);
        assert a[k] == b[k];
      }
    }
  }

  lemma {:induction false} PortsStay(b: seq<Check>, a: seq<Check>, from: nat, services: seq<Service>, k: nat,
                                     current: seq<Row>)
    requires k <= |services| && b <= a && AllPortsFound(b, from, services, k, current)
    ensures AllPortsFound(a, from, services, k, current)
  {
    forall s | 0 <= s < k ensures PortsFound(a, from, services[s], OfComponent(current, services[s].component)) {
      PortsLater(b, a, from, from, services[s], OfComponent(current, services[s].component));
    }
  }

  lemma {:induction false} AllPortsMore(b: seq<Check>, a: seq<Check>, from: nat, services: seq<Service>, k: nat,
                                        current: seq<Row>)
    requires k < |services| && from <= |b| && b <= a && AllPortsFound(b, from, services, k, current)
    requires PortsFound(a, |b|, services[k], OfComponent(current, services[k].component))
    ensures AllPortsFound(a, from, services, k + 1, current)
  {
    forall s | 0 <= s <= k ensures PortsFound(a, from, services[s], OfComponent(current, services[s].component)) {
      var own := OfComponent(current, services[s].component);
      if s < k {
        PortsLater(b, a, from, from, services[s], own);
      } else {
        PortsLater(a, a, |b|, from, services[s], own);
      }
    }
  }

  /** All that was heard since is about this container. */
  ghost predicate HeardOnly(before: seq<Check>, after: seq<Check>, id: string) {
    before <= after && forall i :: |before| <= i < |after| ==> after[i].id == id
  }

  /** Since place `from` of the log the instance has passed its gate, and nothing about it has failed. */
  ghost predicate Passed(checks: seq<Check>, from: nat, c: Component, id: string) {
    (exists k: nat :: PassedAt(checks, from, c, id, k)) && NoneFails(checks, from, id)
  }

  ghost predicate PassedAt(checks: seq<Check>, from: nat, c: Component, id: string, k: nat) {
    from <= k && k + |Gate(c, id)| <= |checks| && checks[k..k + |Gate(c, id)|] == Gate(c, id)
  }

  ghost predicate NoneFails(checks: seq<Check>, from: nat, id: string) {
    forall i :: from <= i < |checks| && checks[i].id == id ==> !Fails(checks[i])
  }

  lemma {:induction false} GatePasses(before: seq<Check>, head: seq<Check>, c: Component, id: string)
    requires forall i :: 0 <= i < |head| ==> !Fails(head[i])
    ensures Passed(before + head + Gate(c, id), |before|, c, id)
  {
    var all := before + head + Gate(c, id);
    assert PassedAt(all, |before|, c, id, |before| + |head|);
    forall i | |before| <= i < |all| ensures !Fails(all[i]) {
      if i < |before| + |head| { assert all[i] == head[i - |before|]; }
      else { assert all[i] == Gate(c, id)[i - |before| - |head|]; }
    }
  }

  lemma {:induction false} CandidatePassed(before: seq<Check>, after: seq<Check>, c: Component, id: string)
    requires CandidatePasses(before, after, c, id)
    ensures Passed(after, |before|, c, id)
  {
    if after == before + [Inspected(id, true, true)] + Gate(c, id) {
      GatePasses(before, [Inspected(id, true, true)], c, id);
    } else {
      GatePasses(before, [Inspected(id, true, false), Started(id, true)], c, id);
    }
  }

  /** More answers about others change nothing. */
  lemma {:induction false} PassedStill(before: seq<Check>, after: seq<Check>, from: nat, c: Component, id: string)
    requires Passed(before, from, c, id) && before <= after
    requires forall i :: |before| <= i < |after| ==> after[i].id != id
    ensures Passed(after, from, c, id)
  {
    var k: nat :| PassedAt(before, from, c, id, k);
    assert after[k..k + |Gate(c, id)|] == before[k..k + |Gate(c, id)|];
    assert PassedAt(after, from, c, id, k);
    forall i | from <= i < |after| && after[i].id == id ensures !Fails(after[i]) {
      assert i < |before| && after[i] == before[i];
    }
  }

  /** Nor do inspections. */
  lemma {:induction false} PassedInspected(before: seq<Check>, after: seq<Check>, from: nat, c: Component, id: string)
    requires Passed(before, from, c, id) && Inspections(before, after)
    ensures Passed(after, from, c, id)
  {
    var k: nat :| PassedAt(before, from, c, id, k);
    assert after[k..k + |Gate(c, id)|] == before[k..k + |Gate(c, id)|];
    assert PassedAt(after, from, c, id, k);
    forall i | from <= i < |after| && after[i].id == id ensures !Fails(after[i]) {
      if i < |before| { assert after[i] == before[i]; }
    }
  }

  /** And so do earlier ones. */
  lemma {:induction false} PassedSince(checks: seq<Check>, early: nat, from: nat, c: Component, id: string)
    requires early <= from && Passed(checks, from, c, id)
    requires forall i :: early <= i < from && i < |checks| ==> checks[i].id != id
    ensures Passed(checks, early, c, id)
  {
    var k: nat :| PassedAt(checks, from, c, id, k);
    assert PassedAt(checks, early, c, id, k);
  }

  // ---- the instances of a run ----

  /** Since `b` the instance has passed its gate; and it is new, or is not to be replaced. */
  ghost predicate Vouched(ctx: Context, b: Pool, a: Pool, r: Row) {
    && r.component in ctx.components && Passed(a.checks, |b.checks|, ctx.components[r.component], r.id)
    && (HasId(a.created, |b.created|, r.id) || !Forced(ctx, r))
  }

  ghost predicate AllVouched(ctx: Context, b: Pool, a: Pool, selected: seq<Row>) {
    forall i :: 0 <= i < |selected| ==> Vouched(ctx, b, a, selected[i])
  }

  /** Everything that has been created since `b` has passed its gate. */
  ghost predicate CreatedVouched(ctx: Context, b: Pool, a: Pool) {
    forall i :: |b.created| <= i < |a.created| ==> Vouched(ctx, b, a, a.created[i])
  }

  /** All that was heard since `b` is about instances in one of these slots of the component. */
  ghost predicate HeardAt(b: Pool, a: Pool, component: string, slots: seq<string>) {
    && b.checks <= a.checks
    && forall i :: |b.checks| <= i < |a.checks| ==> IsAt(a.rows, a.checks[i].id, component, slots)
  }

  ghost predicate IsAt(rows: Rows, id: string, component: string, slots: seq<string>) {
    id in rows && rows[id].component == component && rows[id].slot in slots
  }

  ghost predicate HeardOf(b: Pool, a: Pool, names: seq<string>) {
    b.checks <= a.checks && forall i :: |b.checks| <= i < |a.checks| ==> IsOf(a.rows, a.checks[i].id, names)
  }

  ghost predicate IsOf(rows: Rows, id: string, names: seq<string>) {
    id in rows && rows[id].component in names
  }

  lemma {:induction false} HeardThen(b: Pool, m: Pool, a: Pool, component: string, slots: seq<string>, slot: string)
    requires HeardAt(b, m, component, slots) && HeardAt(m, a, component, [slot]) && Evolved(m.rows, a.rows)
    ensures HeardAt(b, a, component, slots + [slot])
  {
    forall i | |b.checks| <= i < |a.checks| ensures IsAt(a.rows, a.checks[i].id, component, slots + [slot]) {
      if i < |m.checks| {
        assert a.checks[i] == m.checks[i] && IsAt(m.rows, m.checks[i].id, component, slots);
      } else {
        assert IsAt(a.rows, a.checks[i].id, component, [slot]);
      }
    }
  }

  lemma {:induction false} HeardOfThen(b: Pool, m: Pool, a: Pool, names: seq<string>, component: string,
                                       slots: seq<string>)
    requires HeardOf(b, m, names) && HeardAt(m, a, component, slots) && Evolved(m.rows, a.rows)
    ensures HeardOf(b, a, names + [component])
  {
    forall i | |b.checks| <= i < |a.checks| ensures IsOf(a.rows, a.checks[i].id, names + [component]) {
      if i < |m.checks| {
        assert a.checks[i] == m.checks[i] && IsOf(m.rows, m.checks[i].id, names);
      } else {
        assert IsAt(a.rows, a.checks[i].id, component, slots);
      }
    }
  }

  /** What is vouched for stays so while others are heard of. */
  lemma {:induction false} VouchedStill(ctx: Context, b: Pool, m: Pool, a: Pool, r: Row)
    requires Vouched(ctx, b, m, r) && m.created <= a.created && m.checks <= a.checks
    requires forall i :: |m.checks| <= i < |a.checks| ==> a.checks[i].id != r.id
    ensures Vouched(ctx, b, a, r)
  {
    PassedStill(m.checks, a.checks, |b.checks|, ctx.components[r.component], r.id);
    CreatedStill(m.created, a.created, |b.created|, r.id);
  }

  /** What is vouched for since a later point is so since an earlier one. */
  lemma {:induction false} VouchedSince(ctx: Context, b: Pool, m: Pool, a: Pool, r: Row)
    requires Vouched(ctx, m, a, r) && b.created <= m.created <= a.created && b.checks <= m.checks <= a.checks
    requires forall i :: |b.checks| <= i < |m.checks| ==> m.checks[i].id != r.id
    ensures Vouched(ctx, b, a, r)
  {
    PassedSince(a.checks, |b.checks|, |m.checks|, ctx.components[r.component], r.id);
    CreatedStill(b.created, a.created, |b.created|, r.id);
    if HasId(a.created, |m.created|, r.id) {
      var i :| |m.created| <= i < |a.created| && a.created[i].id == r.id;
    }
  }

  /** Inspections leave what is vouched for. */
  lemma {:induction false} AllInspected(ctx: Context, b: Pool, m: Pool, a: Pool, selected: seq<Row>)
    requires AllVouched(ctx, b, m, selected) && CreatedVouched(ctx, b, m)
    requires a.created == m.created && Inspections(m.checks, a.checks)
    ensures AllVouched(ctx, b, a, selected) && CreatedVouched(ctx, b, a)
  {
    forall i | 0 <= i < |selected| ensures Vouched(ctx, b, a, selected[i]) {
      assert Vouched(ctx, b, m, selected[i]);
      var c := ctx.components[selected[i].component];
      PassedInspected(m.checks, a.checks, |b.checks|, c, selected[i].id);
    }
    forall i | |b.created| <= i < |a.created| ensures Vouched(ctx, b, a, a.created[i]) {
      assert Vouched(ctx, b, m, m.created[i]);
      var c := ctx.components[a.created[i].component];
      PassedInspected(m.checks, a.checks, |b.checks|, c, a.created[i].id);
    }
  }

  // ---- one slot ----

  /** A candidate that passes after others of the slot have been tried. */
  lemma {:induction false} PickedGate(ctx: Context, b: Pool, m: Pool, a: Pool, c: Component, slot: string,
                                      candidates: seq<Row>, i: nat, ready: Row)
    requires InGraph(ctx, c) && i < |candidates| && DistinctRows(candidates)
    requires b.created <= m.created <= a.created && b.checks <= m.checks
    requires forall j :: |b.checks| <= j < |m.checks| ==> m.checks[j].id in Ids(candidates[..i])
    requires CandidatePasses(m.checks, a.checks, c, candidates[i].id) && !Forced(ctx, candidates[i])
    requires ready == candidates[i].(status := Ready) && ready.component == c.name
    ensures Vouched(ctx, b, a, ready)
  {
    CandidatePassed(m.checks, a.checks, c, ready.id);
    forall j | |b.checks| <= j < |m.checks| ensures m.checks[j].id != ready.id {
      assert m.checks[j].id in Ids(candidates[..i]);
      var k :| 0 <= k < i && Ids(candidates[..i])[k] == m.checks[j].id;
      assert candidates[k].id != candidates[i].id;
    }
    PassedSince(a.checks, |b.checks|, |m.checks|, c, ready.id);
  }

  /** A new instance that passes. */
  lemma {:induction false} NewGate(ctx: Context, b: Pool, a: Pool, c: Component, slot: string, ready: Row)
    requires InGraph(ctx, c) && ready.component == c.name && a.created == b.created + [ready]
    requires a.checks == b.checks + [Started(ready.id, true)] + Gate(c, ready.id)
    ensures Vouched(ctx, b, a, ready)
  {
    GatePasses(b.checks, [Started(ready.id, true)], c, ready.id);
    assert a.created[|b.created|].id == ready.id;
  }

  lemma {:induction false} HeardOnlyAt(b: Pool, a: Pool, component: string, slot: string, id: string)
    requires HeardOnly(b.checks, a.checks, id) && (a.checks == b.checks || IsAt(a.rows, id, component, [slot]))
    ensures HeardAt(b, a, component, [slot])
  {}

  lemma {:induction false} HeardSlot(b: Pool, m: Pool, a: Pool, component: string, slot: string)
    requires HeardAt(b, m, component, [slot]) && HeardAt(m, a, component, [slot]) && Evolved(m.rows, a.rows)
    ensures HeardAt(b, a, component, [slot])
  {
    forall i | |b.checks| <= i < |a.checks| ensures IsAt(a.rows, a.checks[i].id, component, [slot]) {
      if i < |m.checks| {
        assert a.checks[i] == m.checks[i] && IsAt(m.rows, m.checks[i].id, component, [slot]);
      } else {
        assert IsAt(a.rows, a.checks[i].id, component, [slot]);
      }
    }
  }

  /** No candidate passes, and then a new instance is made. */
  lemma {:induction false} SlotGateThen(ctx: Context, b: Pool, m: Pool, a: Pool, component: string, slot: string,
                                        ok: bool, ready: Row)
    requires HeardAt(b, m, component, [slot]) && SlotGate(ctx, m, a, component, slot, ok, ready)
    requires b.created <= m.created <= a.created && Evolved(m.rows, a.rows) && (ok ==> ready.id !in m.rows)
    ensures SlotGate(ctx, b, a, component, slot, ok, ready)
  {
    HeardSlot(b, m, a, component, slot);
    if ok {
      forall j | |b.checks| <= j < |m.checks| ensures m.checks[j].id != ready.id {
        assert IsAt(m.rows, m.checks[j].id, component, [slot]);
      }
      VouchedSince(ctx, b, m, a, ready);
    }
  }

  lemma {:induction false} HeardAmong(b: Pool, a: Pool, component: string, slots: seq<string>, all: seq<string>)
    requires HeardAt(b, a, component, slots) && forall s :: s in slots ==> s in all
    ensures HeardAt(b, a, component, all)
  {
    forall i | |b.checks| <= i < |a.checks| ensures IsAt(a.rows, a.checks[i].id, component, all) {
      assert IsAt(a.rows, a.checks[i].id, component, slots);
    }
  }

  // ---- one slot more ----

  /** What one slot adds. */
  ghost predicate SlotGate(ctx: Context, b: Pool, a: Pool, component: string, slot: string, ok: bool, r: Row) {
    HeardAt(b, a, component, [slot]) && (ok ==> Vouched(ctx, b, a, r))
  }

  /** What the first slots of a component have added. */
  ghost predicate SlotGates(ctx: Context, b: Pool, a: Pool, component: string, slots: seq<string>, selected: seq<Row>) {
    HeardAt(b, a, component, slots) && AllVouched(ctx, b, a, selected)
  }

  /** What a component that fails leaves. */
  ghost predicate GatesLeft(ctx: Context, b: Pool, a: Pool, component: string, slots: seq<string>) {
    HeardAt(b, a, component, slots) && CreatedVouched(ctx, b, a)
  }

  lemma {:induction false} SelectedStay(ctx: Context, b: Pool, m: Pool, a: Pool, component: string, slots: seq<string>,
                                        slot: string, selected: seq<Row>)
    requires SlotGates(ctx, b, m, component, slots, selected) && HeardAt(m, a, component, [slot])
    requires m.created <= a.created && Evolved(m.rows, a.rows)
    requires forall i :: 0 <= i < |selected| ==> IsAt(m.rows, selected[i].id, component, slots)
    requires slot !in slots
    ensures AllVouched(ctx, b, a, selected)
  {
    forall i | 0 <= i < |selected| ensures Vouched(ctx, b, a, selected[i]) {
      assert Vouched(ctx, b, m, selected[i]) && IsAt(m.rows, selected[i].id, component, slots);
      forall j | |m.checks| <= j < |a.checks| ensures a.checks[j].id != selected[i].id {
        assert IsAt(a.rows, a.checks[j].id, component, [slot]);
      }
      VouchedStill(ctx, b, m, a, selected[i]);
    }
  }

  lemma {:induction false} NextGate(ctx: Context, b: Pool, m: Pool, a: Pool, component: string, slots: seq<string>,
                                    slot: string, selected: seq<Row>, ready: Row)
    requires SlotGates(ctx, b, m, component, slots, selected) && SlotGate(ctx, m, a, component, slot, true, ready)
    requires b.created <= m.created <= a.created && Evolved(m.rows, a.rows) && slot !in slots
    requires forall i :: 0 <= i < |selected| ==> IsAt(m.rows, selected[i].id, component, slots)
    requires IsAt(a.rows, ready.id, component, [slot])
    ensures SlotGates(ctx, b, a, component, slots + [slot], selected + [ready])
  {
    HeardThen(b, m, a, component, slots, slot);
    SelectedStay(ctx, b, m, a, component, slots, slot, selected);
    forall j | |b.checks| <= j < |m.checks| ensures m.checks[j].id != ready.id {
      assert IsAt(m.rows, m.checks[j].id, component, slots);
    }
    VouchedSince(ctx, b, m, a, ready);
    forall i | 0 <= i < |selected + [ready]| ensures Vouched(ctx, b, a, (selected + [ready])[i]) {
      if i < |selected| { assert Vouched(ctx, b, a, selected[i]); }
    }
  }

  lemma {:induction false} GateFails(ctx: Context, b: Pool, m: Pool, a: Pool, component: string, slots: seq<string>,
                                     slot: string, selected: seq<Row>)
    requires SlotGates(ctx, b, m, component, slots, selected) && HeardAt(m, a, component, [slot])
    requires b.created <= m.created == a.created && Evolved(m.rows, a.rows) && slot !in slots
    requires forall i :: 0 <= i < |selected| ==> IsAt(m.rows, selected[i].id, component, slots)
    requires CreatedAmong(m.created, |b.created|, selected)
    ensures GatesLeft(ctx, b, a, component, slots + [slot])
  {
    HeardThen(b, m, a, component, slots, slot);
    SelectedStay(ctx, b, m, a, component, slots, slot, selected);
    SelectedVouch(ctx, b, a, selected);
  }

  lemma SelectedVouch(ctx: Context, b: Pool, a: Pool, selected: seq<Row>)
    requires AllVouched(ctx, b, a, selected) && CreatedAmong(a.created, |b.created|, selected)
    ensures CreatedVouched(ctx, b, a)
  {
    forall i | |b.created| <= i < |a.created| ensures Vouched(ctx, b, a, a.created[i]) {
      assert a.created[i] in selected;
      var k :| 0 <= k < |selected| && selected[k] == a.created[i];
      assert Vouched(ctx, b, a, selected[k]);
    }
  }

  // ---- one component more ----

  /** What the components before have added. */
  ghost predicate RunGates(ctx: Context, b: Pool, a: Pool, names: seq<string>, current: seq<Row>) {
    HeardOf(b, a, names) && AllVouched(ctx, b, a, current)
  }

  /** What a run that fails leaves. */
  ghost predicate RunGatesLeft(ctx: Context, b: Pool, a: Pool, names: seq<string>) {
    HeardOf(b, a, names) && CreatedVouched(ctx, b, a)
  }

  lemma {:induction false} CurrentStay(ctx: Context, b: Pool, m: Pool, a: Pool, names: seq<string>, component: string,
                                       slots: seq<string>, current: seq<Row>)
    requires RunGates(ctx, b, m, names, current) && HeardAt(m, a, component, slots)
    requires m.created <= a.created && Evolved(m.rows, a.rows)
    requires forall i :: 0 <= i < |current| ==> IsOf(m.rows, current[i].id, names)
    requires component !in names
    ensures AllVouched(ctx, b, a, current)
  {
    forall i | 0 <= i < |current| ensures Vouched(ctx, b, a, current[i]) {
      assert Vouched(ctx, b, m, current[i]) && IsOf(m.rows, current[i].id, names);
      forall j | |m.checks| <= j < |a.checks| ensures a.checks[j].id != current[i].id {
        assert IsAt(a.rows, a.checks[j].id, component, slots);
      }
      VouchedStill(ctx, b, m, a, current[i]);
    }
  }

  lemma {:induction false} Since(ctx: Context, b: Pool, m: Pool, a: Pool, names: seq<string>, component: string, r: Row)
    requires HeardOf(b, m, names) && Vouched(ctx, m, a, r) && component !in names && Evolved(m.rows, a.rows)
    requires b.created <= m.created <= a.created && m.checks <= a.checks
    requires r.id in a.rows && a.rows[r.id].component == component
    ensures Vouched(ctx, b, a, r)
  {
    forall j | |b.checks| <= j < |m.checks| ensures m.checks[j].id != r.id {
      assert IsOf(m.rows, m.checks[j].id, names);
    }
    VouchedSince(ctx, b, m, a, r);
  }

  lemma {:induction false} NextGates(ctx: Context, b: Pool, m: Pool, a: Pool, names: seq<string>, component: string,
                                     slots: seq<string>, current: seq<Row>, selected: seq<Row>)
    requires RunGates(ctx, b, m, names, current) && SlotGates(ctx, m, a, component, slots, selected)
    requires b.created <= m.created <= a.created && Evolved(m.rows, a.rows) && component !in names
    requires forall i :: 0 <= i < |current| ==> IsOf(m.rows, current[i].id, names)
    requires forall i :: 0 <= i < |selected| ==> IsOf(a.rows, selected[i].id, [component])
    ensures RunGates(ctx, b, a, names + [component], current + selected)
  {
    HeardOfThen(b, m, a, names, component, slots);
    CurrentStay(ctx, b, m, a, names, component, slots, current);
    var all := current + selected;
    forall i | 0 <= i < |all| ensures Vouched(ctx, b, a, all[i]) {
      if i < |current| {
        assert Vouched(ctx, b, a, current[i]);
      } else {
        var r := selected[i - |current|];
        assert Vouched(ctx, m, a, r) && IsOf(a.rows, r.id, [component]);
        Since(ctx, b, m, a, names, component, r);
      }
    }
  }

  lemma {:induction false} GatesFail(ctx: Context, b: Pool, m: Pool, a: Pool, names: seq<string>, component: string,
                                     slots: seq<string>, current: seq<Row>)
    requires RunGates(ctx, b, m, names, current) && GatesLeft(ctx, m, a, component, slots)
    requires b.created <= m.created <= a.created && Evolved(m.rows, a.rows) && component !in names
    requires forall i :: 0 <= i < |current| ==> IsOf(m.rows, current[i].id, names)
    requires CreatedAmong(m.created, |b.created|, current)
    requires forall i :: |m.created| <= i < |a.created| ==> IsOf(a.rows, a.created[i].id, [component])
    ensures RunGatesLeft(ctx, b, a, names + [component])
  {
    HeardOfThen(b, m, a, names, component, slots);
    CurrentStay(ctx, b, m, a, names, component, slots, current);
    forall i | |b.created| <= i < |a.created| ensures Vouched(ctx, b, a, a.created[i]) {
      if i < |m.created| {
        assert a.created[i] == m.created[i] && m.created[i] in current;
        var k :| 0 <= k < |current| && current[k] == m.created[i];
        assert Vouched(ctx, b, a, current[k]);
      } else {
        assert Vouched(ctx, m, a, a.created[i]) && IsOf(a.rows, a.created[i].id, [component]);
        Since(ctx, b, m, a, names, component, a.created[i]);
      }
    }
  }
}
