/** The volume binding of a component with a profile, through logical restore, major upgrade and rollback.

    A restore fills a fresh staging volume and then converges the graph on it; a rollback converges the
    graph on the volume that the binding preserves. The binding is committed inside convergence, after
    the jobs and before any endpoint is published.
 */
module ProfileVolumes {
  import opened Options
  import GraphModel
  import GraphRecovery

  datatype Binding = Binding(active: string, rollback: Option<string>, activeOperation: string,
                             rollbackOperation: Option<string>, activeSpec: string, rollbackSpec: Option<string>)

  /** A container and the volume that it mounts. */
  datatype Mount = Mount(container: string, volume: string)

  /** The binding of the component, Docker's volumes and what is mounted. `standard` is the name of the
      volume that is used as long as there is no binding. */
  datatype State = State(binding: Option<Binding>, volumes: set<string>, mounts: set<Mount>, standard: string)

  predicate Mounted(s: State, volume: string) {
    exists m :: m in s.mounts && m.volume == volume
  }

  /** The volumes that the binding names, or else the standard volume. */
  predicate Safe(s: State) {
    match s.binding
    case None => s.standard in s.volumes
    case Some(b) => b.active in s.volumes && (b.rollback.Some? ==> b.rollback.value in s.volumes)
  }

  // ---- what the world outside does in one convergence ----

  /** `instances` are the containers that the components' slots get on the volume, `made` those of them
      that were created before materialization failed. `restores` says whether the store manages to put
      the previous binding back, `removed` which containers Docker removes in the end, and `inspected`
      whether the inspection after the guarded part succeeds. */
  datatype World = World(begins: bool, instances: set<string>, made: set<string>, materializes: bool, commits: bool,
                         external: bool, publishes: bool, restores: bool, removed: set<string>, retired: set<string>,
                         inspected: bool, removesVolume: bool)

  datatype Outcome = Threw | Returned

  function WithMounts(s: State, containers: set<string>, volume: string): State {
    s.(volumes := s.volumes + {volume}, mounts := s.mounts + set c | c in containers :: Mount(c, volume))
  }

  function WithoutContainers(s: State, containers: set<string>): State {
    s.(mounts := set m | m in s.mounts && m.container !in containers)
  }

  /** Docker refuses to remove a volume that is mounted. */
  function RemoveVolume(s: State, volume: string, works: bool): State {
    if works && !Mounted(s, volume) then s.(volumes := s.volumes - {volume}) else s
  }

  /** The binding after `restoreProfileVolumeBinding`. */
  function PutBack(s: State, previous: Option<Binding>, w: World): State {
    if w.restores then s.(binding := previous) else s
  }

  /** `converge` with the commit and rollback of `convergeProfileTransition`. */
  function Transition(s: State, volume: string, next: Binding, w: World): (State, Outcome) {
    if !w.begins then (s.(volumes := s.volumes + {volume}), Threw)
    else if !w.materializes then (WithoutContainers(WithMounts(s, w.made * w.instances, volume), w.removed), Threw)
    else
      var ready := WithMounts(s, w.instances, volume);
      if !w.commits then (WithoutContainers(ready, w.removed), Threw)
      else
        var committed := ready.(binding := Some(next));
        if !w.external || !w.publishes then
          var gone := w.removed + if w.external then w.retired - w.instances else {};
          (WithoutContainers(PutBack(committed, s.binding, w), gone), Threw)
        else
          (WithoutContainers(committed, w.retired - w.instances), if w.inspected then Returned else Threw)
  }

  // ---- the operations ----

  /** How the staging volume is filled: `Ensure`: nothing was created; `Providers`: the preparation before
      the bootstrap container failed; `Bootstrap`: the container, if it was created, or a step inside it
      failed; `Cleanup`: only the final removal of the container failed; `Filled`: all went well. */
  datatype Filling =
    | Ensure
    | Providers(removesVolume: bool)
    | Bootstrap(created: bool, removesContainer: bool, removesVolume: bool)
    | Cleanup
    | Filled

  datatype Request = Request(id: string, staging: string, bootstrap: string, sourceSpec: string, targetSpec: string)

  function SourceVolume(s: State): string {
    if s.binding.Some? then s.binding.value.active else s.standard
  }

  function RestoredBinding(s: State, r: Request): Binding {
    Binding(r.staging, Some(SourceVolume(s)), r.id,
            if s.binding.Some? then Some(s.binding.value.activeOperation) else None,
            r.targetSpec, Some(r.sourceSpec))
  }

  /** The staging volume after its filling. */
  function Fill(s: State, r: Request, f: Filling): State {
    match f
    case Ensure => s
    case Providers(removes) => RemoveVolume(s.(volumes := s.volumes + {r.staging}), r.staging, removes)
    case Bootstrap(created, removesContainer, removes) =>
      var begun := if created then WithMounts(s, {r.bootstrap}, r.staging) else s.(volumes := s.volumes + {r.staging});
      var cleaned := if created && removesContainer then WithoutContainers(begun, {r.bootstrap}) else begun;
      RemoveVolume(cleaned, r.staging, removes)
    case Cleanup => WithMounts(s, {r.bootstrap}, r.staging)
    case Filled => WithoutContainers(WithMounts(s, {r.bootstrap}, r.staging), {r.bootstrap})
  }

  /** `restoreLogicalArchive`, with which a logical restore and a major upgrade end. */
  function Restore(s: State, r: Request, f: Filling, w: World): (State, Outcome) {
    var filled := Fill(s, r, f);
    if !f.Filled? then (filled, Threw)
    else
      var done := Transition(filled, r.staging, RestoredBinding(s, r), w);
      if done.1 == Threw then (RemoveVolume(done.0, r.staging, w.removesVolume), Threw) else done
  }

  function RolledBack(b: Binding, r: Request): Binding
    requires b.rollback.Some?
  {
    Binding(b.rollback.value, Some(b.active), r.id, Some(b.activeOperation), r.targetSpec, Some(r.sourceSpec))
  }

  /** What `executeLogicalRollback` demands before it does anything. */
  predicate CanRollBack(s: State, r: Request) {
    && s.binding.Some? && s.binding.value.rollback.Some? && s.binding.value.rollbackSpec == Some(r.targetSpec)
    && s.binding.value.rollback.value in s.volumes
  }

  /** `executeLogicalRollback` */
  function Rollback(s: State, r: Request, w: World): (State, Outcome) {
    if !CanRollBack(s, r) then (s, Threw)
    else Transition(s, s.binding.value.rollback.value, RolledBack(s.binding.value, r), w)
  }

  // ---- safety ----

  /** The names that an operation makes up are not in use. */
  predicate Fresh(s: State, r: Request) {
    r.staging !in s.volumes && r.staging != s.standard && !Mounted(s, r.staging)
    && (forall m :: m in s.mounts ==> m.container != r.bootstrap)
  }

  /** The commit was made, the run then failed, the store could not put the previous binding back, and Docker
      has removed everything that mounted the staging volume, and then the volume. */
  predicate Dangles(w: World) {
    && w.begins && w.materializes && w.commits && !(w.external && w.publishes)
    && !w.restores && w.instances <= w.removed && w.removesVolume
  }

  /** From a safe state, with fresh names and a target that has an instance, as every accepted specification has,
      a logical restore or a major upgrade keeps every volume that the binding names, whatever fails, except in
      exactly that case. */
  lemma RestoreIsSafe(s: State, r: Request, f: Filling, w: World)
    requires Safe(s) && Fresh(s, r) && w.instances != {}
    ensures Safe(Restore(s, r, f, w).0) <==> !(f.Filled? && Dangles(w))
  {
    var filled := Fill(s, r, f);
    FillKeeps(s, r, f);
    if f.Filled? {
      var next := RestoredBinding(s, r);
      TransitionMounts(filled, r.staging, next, w);
      var done := Transition(filled, r.staging, next, w);
      assert next.rollback.value == SourceVolume(s) && SourceVolume(s) in s.volumes && SourceVolume(s) != r.staging;
    }
  }

  /** It happens: a store that fails while the catch block runs. */
  lemma DanglingBinding()
    ensures var s := State(None, {"data"}, {}, "data");
            var r := Request("1", "stage", "boot", "old", "new");
            var w := World(true, {"db"}, {}, true, true, true, false, false, {"db"}, {}, true, true);
            Safe(s) && Fresh(s, r) && w.instances != {} && !Safe(Restore(s, r, Filled, w).0)
  {
    var s := State(None, {"data"}, {}, "data");
    var r := Request("1", "stage", "boot", "old", "new");
    RestoreIsSafe(s, r, Filled, World(true, {"db"}, {}, true, true, true, false, false, {"db"}, {}, true, true));
  }

  lemma FillKeeps(s: State, r: Request, f: Filling)
    requires Fresh(s, r)
    ensures var t := Fill(s, r, f);
            && t.binding == s.binding && t.standard == s.standard && s.volumes <= t.volumes <= s.volumes + {r.staging}
            && (f.Filled? ==> r.staging in t.volumes && !Mounted(t, r.staging))
  {}

  /** After a transition that threw, the volume is mounted exactly when one of its containers is left. */
  lemma TransitionMounts(s: State, volume: string, next: Binding, w: World)
    requires !Mounted(s, volume)
    ensures var t := Transition(s, volume, next, w);
            Mounted(t.0, volume) <==> exists c :: c in Left(w)
  {
    var t := Transition(s, volume, next, w).0;
    forall c | c in Left(w) ensures Mounted(t, volume) { assert Mount(c, volume) in t.mounts; }
    if Mounted(t, volume) {
      var m :| m in t.mounts && m.volume == volume;
      assert m.container in Left(w);
    }
  }

  /** The containers on the volume that a convergence leaves behind. */
  function Left(w: World): set<string> {
    if !w.begins then {}
    else if !w.materializes then w.made * w.instances - w.removed
    else if !w.commits then w.instances - w.removed
    else if !w.external || !w.publishes then w.instances - w.removed
    else w.instances
  }

  /** A rollback removes no volume and never leaves a binding whose volumes are gone, whatever fails. */
  lemma RollbackIsSafe(s: State, r: Request, w: World)
    requires Safe(s)
    ensures Safe(Rollback(s, r, w).0) && s.volumes <= Rollback(s, r, w).0.volumes
  {}

  /** The convergence went far enough for the new binding to stay: to the end of its guarded part, or past
      the commit with a store that could not put the previous binding back. */
  predicate Committed(w: World) {
    w.begins && w.materializes && w.commits && ((w.external && w.publishes) || !w.restores)
  }

  /** A failure inside the guarded part leaves the previous binding in force, unless the store could not
      put it back; a convergence that returns has put the new one in force. */
  lemma BindingAfter(s: State, volume: string, next: Binding, w: World)
    ensures var t := Transition(s, volume, next, w);
            && t.0.binding == (if Committed(w) then Some(next) else s.binding)
            && (t.1 == Returned <==> Committed(w) && w.external && w.publishes && w.inspected)
  {}

  // ---- the outcomes of the executor ----

  /** The convergence of the graph, with this outcome and these callbacks, is the one that `w` describes. The
      commit callback throws when the store or the caller's own callback does, and the rollback callback throws
      at least when the store does. */
  predicate Reports(w: World, outcome: GraphRecovery.Outcome, a: GraphRecovery.Admission) {
    var committed := w.begins && w.materializes && w.commits && w.external;
    && a.committed == committed && a.rolledBack == (committed && !w.publishes)
    && (a.rolledBack && !w.restores ==> a.threw) && (a.threw ==> a.rolledBack)
    && match outcome
       case NotStarted => !w.begins
       case Done(returned) => committed && w.publishes && returned == w.inspected
       case GaveUp(Materializing, _) => w.begins && !committed
       case GaveUp(_, _) => committed && !w.publishes
  }

  /** What the executor promises of its callbacks allows exactly the convergences that are described, of a target
      that has an instance. */
  lemma OutcomesAreWorlds(ctx: GraphModel.Context, outcome: GraphRecovery.Outcome, a: GraphRecovery.Admission)
    requires ctx.commits && ctx.rollsBack
    ensures GraphRecovery.AdmissionKept(ctx, outcome, a) <==> exists w :: Reports(w, outcome, a) && w.instances != {}
  {
    if GraphRecovery.AdmissionKept(ctx, outcome, a) {
      var w := World(!outcome.NotStarted?, {"instance"}, {}, a.committed, true, true, outcome.Done?, !a.threw, {}, {},
                     outcome.Done? && outcome.returned, true);
      assert Reports(w, outcome, a);
    }
  }

  lemma WorldsAreOutcomes(ctx: GraphModel.Context, w: World)
    returns (outcome: GraphRecovery.Outcome, a: GraphRecovery.Admission)
    requires ctx.commits && ctx.rollsBack
    ensures Reports(w, outcome, a) && GraphRecovery.AdmissionKept(ctx, outcome, a)
  {
    var committed := w.begins && w.materializes && w.commits && w.external;
    a := GraphRecovery.Admission(committed, committed && !w.publishes, committed && !w.publishes && !w.restores);
    outcome :=
      if !w.begins then GraphRecovery.NotStarted
      else if !committed then GraphRecovery.GaveUp(GraphRecovery.Materializing, true)
      else if !w.publishes then GraphRecovery.GaveUp(GraphRecovery.Retiring, true)
      else GraphRecovery.Done(w.inspected);
  }

  /** As long as the store can put a binding back, the new binding is in force exactly when the executor's run
      came to the end of its guarded part, and otherwise the previous one is; the operation returns exactly when
      the executor does. */
  lemma BindingByOutcome(ctx: GraphModel.Context, s: State, volume: string, next: Binding, w: World,
                         outcome: GraphRecovery.Outcome, a: GraphRecovery.Admission)
    requires ctx.commits && ctx.rollsBack && Reports(w, outcome, a) && w.restores
    ensures var t := Transition(s, volume, next, w);
            && t.0.binding == (if outcome.Done? then Some(next) else s.binding)
            && (t.1 == Returned <==> outcome == GraphRecovery.Done(true))
  {
    BindingAfter(s, volume, next, w);
  }

  // ---- over any run ----

  datatype Operation =
    | DoRestore(request: Request, filling: Filling, world: World)
    | DoRollback(request: Request, world: World)

  function Step(s: State, op: Operation): (State, Outcome) {
    match op
    case DoRestore(r, f, w) => Restore(s, r, f, w)
    case DoRollback(r, w) => Rollback(s, r, w)
  }

  function Run(s: State, ops: seq<Operation>): State {
    if ops == [] then s else Step(Run(s, ops[..|ops| - 1]), ops[|ops| - 1]).0
  }

  /** Names are fresh, and the target has an instance. */
  predicate Possible(s: State, op: Operation) {
    op.DoRestore? ==> Fresh(s, op.request) && op.world.instances != {}
  }

  ghost predicate PossibleRun(s: State, ops: seq<Operation>) {
    forall i :: 0 <= i < |ops| ==> Possible(Run(s, ops[..i]), ops[i])
  }

  /** The one case in which a restore leaves a binding to a volume that is gone. */
  predicate Loses(op: Operation) {
    op.DoRestore? && op.filling.Filled? && Dangles(op.world)
  }

  predicate NoneLoses(ops: seq<Operation>) {
    forall op :: op in ops ==> !Loses(op)
  }

  ghost predicate AlwaysSafe(s: State, ops: seq<Operation>) {
    forall i :: 0 <= i <= |ops| ==> Safe(Run(s, ops[..i]))
  }

  lemma StepIsSafe(s: State, op: Operation)
    requires Safe(s) && Possible(s, op)
    ensures Safe(Step(s, op).0) <==> !Loses(op)
  {
    match op
    case DoRestore(r, f, w) => RestoreIsSafe(s, r, f, w);
    case DoRollback(r, w) => RollbackIsSafe(s, r, w);
  }

  /** Over any run of restores, upgrades and rollbacks, with any failures of the store, of Docker, of the jobs, of
      the health gates and of the callbacks, the volumes named by the binding exist all the time exactly when no
      restore of the run comes to that one case. */
  lemma {:induction false} VolumesAlwaysExist(s: State, ops: seq<Operation>)
    requires Safe(s) && PossibleRun(s, ops)
    ensures AlwaysSafe(s, ops) <==> NoneLoses(ops)
  {
    if ops == [] {
      assert ops[..0] == [];
    } else {
      var front := ops[..|ops| - 1];
      PossibleFront(s, ops);
      VolumesAlwaysExist(s, front);
      SafeFront(s, ops);
      NoneLosesFront(ops);
      if AlwaysSafe(s, front) { LastIsSafe(s, ops); }
    }
  }

  lemma NoneLosesFront(ops: seq<Operation>)
    requires ops != []
    ensures NoneLoses(ops) <==> NoneLoses(ops[..|ops| - 1]) && !Loses(ops[|ops| - 1])
  {
    assert forall x :: x in ops <==> x in ops[..|ops| - 1] || x == ops[|ops| - 1];
  }

  lemma LastIsSafe(s: State, ops: seq<Operation>)
    requires ops != [] && PossibleRun(s, ops) && AlwaysSafe(s, ops[..|ops| - 1])
    ensures Safe(Run(s, ops)) <==> !Loses(ops[|ops| - 1])
  {
    var front := ops[..|ops| - 1];
    assert front[..|front|] == front;
    assert Safe(Run(s, front[..|front|])) && Possible(Run(s, ops[..|ops| - 1]), ops[|ops| - 1]);
    StepIsSafe(Run(s, front), ops[|ops| - 1]);
  }

  lemma PossibleFront(s: State, ops: seq<Operation>)
    requires ops != [] && PossibleRun(s, ops)
    ensures PossibleRun(s, ops[..|ops| - 1])
  {
    var front := ops[..|ops| - 1];
    forall i | 0 <= i < |front| ensures Possible(Run(s, front[..i]), front[i]) {
      assert front[..i] == ops[..i];
      assert Possible(Run(s, ops[..i]), ops[i]);
    }
  }

  lemma SafeFront(s: State, ops: seq<Operation>)
    requires ops != []
    ensures AlwaysSafe(s, ops) <==> AlwaysSafe(s, ops[..|ops| - 1]) && Safe(Run(s, ops))
  {
    var front := ops[..|ops| - 1];
    assert forall i :: 0 <= i <= |front| ==> front[..i] == ops[..i];
    assert ops[..|ops|] == ops;
    if AlwaysSafe(s, ops) {
      forall i | 0 <= i <= |front| ensures Safe(Run(s, front[..i])) { assert Safe(Run(s, ops[..i])); }
      assert Safe(Run(s, ops[..|ops|]));
    }
    if AlwaysSafe(s, front) && Safe(Run(s, ops)) {
      forall i | 0 <= i <= |ops| ensures Safe(Run(s, ops[..i])) {
        if i < |ops| { assert Safe(Run(s, front[..i])); }
      }
    }
  }

  /** Two successful rollbacks put the original volumes back in their places. They put the original spec
      digests back exactly when each was called on the revision that the binding named as active, which
      the code does not check. */
  lemma TwoRollbacks(s: State, r: Request, w: World, q: Request, v: World)
    requires Rollback(s, r, w).1 == Returned && Rollback(Rollback(s, r, w).0, q, v).1 == Returned
    ensures var end := Rollback(Rollback(s, r, w).0, q, v).0;
            && s.binding.Some? && end.binding.Some?
            && end.binding.value.active == s.binding.value.active
            && end.binding.value.rollback == s.binding.value.rollback
            && (end.binding.value.activeSpec == s.binding.value.activeSpec
                && end.binding.value.rollbackSpec == s.binding.value.rollbackSpec
                <==> r.sourceSpec == s.binding.value.activeSpec
                     && q.sourceSpec == Rollback(s, r, w).0.binding.value.activeSpec)
  {
    BindingAfter(s, s.binding.value.rollback.value, RolledBack(s.binding.value, r), w);
    var m := Rollback(s, r, w).0;
    BindingAfter(m, m.binding.value.rollback.value, RolledBack(m.binding.value, q), v);
  }

  /** Called on another revision, two rollbacks that succeed leave another spec digest as active. */
  lemma RolledBackElsewhere(b: Binding, s: State, other: string)
    requires s.binding == Some(b) && b.rollback.Some? && b.rollbackSpec.Some? && Safe(s) && other != b.activeSpec
    ensures var w := World(true, {}, {}, true, true, true, true, true, {}, {}, true, true);
            var r := Request("1", "", "", other, b.rollbackSpec.value);
            var q := Request("2", "", "", b.rollbackSpec.value, other);
            var m := Rollback(s, r, w);
            var end := Rollback(m.0, q, w);
            m.1 == Returned && end.1 == Returned && end.0.binding.value.activeSpec == other != b.activeSpec
  {}

  // ---- the store and Docker, changed in place ----

  class Provider {
    var binding: Option<Binding>
    var volumes: set<string>
    var mounts: set<Mount>
    const standard: string

    function Now(): State
      reads this
    {
      State(binding, volumes, mounts, standard)
    }

    method EnsureVolume(volume: string)
      modifies this`volumes
      ensures volumes == old(volumes) + {volume}
    {
      volumes := volumes + {volume};
    }

    method RemoveDockerVolume(volume: string, works: bool)
      modifies this`volumes
      ensures Now() == RemoveVolume(old(Now()), volume, works)
    {
      if works && forall m :: m in mounts ==> m.volume != volume { volumes := volumes - {volume}; }
    }

    method CreateContainers(containers: set<string>, volume: string)
      modifies this`volumes, this`mounts
      ensures Now() == WithMounts(old(Now()), containers, volume)
    {
      EnsureVolume(volume);
      mounts := mounts + set c | c in containers :: Mount(c, volume);
    }

    method RemoveContainers(containers: set<string>)
      modifies this`mounts
      ensures Now() == WithoutContainers(old(Now()), containers)
    {
      mounts := set m | m in mounts && m.container !in containers;
    }

    /** `admissionCommit`: when the callback throws the previous binding is put back at once. `committed`
        says whether there is something to roll back later. */
    method AdmissionCommit(next: Binding, previous: Option<Binding>, w: World) returns (committed: bool)
      modifies this`binding
      ensures committed == (w.commits && w.external)
      ensures binding == if !w.commits then old(binding) else if w.external || !w.restores then Some(next) else previous
    {
      if !w.commits { return false; }
      binding := Some(next);
      if w.external { return true; }
      if w.restores { binding := previous; }
      committed := false;
    }

    /** `converge` on `volume`, with the admission of `convergeProfileTransition`. */
    method ConvergeProfileTransition(volume: string, next: Binding, w: World) returns (outcome: Outcome)
      modifies this`binding, this`volumes, this`mounts
      ensures (Now(), outcome) == Transition(old(Now()), volume, next, w)
    {
      var previous := binding;
      EnsureVolume(volume);
      if !w.begins { return Threw; }
      CreateContainers(if w.materializes then w.instances else w.made * w.instances, volume);
      var committed := false;
      if w.materializes { committed := AdmissionCommit(next, previous, w); }
      if !committed {
        assert w.removed + {} == w.removed;
        RemoveContainers(w.removed);
        return Threw;
      }
      if !w.publishes {
        if w.restores { binding := previous; }
        RemoveContainers(w.removed + (w.retired - w.instances));
        return Threw;
      }
      RemoveContainers(w.retired - w.instances);
      outcome := if w.inspected then Returned else Threw;
    }

    /** Fill a fresh staging volume from the archive, inside a bootstrap container. */
    method FillStaging(r: Request, f: Filling) returns (filled: bool)
      modifies this`volumes, this`mounts
      ensures Now() == Fill(old(Now()), r, f) && filled == f.Filled?
    {
      filled := false;
      match f {
        case Ensure =>
        case Providers(removes) =>
          EnsureVolume(r.staging);
          RemoveDockerVolume(r.staging, removes);
        case Bootstrap(created, removesContainer, removes) =>
          EnsureVolume(r.staging);
          if created { CreateContainers({r.bootstrap}, r.staging); }
          if created && removesContainer { RemoveContainers({r.bootstrap}); }
          RemoveDockerVolume(r.staging, removes);
        case Cleanup => CreateContainers({r.bootstrap}, r.staging);
        case Filled =>
          CreateContainers({r.bootstrap}, r.staging);
          RemoveContainers({r.bootstrap});
          filled := true;
      }
    }

    method RestoreLogicalArchive(r: Request, f: Filling, w: World) returns (outcome: Outcome)
      modifies this`binding, this`volumes, this`mounts
      ensures (Now(), outcome) == Restore(old(Now()), r, f, w)
    {
      var next := RestoredBinding(Now(), r);
      var filled := FillStaging(r, f);
      if !filled { return Threw; }
      outcome := ConvergeProfileTransition(r.staging, next, w);
      if outcome == Threw { RemoveDockerVolume(r.staging, w.removesVolume); }
    }

    method ExecuteLogicalRollback(r: Request, w: World) returns (outcome: Outcome)
      modifies this`binding, this`volumes, this`mounts
      ensures (Now(), outcome) == Rollback(old(Now()), r, w)
    {
      if binding.None? || binding.value.rollback.None? { return Threw; }
      if binding.value.rollbackSpec != Some(r.targetSpec) { return Threw; }
      if binding.value.rollback.value !in volumes { return Threw; }
      outcome := ConvergeProfileTransition(binding.value.rollback.value, RolledBack(binding.value, r), w);
    }
  }
}
