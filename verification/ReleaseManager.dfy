/** The target manager: the methods that write the files, one atomic write at a time. */
module ReleaseManager {
  import opened Options
  import opened ReleaseImages
  import opened ReleaseSlots

  /** With `budget` writes before the crash, `writes` turned the files `before` into `after`. */
  ghost predicate Performed(before: Files, budget: nat, after: Files, left: nat, writes: seq<Write>) {
    && after == ApplyAll(before, Executed(writes, budget))
    && left == if budget < |writes| then 0 else budget - |writes|
  }

  lemma PerformedThen(a: Files, budget: nat, b: Files, middle: nat, c: Files, left: nat, first: seq<Write>,
                      second: seq<Write>)
    requires Performed(a, budget, b, middle, first) && Performed(b, middle, c, left, second)
    ensures Performed(a, budget, c, left, first + second)
  {
    if budget < |first| {
      assert (first + second)[..budget] == first[..budget];
      assert Executed(second, 0) == [];
    } else {
      assert Executed(first + second, budget) == first + Executed(second, middle);
      ApplyAppend(a, first, Executed(second, middle));
    }
  }

  /** After a crash nothing more is written. */
  lemma PerformedCrash(a: Files, budget: nat, b: Files, first: seq<Write>, second: seq<Write>)
    requires Performed(a, budget, b, 0, first) && budget < |first|
    ensures Performed(a, budget, b, 0, first + second)
  {
    assert Executed(second, 0) == [];
    PerformedThen(a, budget, b, 0, b, 0, first, second);
  }

  lemma PerformedOne(a: Files, budget: nat, b: Files, left: nat, w: Write)
    requires if budget == 0 then b == a && left == 0 else b == Apply(a, w) && left == budget - 1
    ensures Performed(a, budget, b, left, [w])
  {
    assert budget == 0 ==> Executed([w], budget) == [];
    assert ApplyAll(a, [w]) == ApplyAll(Apply(a, w), []);
  }

  class SuitcaseTargetManager {
    var identity: Option<Target>
    var environment: Option<EnvironmentText>
    var compose: Option<ComposeText>
    var slotA: Option<ComposeText>
    var slotB: Option<ComposeText>
    var candidateCompose: Option<ComposeText>
    var releaseState: Option<Releases>

    /** The number of writes before the next crash. */
    var left: nat

    function State(): Files
      reads this
    {
      Files(identity, environment, compose, slotA, slotB, candidateCompose, releaseState)
    }

    constructor (crashAfter: nat)
      ensures State() == Files(None, None, None, None, None, None, None) && left == crashAfter
    {
      identity, environment, compose := None, None, None;
      slotA, slotB, candidateCompose, releaseState := None, None, None, None;
      left := crashAfter;
    }

    /** `atomicWrite` of one of the files: all of it or, at a crash, nothing. */
    method AtomicWrite(w: Write) returns (alive: bool)
      modifies this
      ensures alive == (old(left) > 0)
      ensures Performed(old(State()), old(left), State(), left, [w])
    {
      if left == 0 {
        PerformedOne(State(), 0, State(), 0, w);
        return false;
      }
      match w {
        case WriteIdentity(t) => identity := Some(t);
        case WriteEnvironment(t) => environment := Some(RenderEnvironment(t));
        case WriteCompose(t) => compose := Some(RenderCompose(t));
        case WriteCandidate(t) => candidateCompose := Some(RenderCompose(t));
        case WriteSlot(slot, t) =>
          if slot == A { slotA := Some(RenderCompose(t)); } else { slotB := Some(RenderCompose(t)); }
        case WriteReleases(r) => releaseState := Some(r);
      }
      left := left - 1;
      alive := true;
      PerformedOne(old(State()), old(left), State(), left, w);
    }

    method WriteTwo(a: Write, b: Write) returns (alive: bool)
      modifies this
      ensures alive == (old(left) >= 2)
      ensures Performed(old(State()), old(left), State(), left, [a, b])
    {
      alive := AtomicWrite(a);
      ghost var f, n := State(), left;
      assert [a, b] == [a] + [b];
      if !alive {
        PerformedCrash(old(State()), old(left), f, [a], [b]);
        return;
      }
      alive := AtomicWrite(b);
      PerformedThen(old(State()), old(left), f, n, State(), left, [a], [b]);
    }

    method WriteTargetArtifacts(t: Target) returns (alive: bool)
      modifies this
      ensures alive == (old(left) >= 3)
      ensures Performed(old(State()), old(left), State(), left, TargetWrites(t))
    {
      alive := WriteTwo(WriteIdentity(t), WriteEnvironment(t));
      ghost var f, n := State(), left;
      ghost var first, last := [WriteIdentity(t), WriteEnvironment(t)], [WriteCompose(t)];
      assert TargetWrites(t) == first + last;
      if !alive {
        PerformedCrash(old(State()), old(left), f, first, last);
        return;
      }
      alive := AtomicWrite(WriteCompose(t));
      PerformedThen(old(State()), old(left), f, n, State(), left, first, last);
    }

    /** `None` when it throws. */
    method EnsureArtifacts(s: Settings, w: World) returns (alive: bool, target: Option<Target>)
      modifies this
      ensures target == EnsuredTarget(old(State()), s, w)
      ensures target.None? ==> alive && State() == old(State()) && left == old(left)
      ensures target.Some? ==>
                var writes := EnsureWrites(ReadReleases(old(State())).value, target.value);
                alive == (|writes| <= old(left)) && Performed(old(State()), old(left), State(), left, writes)
    {
      target := EnsuredTarget(State(), s, w);
      if target.None? { return true, target; }
      var t, releases := target.value, ReadReleases(State()).value;
      alive := WriteTargetArtifacts(t);
      ghost var f, n := State(), left;
      if releases.active.Some? {
        ghost var last := [WriteSlot(releases.active.value, t)];
        if !alive {
          PerformedCrash(old(State()), old(left), f, TargetWrites(t), last);
          return;
        }
        alive := AtomicWrite(WriteSlot(releases.active.value, t));
        PerformedThen(old(State()), old(left), f, n, State(), left, TargetWrites(t), last);
      } else {
        assert EnsureWrites(releases, t) == TargetWrites(t);
      }
    }

    /** `ok` when the candidate comes up and is healthy. */
    method RunRelease(t: Target, w: World) returns (alive: bool, ok: bool)
      modifies this
      ensures Performed(old(State()), old(left), State(), left, CandidateWrites(t))
      ensures alive == (2 <= old(left)) && ok == (w.up && w.healthy)
    {
      alive := WriteTwo(WriteCandidate(t), WriteCompose(t));
      ok := w.up && w.healthy;
    }

    method RestoreActiveRelease(t: Target, r: Releases, candidate: Release, w: World)
      returns (alive: bool, outcome: Outcome)
      modifies this
      ensures var script := RestoreScript(t, r, candidate, w);
              && Performed(old(State()), old(left), State(), left, script.writes)
              && alive == (|script.writes| <= old(left)) && (alive ==> outcome == script.outcome)
    {
      var active := Active(r);
      if active.None? {
        assert Executed([], left) == [];
        return true, Threw;
      }
      outcome := Threw;
      var restored := ForRelease(t, active.value);
      alive := WriteTargetArtifacts(restored);
      ghost var f, n, last := State(), left, [WriteReleases(RestoredReleases(r, candidate, w))];
      if !alive {
        PerformedCrash(old(State()), old(left), f, TargetWrites(restored), last);
        return;
      }
      if !w.restored || !w.restoredHealthy { return; }
      alive := AtomicWrite(WriteReleases(RestoredReleases(r, candidate, w)));
      outcome := Restored;
      PerformedThen(old(State()), old(left), f, n, State(), left, TargetWrites(restored), last);
    }

    /** The writes that make a candidate which passed the gate the active release. */
    method Commit(c: Target, r: Releases, candidate: Release, slot: Slot, w: World) returns (alive: bool)
      modifies this
      ensures var activated := WriteReleases(ActivatedReleases(r, candidate, slot, w.now));
              var writes := [WriteSlot(slot, c)] + TargetWrites(c) + [activated];
              Performed(old(State()), old(left), State(), left, writes) && alive == (|writes| <= old(left))
    {
      ghost var first, second := [WriteSlot(slot, c)], TargetWrites(c);
      ghost var last := [WriteReleases(ActivatedReleases(r, candidate, slot, w.now))];
      assert first + second + last == first + (second + last);
      alive := AtomicWrite(WriteSlot(slot, c));
      ghost var f, n := State(), left;
      if !alive {
        PerformedCrash(old(State()), old(left), f, first, second + last);
        return;
      }
      alive := CommitRest(c, r, candidate, slot, w);
      PerformedThen(old(State()), old(left), f, n, State(), left, first, second + last);
    }

    method CommitRest(c: Target, r: Releases, candidate: Release, slot: Slot, w: World) returns (alive: bool)
      modifies this
      ensures var writes := TargetWrites(c) + [WriteReleases(ActivatedReleases(r, candidate, slot, w.now))];
              Performed(old(State()), old(left), State(), left, writes) && alive == (|writes| <= old(left))
    {
      ghost var last := [WriteReleases(ActivatedReleases(r, candidate, slot, w.now))];
      alive := WriteTargetArtifacts(c);
      ghost var f, n := State(), left;
      if !alive {
        PerformedCrash(old(State()), old(left), f, TargetWrites(c), last);
        return;
      }
      alive := AtomicWrite(WriteReleases(ActivatedReleases(r, candidate, slot, w.now)));
      PerformedThen(old(State()), old(left), f, n, State(), left, TargetWrites(c), last);
    }

    method ActivateRelease(t: Target, r: Releases, candidate: Release, slot: Slot, w: World)
      returns (alive: bool, outcome: Outcome)
      modifies this
      ensures var script := ActivateScript(t, r, candidate, slot, w);
              && Performed(old(State()), old(left), State(), left, script.writes)
              && alive == (|script.writes| <= old(left)) && (alive ==> outcome == script.outcome)
    {
      var c := ForRelease(t, candidate);
      var ok;
      outcome := Threw;
      alive, ok := RunRelease(c, w);
      ghost var f, n := State(), left;
      ghost var writes := ActivateScript(t, r, candidate, slot, w).writes;
      ghost var rest := writes[2..];
      assert writes[..2] == CandidateWrites(c) && writes == CandidateWrites(c) + rest;
      if !alive {
        PerformedCrash(old(State()), old(left), f, CandidateWrites(c), rest);
        return;
      }
      if ok {
        alive := Commit(c, r, candidate, slot, w);
        outcome := Activated;
      } else {
        alive, outcome := RestoreActiveRelease(t, r, candidate, w);
      }
      PerformedThen(old(State()), old(left), f, n, State(), left, CandidateWrites(c), rest);
    }

    /** The operation did its script, or the part of it before the crash. */
    ghost predicate Operated(op: Operation, s: Settings, w: World, before: Files, budget: nat, alive: bool,
                             outcome: Outcome)
      reads this
    {
      var script := OperationScript(op, before, s, w);
      && Performed(before, budget, State(), left, script.writes)
      && alive == (|script.writes| <= budget) && (alive ==> outcome == script.outcome)
    }

    /** The beginning of every operation: the artifacts, then the checks that come before any other
        write. `go` when it goes on. */
    method Begin(s: Settings, w: World) returns (alive: bool, go: bool, t: Option<Target>)
      modifies this
      ensures t == EnsuredTarget(old(State()), s, w)
      ensures ReadReleases(State()) == ReadReleases(old(State()))
      ensures go == (alive && t.Some? && w.preflight)
      ensures t.None? ==> alive && State() == old(State()) && left == old(left)
      ensures t.Some? ==>
                var writes := EnsureWrites(ReadReleases(old(State())).value, t.value);
                alive == (|writes| <= old(left)) && Performed(old(State()), old(left), State(), left, writes)
    {
      alive, t := EnsureArtifacts(s, w);
      go := alive && t.Some? && w.preflight;
      if t.Some? {
        EnsureKeepsReleases(old(State()), ReadReleases(old(State())).value, t.value, old(left));
      }
    }

    method Start(s: Settings, w: World) returns (alive: bool, outcome: Outcome)
      modifies this
      ensures Operated(Operation.Start, s, w, old(State()), old(left), alive, outcome)
    {
      var go, t;
      alive, go, t := Begin(s, w);
      outcome := Threw;
      ghost var f, n := State(), left;
      if go {
        var r := ReadReleases(State()).value;
        if r.active.Some? {
          return alive, if w.up && w.healthy then Started else Threw;
        }
        var candidate := Prepared(t.value.core, t.value.helper, s, w);
        if candidate.None? { return; }
        alive, outcome := ActivateRelease(t.value, r, candidate.value, A, w);
        AfterEnsure(Operation.Start, old(State()), old(left), s, w, f, n, State(), left);
      } else {
        Stopped(Operation.Start, old(State()), old(left), s, w, f, n);
      }
    }

    method Upgrade(s: Settings, w: World) returns (alive: bool, outcome: Outcome)
      modifies this
      ensures Operated(Operation.Upgrade, s, w, old(State()), old(left), alive, outcome)
    {
      var go, t;
      alive, go, t := Begin(s, w);
      outcome := Threw;
      ghost var f, n := State(), left;
      if go {
        var r := ReadReleases(State()).value;
        var candidate := Prepared(Or(s.core, None, DEFAULT_CORE), Or(s.helper, None, DEFAULT_HELPER), s, w);
        if candidate.None? { return; }
        var slot := if r.active == Some(A) then B else A;
        alive, outcome := ActivateRelease(t.value, r, candidate.value, slot, w);
        AfterEnsure(Operation.Upgrade, old(State()), old(left), s, w, f, n, State(), left);
      } else {
        Stopped(Operation.Upgrade, old(State()), old(left), s, w, f, n);
      }
    }

    method Rollback(s: Settings, w: World) returns (alive: bool, outcome: Outcome)
      modifies this
      ensures Operated(Operation.Rollback, s, w, old(State()), old(left), alive, outcome)
    {
      var go, t;
      alive, go, t := Begin(s, w);
      outcome := Threw;
      ghost var f, n := State(), left;
      if go {
        var r := ReadReleases(State()).value;
        if r.active.None? || r.previous.None? || r.previous.value !in r.slots { return; }
        alive, outcome := ActivateRelease(t.value, r, r.slots[r.previous.value], r.previous.value, w);
        AfterEnsure(Operation.Rollback, old(State()), old(left), s, w, f, n, State(), left);
      } else {
        Stopped(Operation.Rollback, old(State()), old(left), s, w, f, n);
      }
    }
  }

  lemma {:induction false} NoReleasesWritten(f: Files, writes: seq<Write>)
    requires forall i :: 0 <= i < |writes| ==> !writes[i].WriteReleases?
    ensures ApplyAll(f, writes).releases == f.releases
    decreases |writes|
  {
    if writes != [] { NoReleasesWritten(Apply(f, writes[0]), writes[1..]); }
  }

  lemma EnsureKeepsReleases(f: Files, r: Releases, t: Target, budget: nat)
    ensures ApplyAll(f, Executed(EnsureWrites(r, t), budget)).releases == f.releases
  {
    NoReleasesWritten(f, Executed(EnsureWrites(r, t), budget));
  }

  /** The operation goes on to activate what it has chosen. */
  ghost predicate Proceeds(op: Operation, f: Files, s: Settings, w: World) {
    var t, r := EnsuredTarget(f, s, w), ReadReleases(f);
    && t.Some? && w.preflight && !(op == Operation.Start && r.value.active.Some?)
    && Choice(op, t.value, r.value, s, w).Some?
  }

  lemma AfterEnsure(op: Operation, before: Files, budget: nat, s: Settings, w: World, f: Files, n: nat, after: Files,
                    left: nat)
    requires Proceeds(op, before, s, w)
    requires var t, r := EnsuredTarget(before, s, w).value, ReadReleases(before).value;
             var c := Choice(op, t, r, s, w).value;
             && Performed(before, budget, f, n, EnsureWrites(r, t)) && |EnsureWrites(r, t)| <= budget
             && Performed(f, n, after, left, ActivateScript(t, r, c.0, c.1, w).writes)
    ensures Performed(before, budget, after, left, OperationScript(op, before, s, w).writes)
  {
    var t, r := EnsuredTarget(before, s, w).value, ReadReleases(before).value;
    var c := Choice(op, t, r, s, w).value;
    PerformedThen(before, budget, f, n, after, left, EnsureWrites(r, t), ActivateScript(t, r, c.0, c.1, w).writes);
  }

  /** It crashed or threw before anything but the artifacts was written. */
  lemma Stopped(op: Operation, before: Files, budget: nat, s: Settings, w: World, f: Files, n: nat)
    requires EnsuredTarget(before, s, w).None? ==> f == before && n == budget
    requires EnsuredTarget(before, s, w).Some? ==>
               var writes := EnsureWrites(ReadReleases(before).value, EnsuredTarget(before, s, w).value);
               Performed(before, budget, f, n, writes) && (|writes| <= budget ==> !w.preflight)
    ensures Performed(before, budget, f, n, OperationScript(op, before, s, w).writes)
  {
    var script := OperationScript(op, before, s, w);
    if EnsuredTarget(before, s, w).None? {
      assert Executed([], budget) == [];
    } else if Proceeds(op, before, s, w) {
      var writes := EnsureWrites(ReadReleases(before).value, EnsuredTarget(before, s, w).value);
      assert script.writes[..|writes|] == writes && script.writes == writes + script.writes[|writes|..];
      PerformedCrash(before, budget, f, writes, script.writes[|writes|..]);
    }
  }
}
