/** Every run of start, upgrade and rollback, with a crash possible after any write. */
module ReleaseRuns {
  import opened Options
  import opened ReleaseImages
  import opened ReleaseSlots

  /** The files, and the releases that have passed the health gate so far. */
  datatype System = System(files: Files, passed: set<Release>)

  /** One call; it crashes when it comes to the write number `budget`. */
  datatype Call = Call(op: Operation, settings: Settings, world: World, budget: nat)

  function ScriptOf(s: System, c: Call): Script {
    OperationScript(c.op, s.files, c.settings, c.world)
  }

  function Next(s: System, c: Call): System {
    var script := ScriptOf(s, c);
    System(ApplyAll(s.files, Executed(script.writes, c.budget)),
           s.passed + if script.gate.Some? && script.gate.value.0 <= c.budget then {script.gate.value.1} else {})
  }

  /** The call did not crash. */
  predicate Completes(s: System, c: Call) {
    |ScriptOf(s, c).writes| <= c.budget
  }

  function Run(s: System, calls: seq<Call>): System {
    if calls == [] then s else Next(Run(s, calls[..|calls| - 1]), calls[|calls| - 1])
  }

  const FRESH := System(Files(None, None, None, None, None, None, None), {})

  predicate ShowsRelease(text: Option<ComposeText>, r: Release) {
    text.Some? && text.value.core == r.core && text.value.helper == r.helper
  }

  predicate GoodTarget(t: Target) {
    IsImage(t.core) && IsImage(t.helper) && IsPort(t.https) && IsPort(t.http) && IsAccess(t.access)
  }

  predicate GoodReleases(r: Releases, passed: set<Release>) {
    AcceptedReleases(r) && r.active.Some? && forall slot :: slot in r.slots ==> r.slots[slot] in passed
  }

  /** `releases.json`, once written, is accepted when read and names an active release; all its releases
      have passed the health gate, and the active slot's compose file shows the active release. */
  predicate Good(s: System) {
    && (s.files.identity.Some? ==> GoodTarget(s.files.identity.value))
    && (s.files.releases.Some? ==>
          && GoodReleases(s.files.releases.value, s.passed)
          && s.files.identity.Some?
          && ShowsRelease(SlotFile(s.files, s.files.releases.value.active.value),
                          s.files.releases.value.slots[s.files.releases.value.active.value]))
  }

  predicate SameName(f: Files, t: Target) {
    f.identity.Some? ==>
      var was := f.identity.value;
      t.id == was.id && t.name == was.name && t.createdAt == was.createdAt
  }

  /** A write that leaves `releases.json` alone and does not spoil the active slot's file. */
  predicate Calm(f: Files, w: Write) {
    match w
    case WriteIdentity(t) => GoodTarget(t) && SameName(f, t)
    case WriteSlot(slot, t) =>
      f.releases.Some? && f.releases.value.active == Some(slot) && slot in f.releases.value.slots ==>
        t.core == f.releases.value.slots[slot].core && t.helper == f.releases.value.slots[slot].helper
    case WriteReleases(_) => false
    case _ => true
  }

  predicate AllCalm(f: Files, writes: seq<Write>) {
    forall i :: 0 <= i < |writes| ==> Calm(f, writes[i])
  }

  /** The identity is new, or goes by the same name. */
  predicate Renames(before: Files, after: Files) {
    before.identity.Some? ==> after.identity.Some? && SameName(before, after.identity.value)
  }

  lemma CalmStep(f: Files, g: Files, w: Write, passed: set<Release>)
    requires Calm(f, w) && Good(System(g, passed)) && g.releases == f.releases && Renames(f, g)
    ensures Good(System(Apply(g, w), passed)) && Apply(g, w).releases == f.releases && Renames(f, Apply(g, w))
  {}

  /** After any number of calm writes. */
  lemma {:induction false} CalmWrites(f: Files, writes: seq<Write>, passed: set<Release>)
    requires Good(System(f, passed)) && AllCalm(f, writes)
    ensures var g := ApplyAll(f, writes); Good(System(g, passed)) && g.releases == f.releases && Renames(f, g)
  {
    if writes != [] {
      var front, last := writes[..|writes| - 1], writes[|writes| - 1];
      CalmWrites(f, front, passed);
      assert writes == front + [last];
      ApplyAppend(f, front, [last]);
      CalmStep(f, ApplyAll(f, front), last, passed);
    }
  }

  /** In a good state the files are readable, and `ensureArtifacts` throws only for its settings. */
  lemma EnsureThrows(s: System, settings: Settings, w: World)
    requires Good(s)
    ensures ReadReleases(s.files).Some?
    ensures var t := Wanted(s.files, ReadReleases(s.files).value, settings, w);
            EnsuredTarget(s.files, settings, w).None? <==> !AcceptedTarget(t) || t.http == t.https
  {}

  lemma EnsuredIsGood(s: System, settings: Settings, w: World)
    requires Good(s) && EnsuredTarget(s.files, settings, w).Some?
    ensures var t, r := EnsuredTarget(s.files, settings, w).value, ReadReleases(s.files).value;
            && GoodTarget(t) && SameName(s.files, t)
            && (s.files.releases.Some? ==> r == s.files.releases.value && Active(r).Some?
                                           && t.core == Active(r).value.core && t.helper == Active(r).value.helper)
            && (s.files.releases.None? ==> r == EMPTY)
            && AllCalm(s.files, EnsureWrites(r, t))
  {
    var t, r := EnsuredTarget(s.files, settings, w).value, ReadReleases(s.files).value;
    EnsureIsCalm(s.files, r, t);
  }

  lemma EnsureIsCalm(f: Files, r: Releases, t: Target)
    requires GoodTarget(t) && SameName(f, t)
    requires f.releases.Some? ==> r == f.releases.value && Active(r).Some?
    requires f.releases.Some? ==> t.core == Active(r).value.core && t.helper == Active(r).value.helper
    ensures AllCalm(f, EnsureWrites(r, t))
  {}

  /** The candidate passes the gate and every write is made. */
  lemma ActivationComplete(f: Files, t: Target, slot: Slot)
    ensures var g := ApplyAll(f, CandidateWrites(t) + ([WriteSlot(slot, t)] + TargetWrites(t)));
            && g.identity == Some(t) && g.compose == Some(RenderCompose(t))
            && g.environment == Some(RenderEnvironment(t))
            && SlotFile(g, slot) == Some(RenderCompose(t)) && g.releases == f.releases
            && (forall other :: other != slot ==> SlotFile(g, other) == SlotFile(f, other))
  {
    var writes := CandidateWrites(t) + ([WriteSlot(slot, t)] + TargetWrites(t));
    assert writes == [WriteCandidate(t), WriteCompose(t), WriteSlot(slot, t),
                      WriteIdentity(t), WriteEnvironment(t), WriteCompose(t)];
    ApplySix(f, WriteCandidate(t), WriteCompose(t), WriteSlot(slot, t), WriteIdentity(t), WriteEnvironment(t),
             WriteCompose(t));
  }

  lemma ApplyThree(f: Files, a: Write, b: Write, c: Write)
    ensures ApplyAll(f, [a, b, c]) == Apply(Apply(Apply(f, a), b), c)
  {
    assert [a, b, c][1..] == [b, c] && [b, c][1..] == [c] && [c][1..] == [];
    assert ApplyAll(Apply(Apply(f, a), b), [c]) == ApplyAll(Apply(Apply(Apply(f, a), b), c), []);
    assert ApplyAll(Apply(f, a), [b, c]) == ApplyAll(Apply(Apply(f, a), b), [c]);
    assert ApplyAll(f, [a, b, c]) == ApplyAll(Apply(f, a), [b, c]);
  }

  lemma ApplySix(f: Files, a: Write, b: Write, c: Write, d: Write, e: Write, h: Write)
    ensures ApplyAll(f, [a, b, c, d, e, h]) == Apply(Apply(Apply(Apply(Apply(Apply(f, a), b), c), d), e), h)
  {
    assert [a, b, c, d, e, h] == [a, b, c] + [d, e, h];
    ApplyAppend(f, [a, b, c], [d, e, h]);
    ApplyThree(f, a, b, c);
    ApplyThree(ApplyAll(f, [a, b, c]), d, e, h);
  }

  /** After `ensureArtifacts`, whatever a crash had left behind, the identity, environment and compose
      files and the active slot's file are the rendering of one target, which shows the active release. */
  lemma Heals(f: Files, r: Releases, t: Target)
    ensures var g := ApplyAll(f, EnsureWrites(r, t));
            && g.identity == Some(t) && g.compose == Some(RenderCompose(t))
            && g.environment == Some(RenderEnvironment(t))
            && (r.active.Some? ==> SlotFile(g, r.active.value) == Some(RenderCompose(t)))
            && g.releases == f.releases
  {
    ApplyThree(f, WriteIdentity(t), WriteEnvironment(t), WriteCompose(t));
    if r.active.Some? {
      ApplyAppend(f, TargetWrites(t), [WriteSlot(r.active.value, t)]);
    } else {
      assert EnsureWrites(r, t) == TargetWrites(t);
    }
  }

  // ---- the scripts ----

  predicate EndsInReleases(writes: seq<Write>) {
    writes != [] && writes[|writes| - 1].WriteReleases?
  }

  /** The writes before that of `releases.json`. */
  function CalmPart(writes: seq<Write>): seq<Write> {
    if EndsInReleases(writes) then writes[..|writes| - 1] else writes
  }

  lemma CalmAppend(f: Files, a: seq<Write>, b: seq<Write>)
    requires AllCalm(f, a) && AllCalm(f, b)
    ensures AllCalm(f, a + b)
  {}

  lemma ChoiceIsGood(op: Operation, s: System, t: Target, r: Releases, settings: Settings, w: World)
    requires Good(s) && ReadReleases(s.files) == Some(r) && Choice(op, t, r, settings, w).Some?
    requires op == Start ==> r.active.None?
    ensures var c := Choice(op, t, r, settings, w).value;
            && AcceptedRelease(c.0) && r.active != Some(c.1)
            && (op == Rollback ==> c.0 in s.passed && s.files.releases.Some?)
  {
    match op
    case Start =>
      PreparedIsAccepted(t.core, t.helper, w.coreDocker, w.helperDocker, settings.allowMutable, settings.policy,
                         w.signed, w.now);
    case Upgrade =>
      PreparedIsAccepted(Or(settings.core, None, DEFAULT_CORE), Or(settings.helper, None, DEFAULT_HELPER),
                         w.coreDocker, w.helperDocker, settings.allowMutable, settings.policy, w.signed, w.now);
    case Rollback =>
  }

  ghost predicate Shaped(f: Files, script: Script) {
    && AllCalm(f, CalmPart(script.writes))
    && (script.gate.Some? <==> script.outcome == Activated)
    && (EndsInReleases(script.writes) <==> script.outcome == Activated || script.outcome == Restored)
  }

  lemma RestoreShaped(s: System, t: Target, r: Releases, candidate: Release, w: World)
    requires Good(s) && GoodTarget(t) && SameName(s.files, t) && ReadReleases(s.files) == Some(r)
    ensures Shaped(s.files, RestoreScript(t, r, candidate, w))
  {
    if Active(r).Some? {
      var writes := TargetWrites(ForRelease(t, Active(r).value));
      assert (writes + [WriteReleases(RestoredReleases(r, candidate, w))])[..|writes|] == writes;
    }
  }

  lemma {:induction false} ActivateShaped(s: System, t: Target, r: Releases, candidate: Release, slot: Slot, w: World)
    requires Good(s) && GoodTarget(t) && SameName(s.files, t) && ReadReleases(s.files) == Some(r)
    requires AcceptedRelease(candidate) && r.active != Some(slot)
    ensures Shaped(s.files, ActivateScript(t, r, candidate, slot, w))
  {
    var c := ForRelease(t, candidate);
    if w.up && w.healthy {
      var writes := CandidateWrites(c) + ([WriteSlot(slot, c)] + TargetWrites(c));
      var script := ActivateScript(t, r, candidate, slot, w);
      assert script.writes == writes + [WriteReleases(ActivatedReleases(r, candidate, slot, w.now))];
      assert script.writes[..|writes|] == writes;
      CalmAppend(s.files, [WriteSlot(slot, c)], TargetWrites(c));
      CalmAppend(s.files, CandidateWrites(c), [WriteSlot(slot, c)] + TargetWrites(c));
    } else {
      var restore := RestoreScript(t, r, candidate, w);
      RestoreShaped(s, t, r, candidate, w);
      CalmAppend(s.files, CandidateWrites(c), CalmPart(restore.writes));
      AppendShape(CandidateWrites(c), restore.writes);
    }
  }

  lemma AppendShape(a: seq<Write>, b: seq<Write>)
    requires !EndsInReleases(a)
    ensures EndsInReleases(a + b) <==> EndsInReleases(b)
    ensures CalmPart(a + b) == a + CalmPart(b)
  {
    if b == [] { assert a + b == a; }
  }

  /** The operation comes to the activation of a candidate. */
  predicate Activating(s: System, c: Call) {
    var t, r := EnsuredTarget(s.files, c.settings, c.world), ReadReleases(s.files);
    && t.Some? && r.Some? && c.world.preflight && !(c.op == Start && r.value.active.Some?)
    && Choice(c.op, t.value, r.value, c.settings, c.world).Some?
  }

  function Chosen(s: System, c: Call): (Release, Slot)
    requires Activating(s, c)
  {
    var target, releases := EnsuredTarget(s.files, c.settings, c.world).value, ReadReleases(s.files).value;
    Choice(c.op, target, releases, c.settings, c.world).value
  }

  function Activation(s: System, c: Call): Script
    requires Activating(s, c)
  {
    ActivateScript(EnsuredTarget(s.files, c.settings, c.world).value, ReadReleases(s.files).value,
                   Chosen(s, c).0, Chosen(s, c).1, c.world)
  }

  function Ensured(s: System, c: Call): seq<Write>
    requires EnsuredTarget(s.files, c.settings, c.world).Some?
  {
    EnsureWrites(ReadReleases(s.files).value, EnsuredTarget(s.files, c.settings, c.world).value)
  }

  lemma ScriptIs(s: System, c: Call)
    ensures var script := ScriptOf(s, c);
            if Activating(s, c) then script == After(Ensured(s, c), Activation(s, c))
            else && script.gate.None? && (script.outcome == Threw || script.outcome == Started)
                 && script.writes == if EnsuredTarget(s.files, c.settings, c.world).Some? then Ensured(s, c) else []
  {}

  lemma ActivationShaped(s: System, c: Call)
    requires Good(s) && Activating(s, c)
    ensures Shaped(s.files, Activation(s, c))
    ensures AllCalm(s.files, Ensured(s, c)) && !EndsInReleases(Ensured(s, c))
    ensures AcceptedRelease(Chosen(s, c).0) && ReadReleases(s.files).value.active != Some(Chosen(s, c).1)
    ensures c.op == Rollback ==> Chosen(s, c).0 in s.passed
  {
    var t, r := EnsuredTarget(s.files, c.settings, c.world).value, ReadReleases(s.files).value;
    EnsuredIsGood(s, c.settings, c.world);
    ChoiceIsGood(c.op, s, t, r, c.settings, c.world);
    ActivateShaped(s, t, r, Chosen(s, c).0, Chosen(s, c).1, c.world);
  }

  lemma AfterShaped(f: Files, writes: seq<Write>, script: Script)
    requires AllCalm(f, writes) && !EndsInReleases(writes) && Shaped(f, script)
    ensures Shaped(f, After(writes, script))
    ensures CalmPart(After(writes, script).writes) == writes + CalmPart(script.writes)
  {
    AppendShape(writes, script.writes);
    CalmAppend(f, writes, CalmPart(script.writes));
  }

  lemma OperationShaped(s: System, c: Call)
    requires Good(s)
    ensures Shaped(s.files, ScriptOf(s, c))
  {
    ScriptIs(s, c);
    if Activating(s, c) {
      ActivationShaped(s, c);
      AfterShaped(s.files, Ensured(s, c), Activation(s, c));
    } else if EnsuredTarget(s.files, c.settings, c.world).Some? {
      EnsuredIsGood(s, c.settings, c.world);
    }
  }

  // ---- every call keeps the invariant ----

  /** A call cut short by a crash, or ended before it wrote `releases.json`. */
  lemma CutShort(s: System, c: Call)
    requires Good(s) && (!Completes(s, c) || !EndsInReleases(ScriptOf(s, c).writes))
    ensures var t := Next(s, c);
            Good(t) && t.files.releases == s.files.releases && Renames(s.files, t.files)
  {
    OperationShaped(s, c);
    var script := ScriptOf(s, c);
    var done := Executed(script.writes, c.budget);
    assert AllCalm(s.files, done) by {
      assert forall i :: 0 <= i < |done| ==> done[i] == CalmPart(script.writes)[i];
    }
    CalmWrites(s.files, done, s.passed);
    MorePassed(ApplyAll(s.files, done), s.passed, Next(s, c).passed);
  }

  lemma MorePassed(f: Files, passed: set<Release>, more: set<Release>)
    requires Good(System(f, passed)) && passed <= more
    ensures Good(System(f, more))
  {}

  lemma ActivateEffect(f: Files, t: Target, r: Releases, candidate: Release, slot: Slot, w: World)
    requires w.up && w.healthy
    ensures var g, target := ApplyAll(f, ActivateScript(t, r, candidate, slot, w).writes), ForRelease(t, candidate);
            && g.releases == Some(ActivatedReleases(r, candidate, slot, w.now))
            && g.identity == Some(target) && g.compose == Some(RenderCompose(target))
            && SlotFile(g, slot) == Some(RenderCompose(target))
            && (forall other :: other != slot ==> SlotFile(g, other) == SlotFile(f, other))
  {
    var target := ForRelease(t, candidate);
    var writes := CandidateWrites(target) + ([WriteSlot(slot, target)] + TargetWrites(target));
    var last := WriteReleases(ActivatedReleases(r, candidate, slot, w.now));
    assert ActivateScript(t, r, candidate, slot, w).writes == writes + [last];
    ApplyAppend(f, writes, [last]);
    ApplyOne(ApplyAll(f, writes), last);
    ActivationComplete(f, target, slot);
  }

  lemma ApplyOne(f: Files, w: Write)
    ensures ApplyAll(f, [w]) == Apply(f, w)
  {
    assert ApplyAll(f, [w]) == ApplyAll(Apply(f, w), []);
  }

  lemma RestoreEffect(f: Files, t: Target, r: Releases, candidate: Release, slot: Slot, w: World)
    requires ActivateScript(t, r, candidate, slot, w).outcome == Restored && ForRelease(t, Active(r).value) == t
    ensures var g := ApplyAll(f, ActivateScript(t, r, candidate, slot, w).writes);
            && g.releases == Some(RestoredReleases(r, candidate, w))
            && g.identity == Some(t) && g.compose == Some(RenderCompose(t))
            && g.environment == Some(RenderEnvironment(t))
            && g.slotA == f.slotA && g.slotB == f.slotB
  {
    var a, b, last := CandidateWrites(ForRelease(t, candidate)), TargetWrites(t), WriteReleases(RestoredReleases(r,
          candidate, w));
    assert ActivateScript(t, r, candidate, slot, w).writes == a + (b + [last]);
    ApplyAppend(f, a, b + [last]);
    ApplyAppend(ApplyAll(f, a), b, [last]);
    CandidateOnly(f, ForRelease(t, candidate));
    ApplyThree(ApplyAll(f, a), WriteIdentity(t), WriteEnvironment(t), WriteCompose(t));
    ApplyOne(ApplyAll(ApplyAll(f, a), b), last);
  }

  lemma EnsuredThenActivated(s: System, c: Call)
    requires Activating(s, c) && Completes(s, c)
    ensures Next(s, c).files == ApplyAll(ApplyAll(s.files, Ensured(s, c)), Activation(s, c).writes)
    ensures ScriptOf(s, c).outcome == Activation(s, c).outcome
    ensures Activation(s, c).outcome == Activated <==> c.world.up && c.world.healthy
    ensures Activation(s, c).outcome == Activated ==> Chosen(s, c).0 in Next(s, c).passed
  {
    ScriptIs(s, c);
    ApplyAppend(s.files, Ensured(s, c), Activation(s, c).writes);
  }

  /** What a completed activation leaves behind. */
  lemma ActivatedFiles(s: System, c: Call)
    requires Good(s) && Completes(s, c) && ScriptOf(s, c).outcome == Activated
    ensures Activating(s, c) && c.world.up && c.world.healthy
    ensures var r, t := ReadReleases(s.files).value, EnsuredTarget(s.files, c.settings, c.world).value;
            var candidate, slot := Chosen(s, c).0, Chosen(s, c).1;
            var g, target := Next(s, c).files, ForRelease(t, candidate);
            && g.releases == Some(ActivatedReleases(r, candidate, slot, c.world.now))
            && g.identity == Some(target) && g.compose == Some(RenderCompose(target))
            && SlotFile(g, slot) == Some(RenderCompose(target))
            && (r.active.Some? && r.active.value != slot ==> SlotFile(g, r.active.value) == Some(RenderCompose(t)))
            && candidate in Next(s, c).passed
  {
    ScriptIs(s, c);
    EnsuredThenActivated(s, c);
    var r, t := ReadReleases(s.files).value, EnsuredTarget(s.files, c.settings, c.world).value;
    Heals(s.files, r, t);
    ActivateEffect(ApplyAll(s.files, Ensured(s, c)), t, r, Chosen(s, c).0, Chosen(s, c).1, c.world);
  }

  /** What a completed restoration leaves behind. */
  lemma RestoredFiles(s: System, c: Call)
    requires Good(s) && Completes(s, c) && ScriptOf(s, c).outcome == Restored
    ensures Activating(s, c) && s.files.releases.Some?
    ensures var r, t := s.files.releases.value, EnsuredTarget(s.files, c.settings, c.world).value;
            var g := Next(s, c).files;
            && g.releases == Some(RestoredReleases(r, Chosen(s, c).0, c.world))
            && g.identity == Some(t) && g.compose == Some(RenderCompose(t))
            && g.environment == Some(RenderEnvironment(t))
            && SlotFile(g, r.active.value) == Some(RenderCompose(t))
  {
    ScriptIs(s, c);
    EnsuredThenActivated(s, c);
    var r, t := ReadReleases(s.files).value, EnsuredTarget(s.files, c.settings, c.world).value;
    EnsuredIsGood(s, c.settings, c.world);
    Heals(s.files, r, t);
    RestoreEffect(ApplyAll(s.files, Ensured(s, c)), t, r, Chosen(s, c).0, Chosen(s, c).1, c.world);
  }

  lemma CandidateOnly(f: Files, t: Target)
    ensures ApplyAll(f, CandidateWrites(t)) == f.(candidate := Some(RenderCompose(t)),
                                                  compose := Some(RenderCompose(t)))
  {
    assert CandidateWrites(t)[1..] == [WriteCompose(t)];
    ApplyOne(Apply(f, WriteCandidate(t)), WriteCompose(t));
  }

  /** Every call, whatever Docker answers and wherever it crashes, keeps the invariant, and the name the
      target was given at first. */
  lemma CallKeeps(s: System, c: Call)
    requires Good(s)
    ensures Good(Next(s, c)) && Renames(s.files, Next(s, c).files)
  {
    if !Completes(s, c) || !EndsInReleases(ScriptOf(s, c).writes) {
      CutShort(s, c);
    } else {
      OperationShaped(s, c);
      ScriptIs(s, c);
      ActivationShaped(s, c);
      EnsuredIsGood(s, c.settings, c.world);
      if ScriptOf(s, c).outcome == Activated { ActivatedKeeps(s, c); } else { RestoredKeeps(s, c); }
    }
  }

  lemma ActivatedKeeps(s: System, c: Call)
    requires Good(s) && Completes(s, c) && ScriptOf(s, c).outcome == Activated
    ensures Good(Next(s, c)) && Renames(s.files, Next(s, c).files)
  {
    ActivatedFiles(s, c);
    ActivationShaped(s, c);
    EnsuredIsGood(s, c.settings, c.world);
    var r, t := ReadReleases(s.files).value, EnsuredTarget(s.files, c.settings, c.world).value;
    ActivatedIsGood(Next(s, c), s.passed, r, t, Chosen(s, c).0, Chosen(s, c).1, c.world.now);
  }

  lemma ActivatedIsGood(s: System, passed: set<Release>, r: Releases, t: Target, candidate: Release, slot: Slot,
                        now: string)
    requires GoodTarget(t) && AcceptedRelease(candidate) && AcceptedReleases(r) && r.active != Some(slot)
    requires candidate in s.passed && passed <= s.passed && forall x :: x in r.slots ==> r.slots[x] in passed
    requires s.files.releases == Some(ActivatedReleases(r, candidate, slot, now))
    requires s.files.identity == Some(ForRelease(t, candidate))
    requires SlotFile(s.files, slot) == Some(RenderCompose(ForRelease(t, candidate)))
    ensures Good(s)
  {}

  lemma RestoredKeeps(s: System, c: Call)
    requires Good(s) && Completes(s, c) && ScriptOf(s, c).outcome == Restored
    ensures Good(Next(s, c)) && Renames(s.files, Next(s, c).files)
  {
    RestoredFiles(s, c);
    EnsuredIsGood(s, c.settings, c.world);
  }

  lemma {:induction false} RunKeeps(calls: seq<Call>)
    ensures Good(Run(FRESH, calls))
  {
    if calls != [] {
      RunKeeps(calls[..|calls| - 1]);
      CallKeeps(Run(FRESH, calls[..|calls| - 1]), calls[|calls| - 1]);
    }
  }

  // ---- what holds over every run ----

  /** Over any run of start, upgrade and rollback, with any answers and a crash after any write:
      `releases.json`, if there is one, is accepted when it is read back (distinct active and previous
      slots, both filled, images pinned or under the development override) and names an active release;
      every release it names has passed the health gate. */
  lemma ReleasesAreHealthy(calls: seq<Call>)
    ensures var s := Run(FRESH, calls);
            s.files.releases.Some? ==>
              && AcceptedReleases(s.files.releases.value) && Active(s.files.releases.value).Some?
              && (forall slot :: slot in s.files.releases.value.slots ==>
                    s.files.releases.value.slots[slot] in s.passed)
  {
    RunKeeps(calls);
  }

  /** Whatever a crash left behind, the next `ensureArtifacts` repairs it: it does not throw unless its own
      settings are refused. When it is done the identity, environment and compose files are the rendering of
      one target and the releases are as they were; once they are written, the active slot's file renders the same
      target and the target has the images of the active release. */
  lemma SelfHealing(calls: seq<Call>, settings: Settings, w: World)
    ensures var f := Run(FRESH, calls).files;
            && ReadReleases(f).Some?
            && (EnsuredTarget(f, settings, w).None? <==>
                  var t := Wanted(f, ReadReleases(f).value, settings, w); !AcceptedTarget(t) || t.http == t.https)
            && (EnsuredTarget(f, settings, w).Some? ==>
                  var t := EnsuredTarget(f, settings, w).value;
                  Rendered(ApplyAll(f, EnsureWrites(ReadReleases(f).value, t)), t, f.releases))
            && (EnsuredTarget(f, settings, w).Some? && f.releases.Some? ==>
                  Healed(ApplyAll(f, EnsureWrites(f.releases.value, EnsuredTarget(f, settings, w).value)),
                         f.releases.value))
  {
    RunKeeps(calls);
    var s := Run(FRESH, calls);
    EnsureThrows(s, settings, w);
    if EnsuredTarget(s.files, settings, w).Some? {
      Heals(s.files, ReadReleases(s.files).value, EnsuredTarget(s.files, settings, w).value);
    }
    if EnsuredTarget(s.files, settings, w).Some? && s.files.releases.Some? {
      EnsuredIsHealed(s, settings, w);
    }
  }

  /** The files render this target, and the releases are these. */
  predicate Rendered(g: Files, t: Target, releases: Option<Releases>) {
    && g.identity == Some(t) && g.compose == Some(RenderCompose(t)) && g.environment == Some(RenderEnvironment(t))
    && g.releases == releases
  }

  /** The files render one target, with the images of the active release, and that release is still named. */
  predicate Healed(g: Files, r: Releases) {
    && Active(r).Some? && g.releases == Some(r)
    && g.identity.Some? && g.identity.value.core == Active(r).value.core
    && g.identity.value.helper == Active(r).value.helper
    && g.compose == Some(RenderCompose(g.identity.value))
    && g.environment == Some(RenderEnvironment(g.identity.value))
    && SlotFile(g, r.active.value) == Some(RenderCompose(g.identity.value))
  }

  lemma EnsuredIsHealed(s: System, settings: Settings, w: World)
    requires Good(s) && EnsuredTarget(s.files, settings, w).Some? && s.files.releases.Some?
    ensures Healed(ApplyAll(s.files, EnsureWrites(s.files.releases.value, EnsuredTarget(s.files, settings, w).value)),
                   s.files.releases.value)
  {
    EnsuredIsGood(s, settings, w);
    Heals(s.files, s.files.releases.value, EnsuredTarget(s.files, settings, w).value);
  }

  lemma LastCallRenames(calls: seq<Call>)
    requires calls != []
    ensures Renames(Run(FRESH, calls[..|calls| - 1]).files, Run(FRESH, calls).files)
  {
    RunKeeps(calls[..|calls| - 1]);
    CallKeeps(Run(FRESH, calls[..|calls| - 1]), calls[|calls| - 1]);
  }

  /** The target keeps the id, the name and the date of its first identity file for ever: from any point
      of a run to its end. */
  lemma {:induction false} IdentityIsStable(calls: seq<Call>, i: nat)
    requires i <= |calls|
    ensures Renames(Run(FRESH, calls[..i]).files, Run(FRESH, calls).files)
  {
    if i == |calls| {
      assert calls[..i] == calls;
    } else {
      var front := calls[..|calls| - 1];
      assert front[..i] == calls[..i];
      IdentityIsStable(front, i);
      LastCallRenames(calls);
      RenamesThen(Run(FRESH, calls[..i]).files, Run(FRESH, front).files, Run(FRESH, calls).files);
    }
  }

  lemma RenamesThen(a: Files, b: Files, c: Files)
    requires Renames(a, b) && Renames(b, c)
    ensures Renames(a, c)
  {}

  predicate SameRelease(f: Files, g: Files, slot: Slot) {
    && f.releases.Some? && g.releases.Some?
    && slot in f.releases.value.slots && slot in g.releases.value.slots
    && g.releases.value.slots[slot] == f.releases.value.slots[slot]
    && ShowsRelease(SlotFile(g, slot), f.releases.value.slots[slot])
  }

  predicate KeepsActive(f: Files, g: Files) {
    f.releases.Some? ==> f.releases.value.active.Some? && SameRelease(f, g, f.releases.value.active.value)
  }

  /** No call, crashing or not, overwrites the slot that is active when it begins: neither its release nor
      the images in its compose file. */
  lemma ActiveSlotIsKept(calls: seq<Call>, c: Call)
    ensures KeepsActive(Run(FRESH, calls).files, Next(Run(FRESH, calls), c).files)
  {
    RunKeeps(calls);
    CallKeepsActive(Run(FRESH, calls), c);
  }

  lemma CallKeepsActive(s: System, c: Call)
    requires Good(s)
    ensures KeepsActive(s.files, Next(s, c).files)
  {
    OperationShaped(s, c);
    if !Completes(s, c) || !EndsInReleases(ScriptOf(s, c).writes) {
      CutKeepsActive(s, c);
    } else if ScriptOf(s, c).outcome == Activated {
      if s.files.releases.Some? { ActivatedKeepsActive(s, c); }
    } else {
      RestoredKeepsActive(s, c);
    }
  }

  lemma CutKeepsActive(s: System, c: Call)
    requires Good(s) && (!Completes(s, c) || !EndsInReleases(ScriptOf(s, c).writes))
    ensures KeepsActive(s.files, Next(s, c).files)
  {
    CutShort(s, c);
  }

  lemma ActivatedKeepsActive(s: System, c: Call)
    requires Good(s) && Completes(s, c) && ScriptOf(s, c).outcome == Activated && s.files.releases.Some?
    ensures SameRelease(s.files, Next(s, c).files, s.files.releases.value.active.value)
  {
    ActivatedFiles(s, c);
    ActivationShaped(s, c);
    EnsuredIsGood(s, c.settings, c.world);
  }

  lemma RestoredKeepsActive(s: System, c: Call)
    requires Good(s) && Completes(s, c) && ScriptOf(s, c).outcome == Restored
    ensures s.files.releases.Some? && SameRelease(s.files, Next(s, c).files, s.files.releases.value.active.value)
  {
    RestoredFiles(s, c);
    EnsuredIsGood(s, c.settings, c.world);
  }

  /** A failed candidate that is restored changes nothing in `releases.json` but the last attempt, and the
      identity and compose files are again those of the active release. */
  lemma RestoredChangesOnlyLastAttempt(calls: seq<Call>, c: Call)
    ensures var s := Run(FRESH, calls);
            Completes(s, c) && ScriptOf(s, c).outcome == Restored ==>
              var g := Next(s, c).files;
              && s.files.releases.Some? && g.releases.Some?
              && g.releases.value.(last := s.files.releases.value.last) == s.files.releases.value
              && !(c.world.up && c.world.healthy)
              && g.identity.Some? && g.compose == Some(RenderCompose(g.identity.value))
              && ShowsRelease(g.compose, Active(s.files.releases.value).value)
  {
    RunKeeps(calls);
    var s := Run(FRESH, calls);
    if Completes(s, c) && ScriptOf(s, c).outcome == Restored {
      RestoredFiles(s, c);
      EnsuredIsGood(s, c.settings, c.world);
      EnsuredThenActivated(s, c);
    }
  }

  /** Only a candidate that passed the health gate becomes active: in every other case the call leaves
      active, previous and slots as they were. */
  lemma OnlyTheGateSwitches(calls: seq<Call>, c: Call)
    ensures var s := Run(FRESH, calls); var f, g := s.files, Next(s, c).files;
            if Completes(s, c) && ScriptOf(s, c).outcome == Activated
            then c.world.up && c.world.healthy
                 && g.releases.Some? && g.releases.value.previous == ReadReleases(f).value.active
                 && Active(g.releases.value) == Some(Chosen(s, c).0)
            else (f.releases.None? <==> g.releases.None?)
                 && (f.releases.Some? ==> g.releases.value.(last := None) == f.releases.value.(last := None))
  {
    RunKeeps(calls);
    var s := Run(FRESH, calls);
    if !Completes(s, c) || !EndsInReleases(ScriptOf(s, c).writes) {
      CutShort(s, c);
      if Completes(s, c) { OperationShaped(s, c); }
    } else {
      OperationShaped(s, c);
      if ScriptOf(s, c).outcome == Activated { ActivatedFiles(s, c); } else { RestoredFiles(s, c); }
    }
  }

  /** A rollback that ends activated. */
  predicate RollsBack(s: System, c: Call) {
    c.op == Rollback && Completes(s, c) && ScriptOf(s, c).outcome == Activated
  }

  lemma RollbackSwaps(s: System, c: Call)
    requires Good(s) && RollsBack(s, c)
    ensures s.files.releases.Some? && Next(s, c).files.releases.Some?
    ensures var f, g := s.files.releases.value, Next(s, c).files.releases.value;
            g.active == f.previous && g.previous == f.active && g.slots == f.slots
  {
    ActivatedFiles(s, c);
    ActivationShaped(s, c);
  }

  /** Two successful rollbacks restore active, previous and slots. */
  lemma TwoRollbacks(calls: seq<Call>, c: Call, d: Call)
    ensures var s := Run(FRESH, calls);
            RollsBack(s, c) && RollsBack(Next(s, c), d) ==>
              var f, g := s.files.releases, Next(Next(s, c), d).files.releases;
              f.Some? && g.Some? && g.value.(last := None) == f.value.(last := None)
  {
    RunKeeps(calls);
    var s := Run(FRESH, calls);
    if RollsBack(s, c) && RollsBack(Next(s, c), d) {
      CallKeeps(s, c);
      RollbackSwaps(s, c);
      RollbackSwaps(Next(s, c), d);
    }
  }
}
