/** The two release slots of a suitcase target and the files that describe them.

    Every operation is a script of atomic file writes, decided by the files it starts from and by what
    Docker answers. A crash leaves the files as after some first part of the script.
 */
module ReleaseSlots {
  import opened Options
  import opened ReleaseImages

  datatype Slot = A | B

  datatype Attempt = Attempt(at: string, core: string, helper: string, activated: bool, detail: string)

  /** The contents of `releases.json`. */
  datatype Releases = Releases(active: Option<Slot>, previous: Option<Slot>, slots: map<Slot, Release>,
                               last: Option<Attempt>)

  /** The contents of `target.json`. */
  datatype Target = Target(id: string, name: string, createdAt: string, protocol: string, core: string, helper: string,
                           https: int, http: int, access: string)

  /** The compose file shows these fields of the target, and the environment file those. */
  datatype ComposeText = ComposeText(id: string, protocol: string, core: string, helper: string, https: int, http: int)
  datatype EnvironmentText = EnvironmentText(id: string, core: string, helper: string, https: int, http: int,
                                             access: string,
                                             protocol: string)

  function RenderCompose(t: Target): ComposeText {
    ComposeText(t.id, t.protocol, t.core, t.helper, t.https, t.http)
  }

  function RenderEnvironment(t: Target): EnvironmentText {
    EnvironmentText(t.id, t.core, t.helper, t.https, t.http, t.access, t.protocol)
  }

  datatype Files = Files(identity: Option<Target>, environment: Option<EnvironmentText>, compose: Option<ComposeText>,
                         slotA: Option<ComposeText>, slotB: Option<ComposeText>, candidate: Option<ComposeText>,
                         releases: Option<Releases>)

  function SlotFile(f: Files, slot: Slot): Option<ComposeText> {
    if slot == A then f.slotA else f.slotB
  }

  // ---- writes ----

  datatype Write =
    | WriteIdentity(target: Target)
    | WriteEnvironment(target: Target)
    | WriteCompose(target: Target)
    | WriteCandidate(target: Target)
    | WriteSlot(slot: Slot, target: Target)
    | WriteReleases(releases: Releases)

  function Apply(f: Files, w: Write): Files {
    match w
    case WriteIdentity(t) => f.(identity := Some(t))
    case WriteEnvironment(t) => f.(environment := Some(RenderEnvironment(t)))
    case WriteCompose(t) => f.(compose := Some(RenderCompose(t)))
    case WriteCandidate(t) => f.(candidate := Some(RenderCompose(t)))
    case WriteSlot(slot, t) =>
      if slot == A then f.(slotA := Some(RenderCompose(t))) else f.(slotB := Some(RenderCompose(t)))
    case WriteReleases(r) => f.(releases := Some(r))
  }

  function ApplyAll(f: Files, writes: seq<Write>): Files
    decreases |writes|
  {
    if writes == [] then f else ApplyAll(Apply(f, writes[0]), writes[1..])
  }

  // ---- reading ----

  /** What `parseReleaseState` accepts. */
  predicate AcceptedReleases(r: Releases) {
    && (r.active.Some? ==> r.active != r.previous)
    && (forall slot :: slot in r.slots ==> AcceptedRelease(r.slots[slot]))
    && (r.active.Some? ==> r.active.value in r.slots)
    && (r.previous.Some? ==> r.previous.value in r.slots)
  }

  const EMPTY := Releases(None, None, map[], None)

  function ReadReleases(f: Files): Option<Releases> {
    if f.releases.None? then Some(EMPTY)
    else if AcceptedReleases(f.releases.value) then f.releases
    else None
  }

  predicate IsPort(n: int) {
    1 <= n <= 65535
  }

  predicate IsAccess(mode: string) {
    mode == "auto" || mode == "native-local" || mode == "host-helper-local" || mode == "ip"
  }

  /** What `parseTarget` accepts. */
  predicate AcceptedTarget(t: Target) {
    && RequireImage(t.core).Some? && RequireImage(t.helper).Some?
    && IsPort(t.https) && IsPort(t.http) && IsAccess(t.access)
  }

  // ---- operations ----

  datatype Settings = Settings(core: Option<string>, helper: Option<string>, https: Option<int>, http: Option<int>,
                               access: Option<string>, allowMutable: bool, policy: Policy)

  const PROTOCOL := "1"
  // the tag is the version of the package
  const DEFAULT_CORE := "ghcr.io/deploy-local/deploy.local-suitcase-core:version"
  const DEFAULT_HELPER := "ghcr.io/deploy-local/deploy.local-suitcase-helper:version"

  /** What the world outside answers during one operation. */
  datatype World = World(uuid: string, now: string, preflight: bool, coreDocker: Docker, helperDocker: Docker,
                         signed: string -> bool, up: bool, healthy: bool, restored: bool, restoredHealthy: bool,
                         detail: string)

  function Or<T>(first: Option<T>, second: Option<T>, otherwise: T): T {
    if first.Some? then first.value else if second.Some? then second.value else otherwise
  }

  function Active(r: Releases): Option<Release> {
    if r.active.Some? && r.active.value in r.slots then Some(r.slots[r.active.value]) else None
  }

  function FirstPart(id: string): string {
    if |id| <= 8 then id else id[..8]
  }

  function Wanted(f: Files, r: Releases, s: Settings, w: World): Target {
    var known, active := f.identity, Active(r);
    var id := if known.Some? then known.value.id else w.uuid;
    Target(id,
           if known.Some? then known.value.name else "suitcase-" + FirstPart(id),
           if known.Some? then known.value.createdAt else w.now,
           PROTOCOL,
           if active.Some? then active.value.core
           else Or(s.core, if known.Some? then Some(known.value.core) else None, DEFAULT_CORE),
           if active.Some? then active.value.helper
           else Or(s.helper, if known.Some? then Some(known.value.helper) else None, DEFAULT_HELPER),
           Or(s.https, if known.Some? then Some(known.value.https) else None, 8443),
           Or(s.http, if known.Some? then Some(known.value.http) else None, 8080),
           Or(s.access, if known.Some? then Some(known.value.access) else None, "auto"))
  }

  /** The target that `ensureArtifacts` writes; `None` when it throws, which is before any write. */
  function EnsuredTarget(f: Files, s: Settings, w: World): Option<Target> {
    if f.identity.Some? && !AcceptedTarget(f.identity.value) then None
    else
      var releases := ReadReleases(f);
      if releases.None? then None
      else
        var t := Wanted(f, releases.value, s, w);
        if !AcceptedTarget(t) || t.http == t.https then None
        else Some(t.(core := RequireImage(t.core).value, helper := RequireImage(t.helper).value))
  }

  function TargetWrites(t: Target): seq<Write> {
    [WriteIdentity(t), WriteEnvironment(t), WriteCompose(t)]
  }

  function EnsureWrites(r: Releases, t: Target): seq<Write> {
    TargetWrites(t) + if r.active.Some? then [WriteSlot(r.active.value, t)] else []
  }

  datatype Outcome = Threw | Started | Activated | Restored

  /** The writes of an operation and how it ends. `gate` is the candidate that passed the health gate, and
      the number of writes before it was started. */
  datatype Script = Script(writes: seq<Write>, outcome: Outcome, gate: Option<(nat, Release)>)

  function ForRelease(t: Target, r: Release): Target {
    t.(core := r.core, helper := r.helper)
  }

  /** `runRelease`: the two writes before the candidate is started. */
  function CandidateWrites(t: Target): seq<Write> {
    [WriteCandidate(t), WriteCompose(t)]
  }

  function ActivatedReleases(r: Releases, candidate: Release, slot: Slot, now: string): Releases {
    Releases(Some(slot), r.active, r.slots[slot := candidate],
             Some(Attempt(now, candidate.core, candidate.helper, true, "")))
  }

  function RestoredReleases(r: Releases, candidate: Release, w: World): Releases {
    r.(last := Some(Attempt(w.now, candidate.core, candidate.helper, false, w.detail)))
  }

  /** `restoreActiveRelease` */
  function RestoreScript(t: Target, r: Releases, candidate: Release, w: World): Script {
    var active := Active(r);
    if active.None? then Script([], Threw, None)
    else
      var writes := TargetWrites(ForRelease(t, active.value));
      if !w.restored || !w.restoredHealthy then Script(writes, Threw, None)
      else Script(writes + [WriteReleases(RestoredReleases(r, candidate, w))], Restored, None)
  }

  /** `activateRelease` */
  function ActivateScript(t: Target, r: Releases, candidate: Release, slot: Slot, w: World): Script {
    var c := ForRelease(t, candidate);
    if w.up && w.healthy then
      var activated := WriteReleases(ActivatedReleases(r, candidate, slot, w.now));
      Script(CandidateWrites(c) + ([WriteSlot(slot, c)] + TargetWrites(c) + [activated]),
             Activated, Some((2, candidate)))
    else
      var restore := RestoreScript(t, r, candidate, w);
      Script(CandidateWrites(c) + restore.writes, restore.outcome, None)
  }

  function After(writes: seq<Write>, s: Script): Script {
    Script(writes + s.writes, s.outcome,
           if s.gate.Some? then Some((|writes| + s.gate.value.0, s.gate.value.1)) else None)
  }

  /** `prepareRelease` for the two images, with the settings' policy. */
  function Prepared(core: string, helper: string, s: Settings, w: World): Option<Release> {
    PrepareRelease(core, helper, w.coreDocker, w.helperDocker, s.allowMutable, s.policy, w.signed, w.now)
  }

  datatype Operation = Start | Upgrade | Rollback

  /** What each operation activates, and where. */
  function Choice(op: Operation, t: Target, r: Releases, s: Settings, w: World): Option<(Release, Slot)> {
    match op
    case Start =>
      var c := Prepared(t.core, t.helper, s, w);
      if c.Some? then Some((c.value, A)) else None
    case Upgrade =>
      var c := Prepared(Or(s.core, None, DEFAULT_CORE), Or(s.helper, None, DEFAULT_HELPER), s, w);
      if c.Some? then Some((c.value, if r.active == Some(A) then B else A)) else None
    case Rollback =>
      if r.active.None? || r.previous.None? || r.previous.value !in r.slots then None
      else Some((r.slots[r.previous.value], r.previous.value))
  }

  /** `start`, `upgrade` and `rollback`. */
  function OperationScript(op: Operation, f: Files, s: Settings, w: World): Script {
    var t, r := EnsuredTarget(f, s, w), ReadReleases(f);
    if t.None? || r.None? then Script([], Threw, None)
    else
      var ensured := EnsureWrites(r.value, t.value);
      if !w.preflight then Script(ensured, Threw, None)
      else if op == Start && r.value.active.Some? then Script(ensured, if w.up && w.healthy then Started else Threw,
                                                              None)
      else
        var c := Choice(op, t.value, r.value, s, w);
        if c.None? then Script(ensured, Threw, None)
        else After(ensured, ActivateScript(t.value, r.value, c.value.0, c.value.1, w))
  }

  // ---- lemmas about writes ----

  lemma {:induction false} ApplyAppend(f: Files, a: seq<Write>, b: seq<Write>)
    ensures ApplyAll(f, a + b) == ApplyAll(ApplyAll(f, a), b)
    decreases |a|
  {
    if a == [] {
      assert a + b == b;
    } else {
      assert (a + b)[0] == a[0] && (a + b)[1..] == a[1..] + b;
      ApplyAppend(Apply(f, a[0]), a[1..], b);
    }
  }

  function Executed(writes: seq<Write>, budget: nat): seq<Write> {
    if budget < |writes| then writes[..budget] else writes
  }
}
