/** Image references, and how a release is resolved to them. */
module ReleaseImages {
  import opened Options

  predicate IsSpace(c: char) {
    c == ' ' || c == '\t' || c == '\n' || c == '\r' || c == '\U{000B}' || c == '\U{000C}'
  }

  function TrimLeft(s: string): string {
    if s != "" && IsSpace(s[0]) then TrimLeft(s[1..]) else s
  }

  function TrimRight(s: string): string {
    if s != "" && IsSpace(s[|s| - 1]) then TrimRight(s[..|s| - 1]) else s
  }

  predicate IsImage(s: string) {
    s != "" && forall c :: c in s ==> !IsSpace(c)
  }

  /** `requireImage` */
  function RequireImage(value: string): (r: Option<string>)
    ensures r.Some? ==> IsImage(r.value)
    ensures IsImage(value) ==> r == Some(value)
  {
    var image := TrimRight(TrimLeft(value));
    if IsImage(image) then Some(image) else None
  }

  predicate IsHex(c: char) {
    '0' <= c <= '9' || 'a' <= c <= 'f' || 'A' <= c <= 'F'
  }

  predicate IsSha256(s: string) {
    && |s| == 8 && s[0] == '@' && (s[1] == 's' || s[1] == 'S') && (s[2] == 'h' || s[2] == 'H')
    && (s[3] == 'a' || s[3] == 'A') && s[4..] == "256:"
  }

  /** `isImmutableImageReference`: something without space, `@sha256:` and 64 hexadecimal digits. */
  predicate IsImmutable(image: string) {
    && |image| > 72
    && (forall c :: c in image[..|image| - 72] ==> !IsSpace(c))
    && IsSha256(image[|image| - 72..|image| - 64])
    && forall c :: c in image[|image| - 64..] ==> IsHex(c)
  }

  lemma ImmutableIsImage(image: string)
    requires IsImmutable(image)
    ensures IsImage(image)
  {
    var n := |image|;
    forall c | c in image ensures !IsSpace(c) {
      var i :| 0 <= i < n && image[i] == c;
      if i < n - 72 {
        assert image[..n - 72][i] == c && c in image[..n - 72];
      } else if i >= n - 64 {
        assert image[n - 64..][i - (n - 64)] == c && c in image[n - 64..];
        assert IsHex(c);
      } else {
        Sha256HasNoSpace(image[n - 72..n - 64]);
        assert image[n - 72..n - 64][i - (n - 72)] == c;
      }
    }
  }

  lemma Sha256HasNoSpace(s: string)
    requires IsSha256(s)
    ensures forall i :: 0 <= i < |s| ==> !IsSpace(s[i])
  {
    assert s[4..][0] == s[4] && s[4..][1] == s[5] && s[4..][2] == s[6] && s[4..][3] == s[7];
  }

  function BeforeAt(image: string): string {
    if image == "" || image[0] == '@' then "" else [image[0]] + BeforeAt(image[1..])
  }

  /** `lastIndexOf` */
  function LastIndex(s: string, c: char): (r: int)
    ensures -1 <= r < |s|
    ensures r >= 0 ==> s[r] == c
    ensures forall i :: r < i < |s| ==> s[i] != c
  {
    if s == "" then -1 else if s[|s| - 1] == c then |s| - 1 else LastIndex(s[..|s| - 1], c)
  }

  /** `imageRepository`: the reference without its digest and tag. */
  function Repository(image: string): string {
    var name := BeforeAt(image);
    var colon := LastIndex(name, ':');
    if colon > LastIndex(name, '/') then name[..colon] else name
  }

  /** What Docker answers to a pull and to an inspection. */
  datatype Docker = Docker(pulled: bool, inspected: bool, digests: seq<string>)

  datatype Resolved = Resolved(image: string, developmentOverride: bool)

  function FindDigest(digests: seq<string>, repository: string): (r: Option<string>)
    ensures r.Some? ==> r.value in digests && IsImmutable(r.value) && Repository(r.value) == repository
    ensures r.None? ==> forall d :: d in digests ==> !(IsImmutable(d) && Repository(d) == repository)
  {
    if digests == [] then None
    else if IsImmutable(digests[0]) && Repository(digests[0]) == repository then Some(digests[0])
    else FindDigest(digests[1..], repository)
  }

  /** `resolveImage`; `None` when it throws. */
  function ResolveImage(image: string, docker: Docker, allowMutable: bool): Option<Resolved> {
    var digest := FindDigest(docker.digests, Repository(image));
    if digest.Some? then Some(Resolved(digest.value, false))
    else if IsImmutable(image) && (docker.pulled || docker.inspected) then Some(Resolved(image, false))
    else if allowMutable && (docker.pulled || docker.inspected) then Some(Resolved(image, true))
    else None
  }

  /** What is resolved is an image of the repository that was asked for, pinned by a digest exactly
      when the development override was not needed; and that is needed only where it is allowed. */
  lemma ResolveImagePins(image: string, docker: Docker, allowMutable: bool)
    requires IsImage(image)
    ensures var r := ResolveImage(image, docker, allowMutable);
            r.Some? ==>
              && IsImage(r.value.image) && Repository(r.value.image) == Repository(image)
              && (IsImmutable(r.value.image) <==> !r.value.developmentOverride)
              && (r.value.developmentOverride ==> allowMutable)
  {
    var r := ResolveImage(image, docker, allowMutable);
    if r.Some? && IsImmutable(r.value.image) { ImmutableIsImage(r.value.image); }
  }

  datatype Status = Verified | NotConfigured | DevelopmentOverride

  datatype Release = Release(core: string, helper: string, resolvedAt: string, status: Status, detail: string)

  /** The signature policy: a key, or an identity and its issuer. Empty strings are not configured. */
  datatype Policy = Policy(key: string, identity: string, issuer: string)

  /** `verifyReleaseSignatures`; `signed` says for which images cosign succeeds. */
  function VerifySignatures(core: string, helper: string, override: bool, policy: Policy,
                            signed: string -> bool): Option<Status> {
    if override then Some(DevelopmentOverride)
    else if policy.key != "" && (policy.identity != "" || policy.issuer != "") then None
    else if (policy.identity != "") != (policy.issuer != "") then None
    else if policy.key == "" && policy.identity == "" then Some(NotConfigured)
    else if signed(core) && signed(helper) then Some(Verified)
    else None
  }

  /** `prepareRelease` */
  function PrepareRelease(coreImage: string, helperImage: string, coreDocker: Docker, helperDocker: Docker,
                          allowMutable: bool, policy: Policy, signed: string -> bool, now: string): Option<Release> {
    var core := RequireImage(coreImage);
    if core.None? then None
    else
      var c := ResolveImage(core.value, coreDocker, allowMutable);
      var helper := RequireImage(helperImage);
      if c.None? || helper.None? then None
      else
        var h := ResolveImage(helper.value, helperDocker, allowMutable);
        if h.None? then None
        else
          var override := c.value.developmentOverride || h.value.developmentOverride;
          var status := VerifySignatures(c.value.image, h.value.image, override, policy, signed);
          if status.None? then None
          else Some(Release(c.value.image, h.value.image, now, status.value, ""))
  }

  /** What `parseReleaseSlot` accepts. */
  predicate AcceptedRelease(r: Release) {
    && IsImage(r.core) && IsImage(r.helper)
    && ((IsImmutable(r.core) && IsImmutable(r.helper)) || r.status == DevelopmentOverride)
  }

  /** A prepared release is accepted when it is read back; it is under the development override exactly
      when one of its images is not pinned, and a verified one was signed by the policy in force. */
  lemma PreparedIsAccepted(coreImage: string, helperImage: string, coreDocker: Docker, helperDocker: Docker,
                           allowMutable: bool, policy: Policy, signed: string -> bool, now: string)
    ensures var r := PrepareRelease(coreImage, helperImage, coreDocker, helperDocker, allowMutable, policy, signed,
                                    now);
            r.Some? ==>
              && AcceptedRelease(r.value)
              && (r.value.status == DevelopmentOverride <==>
                    !IsImmutable(r.value.core) || !IsImmutable(r.value.helper))
              && (r.value.status == DevelopmentOverride ==> allowMutable)
              && (r.value.status == Verified ==> signed(r.value.core) && signed(r.value.helper))
              && (r.value.status == NotConfigured ==> policy.key == "" && policy.identity == "" && policy.issuer == "")
  {
    var core, helper := RequireImage(coreImage), RequireImage(helperImage);
    if core.Some? && helper.Some? {
      ResolveImagePins(core.value, coreDocker, allowMutable);
      ResolveImagePins(helper.value, helperDocker, allowMutable);
    }
  }
}
