/** The module repository: publication, staged rollout, rollback, and what the server
    answers to requests for manifests and modules. */
module ReleaseServer {
  import opened Basics
  import opened DeviceStore

  datatype Envelope = Envelope(manifest: Manifest, signature: Bytes)

  // What stands behind one application, channel, platform and profile.
  datatype Control = Control(current: Envelope, previous: Option<Envelope>, rollout: int)

  datatype Superseded = Superseded(key: Binding, release: int, digest: Digest)

  // Who may fetch a module.
  datatype Access = Public | Activation

  datatype Server = Server(
    modules: map<Digest, Bytes>,
    access: map<Digest, Access>,
    controls: map<Binding, Control>,
    archive: map<Superseded, Envelope>)

  // The hash, the signer and its check, and the bucket of an installation ID.
  datatype Keys = Keys(
    hash: Bytes -> Digest,
    sign: Manifest -> Bytes,
    verify: (Manifest, Bytes) -> bool,
    bucket: Bytes -> nat)

  // Hashes are well formed, signatures verify, there are a hundred buckets.
  ghost predicate KeysOk(k: Keys) {
    && (forall a: Bytes :: IsSha256(k.hash(a)))
    && (forall m: Manifest :: k.verify(m, k.sign(m)))
    && forall a: Bytes :: k.bucket(a) < 100
  }

  // -------- publication --------

  // The profiles whose modules and manifests need an activated client.
  predicate Managed(profile: Bytes) {
    profile == Ascii("online_provisioned") || profile == Ascii("enterprise_managed")
  }

  function AccessFor(profile: Bytes): Access {
    if Managed(profile) then Activation else Public
  }

  function WithAccess(s: Server, digest: Digest, a: Access): Server {
    s.(access := s.access[digest := a])
  }

  function ManifestOf(k: Keys, key: Binding, release: int, content: Bytes): Manifest {
    Manifest(key, release, k.hash(content), |content|, k.hash(content))
  }

  function Sealed(k: Keys, m: Manifest): Envelope {
    Envelope(m, k.sign(m))
  }

  // Modules are stored before any manifest names them.
  function WithContent(k: Keys, s: Server, content: Bytes): Server {
    if k.hash(content) in s.modules then s else s.(modules := s.modules[k.hash(content) := content])
  }

  function SupersededBy(key: Binding, e: Envelope): Superseded {
    Superseded(key, e.manifest.release, e.manifest.digest)
  }

  function Archived(s: Server, key: Binding): Server
    requires key in s.controls
  {
    var latest := s.controls[key].current;
    if SupersededBy(key, latest) in s.archive then s
    else s.(archive := s.archive[SupersededBy(key, latest) := latest])
  }

  datatype Verdict = New | Same | Refused

  function Judged(k: Keys, s: Server, key: Binding, release: int, content: Bytes): Verdict {
    if key !in s.controls then New
    else
      var latest := s.controls[key].current.manifest;
      if latest.release == release && latest.digest == k.hash(content) then Same
      else if latest.release >= release then Refused
      else New
  }

  function NextControl(k: Keys, s: Server, key: Binding, release: int, content: Bytes): Control {
    Control(Sealed(k, ManifestOf(k, key, release, content)),
            if key in s.controls then Some(s.controls[key].current) else None, 100)
  }

  function WithControl(s: Server, key: Binding, c: Control): Server {
    s.(controls := s.controls[key := c])
  }

  // Every state a publication leaves behind, in order.
  function PublishTrace(k: Keys, s: Server, key: Binding, release: int, content: Bytes): seq<Server> {
    var s0 := WithContent(k, s, content);
    var s1 := WithAccess(s0, k.hash(content), AccessFor(key.profile));
    match Judged(k, s, key, release, content)
    case Refused => [s0, s1]
    case Same => [s0, s1, s1]
    case New =>
      var s2 := if key in s.controls then Archived(s1, key) else s1;
      [s0, s1, s2, WithControl(s2, key, NextControl(k, s, key, release, content))]
  }

  // -------- staged rollout --------

  function SetRollout(c: Control, percentage: int): Option<Control> {
    if percentage < 0 || percentage > 100 || (percentage < 100 && c.previous.None?) then None
    else Some(c.(rollout := percentage))
  }

  function Rollback(c: Control): Option<Control> {
    if c.previous.None? then None else Some(c.(rollout := 0))
  }

  // The bucket of an installation that names itself.
  function BucketOf(k: Keys, installation: Bytes): Option<nat> {
    if installation == [] then None else Some(k.bucket(installation))
  }

  function Selected(c: Control, bucket: Option<nat>): Envelope {
    if c.rollout < 100 && c.previous.Some? && (bucket.None? || bucket.value >= c.rollout)
    then c.previous.value else c.current
  }

  // -------- answers --------

  type Tag = Envelope -> Bytes

  datatype ManifestAnswer = NoManifest | ManifestDenied | Unchanged | Manifested(envelope: Envelope)

  // The answer for a key: only activated clients learn anything about a managed profile,
  // and a client that names the tag of the answer is told that nothing changed.
  function ManifestFor(k: Keys, tag: Tag, s: Server, key: Binding, installation: Bytes, known: Option<Bytes>,
                       activated: bool): ManifestAnswer
  {
    if Managed(key.profile) && !activated then ManifestDenied
    else if key !in s.controls then NoManifest
    else
      var e := Selected(s.controls[key], BucketOf(k, installation));
      if known == Some(tag(e)) then Unchanged else Manifested(e)
  }

  datatype ModuleAnswer = NoModule | ModuleDenied | Corrupt | Served(content: Bytes)

  // A module's file name is its digest and a suffix.
  function FileName(d: Digest): Bytes {
    d + Ascii(".pvm")
  }

  // A module without an access file needs activation.
  function NeedsActivation(s: Server, d: Digest): bool {
    d in s.access ==> s.access[d].Activation?
  }

  function ModuleFor(k: Keys, s: Server, d: Digest, activated: bool): ModuleAnswer {
    if NeedsActivation(s, d) && !activated then ModuleDenied
    else if d !in s.modules then NoModule
    else if k.hash(s.modules[d]) != d then Corrupt
    else Served(s.modules[d])
  }

  // -------- what the repository keeps --------

  ghost predicate EnvelopeOk(k: Keys, s: Server, key: Binding, e: Envelope) {
    var m := e.manifest;
    && m.binding == key && m.release >= 1 && m.url == m.digest && k.verify(m, e.signature)
    && m.digest in s.modules && k.hash(s.modules[m.digest]) == m.digest && |s.modules[m.digest]| == m.size
  }

  ghost predicate ControlOk(k: Keys, s: Server, key: Binding, c: Control) {
    && EnvelopeOk(k, s, key, c.current)
    && 0 <= c.rollout <= 100 && (c.rollout < 100 ==> c.previous.Some?)
    && (c.previous.Some? ==>
          && EnvelopeOk(k, s, key, c.previous.value)
          && c.previous.value.manifest.release < c.current.manifest.release)
  }

  // Modules lie under their hashes, with the one size that belongs to each.
  ghost predicate ModulesOk(k: Keys, z: Sizes, s: Server) {
    forall d :: d in s.modules ==> k.hash(s.modules[d]) == d && |s.modules[d]| == z(d)
  }

  ghost predicate ServerOk(k: Keys, z: Sizes, s: Server) {
    && ModulesOk(k, z, s)
    && forall key :: key in s.controls ==> ControlOk(k, s, key, s.controls[key])
  }

  // More modules and another archive leave every control good.
  lemma {:induction false} GrowthKeeps(k: Keys, z: Sizes, s: Server, s': Server)
    requires ServerOk(k, z, s) && s'.controls == s.controls
    requires ModulesOk(k, z, s')
    requires forall d :: d in s.modules ==> d in s'.modules && s'.modules[d] == s.modules[d]
    ensures ServerOk(k, z, s')
  {
    forall key | key in s'.controls ensures ControlOk(k, s', key, s'.controls[key]) {
      assert ControlOk(k, s, key, s.controls[key]);
    }
  }

  lemma {:induction false} ContentKeeps(k: Keys, z: Sizes, s: Server, content: Bytes, a: Access)
    requires ServerOk(k, z, s) && |content| == z(k.hash(content))
    ensures var s0, s1 := WithContent(k, s, content), WithAccess(WithContent(k, s, content), k.hash(content), a);
      && ServerOk(k, z, s0) && s0.controls == s.controls && s0.archive == s.archive
      && ServerOk(k, z, s1) && s1.controls == s.controls && s1.archive == s.archive && s1.modules == s0.modules
      && k.hash(content) in s0.modules
      && forall d :: d in s.modules ==> d in s0.modules && s0.modules[d] == s.modules[d]
  {
    GrowthKeeps(k, z, s, WithContent(k, s, content));
    GrowthKeeps(k, z, s, WithAccess(WithContent(k, s, content), k.hash(content), a));
  }

  // A publication may stop anywhere: at every point each control names stored modules,
  // the previous release is older, and no module was lost.
  lemma {:induction false} PublishKeeps(k: Keys, z: Sizes, s: Server, key: Binding, release: int, content: Bytes, i: nat)
    requires KeysOk(k) && ServerOk(k, z, s) && release >= 1 && |content| == z(k.hash(content))
    requires i < |PublishTrace(k, s, key, release, content)|
    ensures var s' := PublishTrace(k, s, key, release, content)[i];
      && ServerOk(k, z, s')
      && (forall d :: d in s.modules ==> d in s'.modules && s'.modules[d] == s.modules[d])
      && (forall x :: x in s.controls ==>
            && x in s'.controls
            && s'.controls[x].current.manifest.release >= s.controls[x].current.manifest.release)
  {
    hide ServerOk, NextControl, Archived, WithContent, WithAccess, Judged, AccessFor;
    ContentKeeps(k, z, s, content, AccessFor(key.profile));
    if Judged(k, s, key, release, content).New? {
      NextKeeps(k, z, s, key, release, content);
    }
  }

  lemma {:induction false} NextKeeps(k: Keys, z: Sizes, s: Server, key: Binding, release: int, content: Bytes)
    requires KeysOk(k) && ServerOk(k, z, s) && release >= 1 && Judged(k, s, key, release, content).New?
    requires |content| == z(k.hash(content))
    ensures var s1 := WithAccess(WithContent(k, s, content), k.hash(content), AccessFor(key.profile));
      var s2 := if key in s.controls then Archived(s1, key) else s1;
      && ServerOk(k, z, s2) && s2.modules == s1.modules && s2.controls == s.controls
      && ServerOk(k, z, WithControl(s2, key, NextControl(k, s, key, release, content)))
      && (key in s.controls ==> s.controls[key].current.manifest.release < release)
      && NextControl(k, s, key, release, content).current.manifest.release == release
  {
    hide AccessFor;
    ContentKeeps(k, z, s, content, AccessFor(key.profile));
    var s1 := WithAccess(WithContent(k, s, content), k.hash(content), AccessFor(key.profile));
    var s2 := if key in s.controls then Archived(s1, key) else s1;
    hide WithContent, WithAccess;
    GrowthKeeps(k, z, s1, s2);
    var c := NextControl(k, s, key, release, content);
    assert ControlOk(k, s2, key, c) by {
      ContentFits(k, z, s, content);
      AccessLeaves(WithContent(k, s, content), k.hash(content), AccessFor(key.profile));
      if key in s.controls {
        assert ControlOk(k, s2, key, s2.controls[key]);
      }
    }
    hide ControlOk, Archived;
    ControlKeeps(k, z, s2, key, c);
  }

  // Whatever is stored under the content's hash has the size the manifest states.
  lemma {:induction false} ContentFits(k: Keys, z: Sizes, s: Server, content: Bytes)
    requires ServerOk(k, z, s) && |content| == z(k.hash(content))
    ensures var m := WithContent(k, s, content).modules;
      k.hash(content) in m && k.hash(m[k.hash(content)]) == k.hash(content) && |m[k.hash(content)]| == |content|
  {
    ContentKeeps(k, z, s, content, Public);
  }

  lemma {:induction false} AccessLeaves(s: Server, d: Digest, a: Access)
    ensures WithAccess(s, d, a).modules == s.modules && WithAccess(s, d, a).controls == s.controls
  {
  }

  lemma {:induction false} ControlKeeps(k: Keys, z: Sizes, s: Server, key: Binding, c: Control)
    requires ServerOk(k, z, s) && ControlOk(k, s, key, c)
    ensures ServerOk(k, z, WithControl(s, key, c))
  {
    var s' := WithControl(s, key, c);
    forall x | x in s'.controls ensures ControlOk(k, s', x, s'.controls[x]) {
      if x != key {
        assert ControlOk(k, s, x, s.controls[x]);
      }
    }
  }

  lemma {:induction false} RolloutKeeps(k: Keys, z: Sizes, s: Server, key: Binding, percentage: int)
    requires ServerOk(k, z, s) && key in s.controls
    ensures SetRollout(s.controls[key], percentage).Some? ==>
      ServerOk(k, z, WithControl(s, key, SetRollout(s.controls[key], percentage).value))
    ensures Rollback(s.controls[key]).Some? ==> ServerOk(k, z, WithControl(s, key, Rollback(s.controls[key]).value))
  {
    assert ControlOk(k, s, key, s.controls[key]);
    if SetRollout(s.controls[key], percentage).Some? {
      ControlKeeps(k, z, s, key, SetRollout(s.controls[key], percentage).value);
    }
    if Rollback(s.controls[key]).Some? {
      ControlKeeps(k, z, s, key, Rollback(s.controls[key]).value);
    }
  }

  // -------- who is served what --------

  // Raising the percentage never moves an installation back to the previous release.
  lemma {:induction false} RaisingKeepsCurrent(c: Control, bucket: Option<nat>, from: int, to: int)
    requires from <= to && SetRollout(c, from).Some? && SetRollout(c, to).Some?
    requires Selected(SetRollout(c, from).value, bucket) == c.current
    ensures Selected(SetRollout(c, to).value, bucket) == c.current
  {
  }

  ghost function BucketsBelow(n: nat): (r: set<nat>)
    ensures |r| == n && forall b: nat :: b in r <==> b < n
  {
    if n == 0 then {}
    else
      var last: nat := n - 1;
      BucketsBelow(last) + {last}
  }

  // Of the hundred buckets exactly the stated percentage gets the current release, and
  // installations that do not name themselves only join at a full rollout.
  lemma {:induction false} RolloutShare(c: Control)
    requires 0 <= c.rollout <= 100 && c.previous.Some? && c.previous.value != c.current
    ensures |set b: nat | b < 100 && Selected(c, Some(b)) == c.current| == c.rollout
    ensures Selected(c, None) == c.current <==> c.rollout == 100
  {
    assert (set b: nat | b < 100 && Selected(c, Some(b)) == c.current) == BucketsBelow(c.rollout);
  }

  // -------- managed modules --------

  // Every access file says what the profile of its module asks for.
  ghost predicate AccessOk(profiles: Digest -> Bytes, s: Server) {
    forall d :: d in s.access ==> s.access[d] == AccessFor(profiles(d))
  }

  lemma {:induction false} PublishAccess(k: Keys, profiles: Digest -> Bytes, s: Server, key: Binding, release: int,
      content: Bytes, i: nat)
    requires AccessOk(profiles, s) && profiles(k.hash(content)) == key.profile
    requires i < |PublishTrace(k, s, key, release, content)|
    ensures AccessOk(profiles, PublishTrace(k, s, key, release, content)[i])
  {
    hide AccessFor, Judged, NextControl;
  }

  // However it came about, a module with a managed profile never reaches a client that
  // is not activated, and a module that is served has the hash it was asked by.
  lemma {:induction false} ManagedStaysClosed(k: Keys, profiles: Digest -> Bytes, s: Server, d: Digest, activated: bool)
    requires AccessOk(profiles, s) && ModuleFor(k, s, d, activated).Served?
    ensures k.hash(ModuleFor(k, s, d, activated).content) == d
    ensures activated || !Managed(profiles(d))
  {
    hide Managed;
  }

  // -------- the repository object --------

  class Repository {
    const keys: Keys
    var modules: map<Digest, Bytes>
    var access: map<Digest, Access>
    var controls: map<Binding, Control>
    var archive: map<Superseded, Envelope>
    // The repository after every file step so far.
    ghost var steps: seq<Server>

    constructor (keys: Keys)
      ensures this.keys == keys && View() == Server(map[], map[], map[], map[]) && steps == []
    {
      this.keys := keys;
      modules, access, controls, archive, steps := map[], map[], map[], map[], [];
    }

    function View(): Server
      reads this
    {
      Server(modules, access, controls, archive)
    }

    method WriteControl(key: Binding, c: Control)
      modifies this
      ensures View() == WithControl(old(View()), key, c) && steps == old(steps) + [View()]
    {
      controls := controls[key := c];
      steps := steps + [View()];
    }

    // Stores a module under its hash, then its access file.
    method StoreModule(profile: Bytes, content: Bytes)
      modifies this
      ensures var s0 := WithContent(keys, old(View()), content);
        && View() == WithAccess(s0, keys.hash(content), AccessFor(profile))
        && steps == old(steps) + [s0, View()]
    {
      hide AccessFor;
      var digest := keys.hash(content);
      if digest !in modules {
        modules := modules[digest := content];
      }
      steps := steps + [View()];
      access := access[digest := AccessFor(profile)];
      steps := steps + [View()];
    }

    // Publishes a compiled module; the returned manifest is what the key now serves.
    method Publish(key: Binding, release: int, content: Bytes) returns (r: Option<Manifest>)
      modifies this
      ensures steps == old(steps) + PublishTrace(keys, old(View()), key, release, content)
      ensures View() == steps[|steps| - 1]
      ensures r.None? <==> Judged(keys, old(View()), key, release, content).Refused?
      ensures r.Some? ==>
        && key in controls && r.value == controls[key].current.manifest
        && r.value.release == release && r.value.digest == keys.hash(content)
    {
      hide AccessFor;
      var digest := keys.hash(content);
      StoreModule(key.profile, content);
      ghost var stored := View();
      var previous: Option<Envelope> := None;
      if key in controls {
        var latest := controls[key].current;
        if latest.manifest.release == release && latest.manifest.digest == digest {
          WriteControl(key, controls[key]);
          assert View() == stored;
          return Some(latest.manifest);
        }
        if latest.manifest.release >= release {
          return None;
        }
        if SupersededBy(key, latest) !in archive {
          archive := archive[SupersededBy(key, latest) := latest];
        }
        previous := Some(latest);
      }
      steps := steps + [View()];
      var m := ManifestOf(keys, key, release, content);
      WriteControl(key, Control(Sealed(keys, m), previous, 100));
      r := Some(m);
    }

    method ChangeRollout(key: Binding, percentage: int) returns (r: Option<Control>)
      requires key in controls
      modifies this
      ensures r == SetRollout(old(controls[key]), percentage)
      ensures View() == if r.Some? then WithControl(old(View()), key, r.value) else old(View())
    {
      if percentage < 0 || percentage > 100 {
        return None;
      }
      var c := controls[key];
      if percentage < 100 && c.previous.None? {
        return None;
      }
      c := c.(rollout := percentage);
      WriteControl(key, c);
      r := Some(c);
    }

    method RollBack(key: Binding) returns (r: Option<Control>)
      requires key in controls
      modifies this
      ensures r == Rollback(old(controls[key]))
      ensures View() == if r.Some? then WithControl(old(View()), key, r.value) else old(View())
    {
      var c := controls[key];
      if c.previous.None? {
        return None;
      }
      c := c.(rollout := 0);
      WriteControl(key, c);
      r := Some(c);
    }

    // Answers a manifest request. The bucket is only computed for a partial rollout.
    method ServeManifest(key: Binding, installation: Bytes, known: Option<Bytes>, activated: bool, tag: Tag)
        returns (r: ManifestAnswer)
      ensures r == ManifestFor(keys, tag, View(), key, installation, known, activated)
    {
      if Managed(key.profile) && !activated {
        return ManifestDenied;
      }
      if key !in controls {
        return NoManifest;
      }
      var control := controls[key];
      var selected := control.current;
      var bucket: Option<nat> := None;
      if control.rollout < 100 && control.previous.Some? {
        if installation != [] {
          bucket := Some(keys.bucket(installation));
        }
        if bucket.None? || bucket.value >= control.rollout {
          selected := control.previous.value;
        }
      }
      r := if known == Some(tag(selected)) then Unchanged else Manifested(selected);
    }

    // Answers a module request by file name. What is served has the hash in its name, and
    // a module without a public access file is for activated clients only.
    method ServeModule(filename: Bytes, activated: bool) returns (r: ModuleAnswer)
      ensures (forall d: Digest :: IsSha256(d) ==> filename != FileName(d)) ==> r == NoModule
      ensures forall d: Digest :: IsSha256(d) && filename == FileName(d) ==> r == ModuleFor(keys, View(), d, activated)
      ensures r.Served? ==> filename == FileName(keys.hash(r.content))
    {
      if |filename| != 68 || filename[64..] != Ascii(".pvm") {
        return NoModule;
      }
      var digest := filename[..64];
      if !IsSha256(digest) {
        return NoModule;
      }
      assert filename == FileName(digest);
      assert forall d: Digest :: IsSha256(d) && filename == FileName(d) ==> d == FileName(d)[..64] == digest;
      if (digest in access ==> access[digest].Activation?) && !activated {
        return ModuleDenied;
      }
      if digest !in modules {
        return NoModule;
      }
      if keys.hash(modules[digest]) != digest {
        return Corrupt;
      }
      r := Served(modules[digest]);
    }
  }
}
