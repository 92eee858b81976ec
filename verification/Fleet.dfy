/** Server and devices together: every interleaving of publications, rollout changes,
    rollbacks and refreshes, with crashes at any file step. */
module Fleet {
  import opened Basics
  import opened DeviceStore
  import opened ReleaseServer

  datatype Device = Device(client: Client, installation: Bytes, disk: Disk)

  // The releases published under each key, oldest first, are only observed.
  datatype World = World(server: Server, devices: seq<Device>, published: map<Binding, seq<int>>)

  datatype Action =
    | Publish(key: Binding, release: int, content: Bytes, crash: Option<nat>)
    | ChangeRollout(key: Binding, percentage: int)
    | RollBack(key: Binding)
    | Refresh(device: nat, online: bool, complete: bool, crash: Option<nat>)

  // The compiler publishes positive 64-bit releases only, and no two contents of
  // different sizes share a hash.
  predicate ActionOk(k: Keys, z: Sizes, a: Action) {
    a.Publish? ==> 1 <= a.release <= MAX_U64 && |a.content| == z(k.hash(a.content))
  }

  // -------- one device and the server --------

  // What an activated device makes of the server's answer; its request carries its
  // recorded ETag when it has a usable module.
  function Answered(k: Keys, tag: Tag, s: Server, d: Device): Reply {
    match ManifestFor(k, tag, s, d.client.binding, d.installation, RecordedTag(d), true)
    case Manifested(e) => if k.verify(e.manifest, e.signature) then Signed(e.manifest, tag(e)) else Forged
    case Unchanged => NotModified
    case _ => Unavailable
  }

  function RecordedTag(d: Device): Option<Bytes> {
    if LastKnownGood(d.client, d.disk).Some? && BoundState(d.client, d.disk).value.etag != []
    then Some(BoundState(d.client, d.disk).value.etag) else None
  }

  function Downloaded(k: Keys, s: Server, r: Reply): Option<Bytes> {
    if !r.Signed? then None
    else match ModuleFor(k, s, r.manifest.digest, true) case Served(content) => Some(content) case _ => None
  }

  function RefreshAttempt(k: Keys, tag: Tag, s: Server, d: Device, online: bool, complete: bool,
      crash: Option<nat>): Attempt {
    var reply := if online then Answered(k, tag, s, d) else Unavailable;
    Attempt(reply, if complete then Downloaded(k, s, reply) else None, crash)
  }

  function Refreshed(k: Keys, tag: Tag, s: Server, d: Device, a: Action): Device
    requires a.Refresh?
  {
    d.(disk := Attempted(d.client, d.disk, RefreshAttempt(k, tag, s, d, a.online, a.complete, a.crash)))
  }

  // -------- steps --------

  // The repository when a publication stops after some steps or runs to its end.
  function PublishedServer(k: Keys, s: Server, a: Action): Server
    requires a.Publish?
  {
    var t := PublishTrace(k, s, a.key, a.release, a.content);
    if a.crash.Some? && a.crash.value < |t| then (if a.crash.value == 0 then s else t[a.crash.value - 1]) else t[|t| - 1]
  }

  predicate Completes(k: Keys, s: Server, a: Action)
    requires a.Publish?
  {
    && Judged(k, s, a.key, a.release, a.content).New?
    && (a.crash.None? || a.crash.value >= |PublishTrace(k, s, a.key, a.release, a.content)|)
  }

  function Releases(w: World, key: Binding): seq<int> {
    if key in w.published then w.published[key] else []
  }

  function Step(k: Keys, tag: Tag, w: World, a: Action): World {
    match a
    case Publish(key, release, content, crash) =>
      w.(server := PublishedServer(k, w.server, a),
         published := if Completes(k, w.server, a) then w.published[key := Releases(w, key) + [release]] else w.published)
    case ChangeRollout(key, percentage) =>
      if key !in w.server.controls || SetRollout(w.server.controls[key], percentage).None? then w
      else w.(server := WithControl(w.server, key, SetRollout(w.server.controls[key], percentage).value))
    case RollBack(key) =>
      if key !in w.server.controls || Rollback(w.server.controls[key]).None? then w
      else w.(server := WithControl(w.server, key, Rollback(w.server.controls[key]).value))
    case Refresh(i, _, _, _) =>
      if i >= |w.devices| then w
      else w.(devices := w.devices[i := Refreshed(k, tag, w.server, w.devices[i], a)])
  }

  function Run(k: Keys, tag: Tag, w: World, actions: seq<Action>): World
    decreases |actions|
  {
    if actions == [] then w else Run(k, tag, Step(k, tag, w, actions[0]), actions[1..])
  }

  // -------- the invariant --------

  ghost predicate Increasing(rs: seq<int>) {
    forall i, j :: 0 <= i < j < |rs| ==> rs[i] < rs[j]
  }

  // The current release of a key is the last one published, the previous release the one
  // before it.
  ghost predicate KeyLog(rs: seq<int>, s: Server, key: Binding) {
    && Increasing(rs)
    && (rs == [] <==> key !in s.controls)
    && (rs != [] ==>
          var c := s.controls[key];
          && c.current.manifest.release == rs[|rs| - 1]
          && (c.previous.Some? <==> |rs| >= 2)
          && (|rs| >= 2 ==> c.previous.value.manifest.release == rs[|rs| - 2]))
  }

  ghost predicate LogOk(w: World) {
    forall key: Binding :: KeyLog(Releases(w, key), w.server, key)
  }

  ghost predicate DeviceOk(k: Keys, z: Sizes, tag: Tag, d: Device) {
    && ClientOk(d.client) && d.client.hash == k.hash && SizesOk(d.client, z, d.disk)
    && forall e: Envelope :: RecordsFit(d.client, tag(e))
  }

  ghost predicate WorldOk(k: Keys, z: Sizes, tag: Tag, w: World) {
    && KeysOk(k) && ServerOk(k, z, w.server) && LogOk(w)
    && forall i :: 0 <= i < |w.devices| ==> DeviceOk(k, z, tag, w.devices[i]) && Recorded(w, w.devices[i])
  }

  // A device records no release that was never published under its key.
  ghost predicate Recorded(w: World, d: Device) {
    BoundState(d.client, d.disk).Some? ==> Release(d.client, d.disk) in Releases(w, d.client.binding)
  }

  // -------- devices --------

  // What the server signs is honest: it states the one size of its digest.
  lemma {:induction false} AnswersHonest(k: Keys, z: Sizes, tag: Tag, s: Server, d: Device)
    requires KeysOk(k) && ServerOk(k, z, s) && DeviceOk(k, z, tag, d)
    ensures ReplyOk(d.client, d.disk, Answered(k, tag, s, d))
    ensures Answered(k, tag, s, d).Signed? ==> Answered(k, tag, s, d).manifest.size == z(Answered(k, tag, s, d).manifest.digest)
    ensures Answered(k, tag, s, d).Signed? ==>
      EnvelopeOk(k, s, d.client.binding, Selected(s.controls[d.client.binding], BucketOf(k, d.installation)))
  {
    var key := d.client.binding;
    if key in s.controls {
      assert ControlOk(k, s, key, s.controls[key]);
      var e := Selected(s.controls[key], BucketOf(k, d.installation));
      assert EnvelopeOk(k, s, key, e);
      assert e.manifest.size == z(e.manifest.digest);
    }
  }

  lemma {:induction false} AnswerSelected(k: Keys, tag: Tag, s: Server, d: Device)
    ensures var r := Answered(k, tag, s, d);
      r.Signed? ==>
        && d.client.binding in s.controls
        && r.manifest == Selected(s.controls[d.client.binding], BucketOf(k, d.installation)).manifest
  {
  }

  // A device's release never goes down, and what it can run stays available.
  lemma {:induction false} RefreshSafe(k: Keys, z: Sizes, tag: Tag, s: Server, d: Device, a: Action)
    requires KeysOk(k) && ServerOk(k, z, s) && DeviceOk(k, z, tag, d) && a.Refresh?
    ensures var d' := Refreshed(k, tag, s, d, a);
      && d'.client == d.client && DeviceOk(k, z, tag, d')
      && Release(d.client, d.disk) <= Release(d.client, d'.disk)
      && (LastKnownGood(d.client, d.disk).Some? ==> LastKnownGood(d.client, d'.disk).Some?)
      && (BoundState(d.client, d'.disk) == BoundState(d.client, d.disk)
          || (d.client.binding in s.controls
              && var e := Selected(s.controls[d.client.binding], BucketOf(k, d.installation));
                 Release(d.client, d'.disk) == e.manifest.release))
  {
    AnswersHonest(k, z, tag, s, d);
    AnswerSelected(k, tag, s, d);
    hide KeysOk, ServerOk, Answered, Attempted, Release, LastKnownGood, BoundState, ClientOk, Selected, SizesOk, RecordsFit;
    var attempt := RefreshAttempt(k, tag, s, d, a.online, a.complete, a.crash);
    AttemptKeeps(d.client, d.disk, attempt);
    AttemptSizes(d.client, z, d.disk, attempt);
  }

  // A rolled-back manifest is refused by devices that already took the newer release:
  // their disk does not change at all.
  lemma {:induction false} RollbackLeavesDevices(k: Keys, tag: Tag, s: Server, d: Device, a: Action)
    requires a.Refresh? && d.client.binding in s.controls
    requires Selected(s.controls[d.client.binding], BucketOf(k, d.installation)).manifest.release < Release(d.client, d.disk)
    ensures Refreshed(k, tag, s, d, a) == d
  {
    var reply := RefreshAttempt(k, tag, s, d, a.online, a.complete, a.crash).reply;
    assert Floor(d.client, d.disk) >= Release(d.client, d.disk);
    assert !Accepts(d.client, d.disk, reply);
  }

  // A complete refresh installs what the server selected, when that is not older than
  // the device's floor and the runtime accepts content of that hash and size with the
  // manifest's release.
  lemma {:induction false} RefreshCatchesUp(k: Keys, z: Sizes, tag: Tag, s: Server, d: Device, a: Action)
    requires KeysOk(k) && ServerOk(k, z, s) && DeviceOk(k, z, tag, d)
    requires a.Refresh? && a.online && a.complete && a.crash.None? && Answered(k, tag, s, d).Signed?
    requires var m := Answered(k, tag, s, d).manifest;
      && Floor(d.client, d.disk) <= m.release <= MAX_U64 && m.size <= MAX_MODULE_BYTES && m.size >= 1
      && forall b: Bytes :: k.hash(b) == m.digest && |b| == m.size ==>
           d.client.validate(b, Floor(d.client, d.disk)) == Some(m.release)
    ensures var d' := Refreshed(k, tag, s, d, a);
      LastKnownGood(d.client, d'.disk) == Some(Answered(k, tag, s, d).manifest.digest)
  {
    var c, reply := d.client, Answered(k, tag, s, d);
    var m := reply.manifest;
    AnswersHonest(k, z, tag, s, d);
    var content := s.modules[m.digest];
    assert EnvelopeOk(k, s, c.binding, Selected(s.controls[c.binding], BucketOf(k, d.installation)));
    assert IsSha256(m.digest) && Accepts(c, d.disk, reply);
    assert Fetched(c, Floor(c, d.disk), m, Some(content));
    assert Installs(c, d.disk, reply, Some(content));
    hide Installs, Accepts, Trace, KeysOk, ServerOk, LastKnownGood, Answered, EnvelopeOk, NewRecord, InPlace, Prior;
    RefreshInstalls(c, d.disk, reply, Some(content));
    WrittenFits(c, d.disk, reply, Some(content));
  }

  lemma {:induction false} WrittenFits(c: Client, d: Disk, reply: Reply, download: Option<Bytes>)
    requires ClientOk(c) && Installs(c, d, reply, download) && RecordsFit(c, reply.etag)
    ensures 1 <= c.recordSize(WrittenRecord(c, d, reply, download)) <= MAX_RECORD_BYTES
  {
    InstalledRelease(c, d, reply, download);
    PriorShape(c, d);
    RecordShape(c, InPlace(c, d, reply.manifest, download), Prior(c, d), reply.manifest, reply.etag);
  }

  // -------- the server --------

  lemma {:induction false} PublishStep(k: Keys, z: Sizes, tag: Tag, w: World, a: Action)
    requires WorldOk(k, z, tag, w) && a.Publish? && ActionOk(k, z, a)
    ensures var w' := Step(k, tag, w, a); ServerOk(k, z, w'.server) && LogOk(w')
  {
    var t := PublishTrace(k, w.server, a.key, a.release, a.content);
    var s' := PublishedServer(k, w.server, a);
    if s' != w.server {
      var i := if a.crash.Some? && a.crash.value < |t| then a.crash.value - 1 else |t| - 1;
      PublishKeeps(k, z, w.server, a.key, a.release, a.content, i);
    }
    ControlsAfter(k, w.server, a);
    hide ServerOk, PublishTrace, PublishedServer, Completes, NextControl, LogOk;
    var w' := Step(k, tag, w, a);
    if Completes(k, w.server, a) {
      LogGrows(w, w', a.key, NextControl(k, w.server, a.key, a.release, a.content));
    } else {
      SameLog(w, w');
    }
  }

  lemma {:induction false} LogGrows(w: World, w': World, key: Binding, c: Control)
    requires LogOk(w) && w'.server.controls == w.server.controls[key := c]
    requires w'.published == w.published[key := Releases(w, key) + [c.current.manifest.release]]
    requires key in w.server.controls ==> w.server.controls[key].current.manifest.release < c.current.manifest.release
    requires c.previous == if key in w.server.controls then Some(w.server.controls[key].current) else None
    ensures LogOk(w')
  {
    forall x: Binding ensures KeyLog(Releases(w', x), w'.server, x) {
      var before := Releases(w, x);
      assert KeyLog(before, w.server, x);
      if x == key {
        assert Increasing(before + [c.current.manifest.release]);
      } else {
        assert Releases(w', x) == before;
      }
    }
  }

  lemma {:induction false} ControlsAfter(k: Keys, s: Server, a: Action)
    requires a.Publish?
    ensures PublishedServer(k, s, a).controls ==
      if Completes(k, s, a) then s.controls[a.key := NextControl(k, s, a.key, a.release, a.content)] else s.controls
    ensures var c := NextControl(k, s, a.key, a.release, a.content);
      && c.current.manifest.release == a.release
      && c.previous == if a.key in s.controls then Some(s.controls[a.key].current) else None
    ensures Completes(k, s, a) && a.key in s.controls ==> s.controls[a.key].current.manifest.release < a.release
  {
    TraceControls(k, s, a);
    hide PublishedServer, PublishTrace;
  }

  lemma {:induction false} TraceControls(k: Keys, s: Server, a: Action)
    requires a.Publish?
    ensures PublishedServer(k, s, a).controls ==
      if Completes(k, s, a) then s.controls[a.key := NextControl(k, s, a.key, a.release, a.content)] else s.controls
  {
    hide AccessFor, NextControl, Judged;
  }

  lemma {:induction false} ControlStep(k: Keys, z: Sizes, tag: Tag, w: World, key: Binding, c: Control)
    requires WorldOk(k, z, tag, w) && key in w.server.controls
    requires c.current == w.server.controls[key].current && c.previous == w.server.controls[key].previous
    requires ServerOk(k, z, WithControl(w.server, key, c))
    ensures WorldOk(k, z, tag, w.(server := WithControl(w.server, key, c)))
  {
    var w' := w.(server := WithControl(w.server, key, c));
    hide ServerOk, KeysOk, DeviceOk, Increasing;
    forall x: Binding ensures KeyLog(Releases(w', x), w'.server, x) {
      assert Releases(w', x) == Releases(w, x);
      assert KeyLog(Releases(w, x), w.server, x);
    }
  }

  // -------- every interleaving --------

  // What no step takes back from the devices and from the publication log.
  ghost predicate Advanced(w: World, w': World) {
    && |w'.devices| == |w.devices|
    && (forall i :: 0 <= i < |w.devices| ==>
          var c := w.devices[i].client;
          && w'.devices[i].client == c
          && Release(c, w.devices[i].disk) <= Release(c, w'.devices[i].disk)
          && (LastKnownGood(c, w.devices[i].disk).Some? ==> LastKnownGood(c, w'.devices[i].disk).Some?))
    && forall key: Binding :: Releases(w, key) <= Releases(w', key)
  }

  lemma {:induction false} StepSafe(k: Keys, z: Sizes, tag: Tag, w: World, a: Action)
    requires WorldOk(k, z, tag, w) && ActionOk(k, z, a)
    ensures WorldOk(k, z, tag, Step(k, tag, w, a)) && Advanced(w, Step(k, tag, w, a))
  {
    hide ServerOk, KeysOk, DeviceOk, LogOk, Release, LastKnownGood, SetRollout, Rollback, PublishedServer,
      Completes, Refreshed;
    match a
    case Publish(key, release, content, crash) =>
      PublishStep(k, z, tag, w, a);
      RecordsStay(w, Step(k, tag, w, a));
    case ChangeRollout(key, percentage) =>
      if key in w.server.controls && SetRollout(w.server.controls[key], percentage).Some? {
        RolloutKeeps(k, z, w.server, key, percentage);
        SameCurrent(w.server.controls[key], percentage);
        ControlStep(k, z, tag, w, key, SetRollout(w.server.controls[key], percentage).value);
      }
    case RollBack(key) =>
      if key in w.server.controls && Rollback(w.server.controls[key]).Some? {
        RolloutKeeps(k, z, w.server, key, 100);
        SameCurrent(w.server.controls[key], 100);
        ControlStep(k, z, tag, w, key, Rollback(w.server.controls[key]).value);
      }
    case Refresh(i, _, _, _) =>
      if i < |w.devices| {
        RefreshSafe(k, z, tag, w.server, w.devices[i], a);
        SameLog(w, Step(k, tag, w, a));
        RefreshRecorded(k, w, w.devices[i], Refreshed(k, tag, w.server, w.devices[i], a));
        RecordsStay(w, w.(server := w.server));
      }
  }

  // A log that only grows keeps every recorded release in it.
  lemma {:induction false} RecordsStay(w: World, w': World)
    requires forall key: Binding :: Releases(w, key) <= Releases(w', key)
    ensures forall d :: Recorded(w, d) ==> Recorded(w', d)
  {
    forall d | Recorded(w, d) && BoundState(d.client, d.disk).Some? ensures Recorded(w', d) {
      var before, after := Releases(w, d.client.binding), Releases(w', d.client.binding);
      var i :| 0 <= i < |before| && before[i] == Release(d.client, d.disk);
      assert after[i] == before[i];
    }
  }

  // What a refresh records was selected by the server, so it was published.
  lemma {:induction false} RefreshRecorded(k: Keys, w: World, d: Device, d': Device)
    requires LogOk(w) && Recorded(w, d) && d'.client == d.client
    requires BoundState(d.client, d'.disk) == BoundState(d.client, d.disk)
      || (d.client.binding in w.server.controls
          && Release(d.client, d'.disk)
             == Selected(w.server.controls[d.client.binding], BucketOf(k, d.installation)).manifest.release)
    ensures Recorded(w, d')
  {
    hide BoundState;
    var key := d.client.binding;
    var rs := Releases(w, key);
    assert KeyLog(rs, w.server, key);
    if key in w.server.controls {
      var c := w.server.controls[key];
      assert c.current.manifest.release in rs;
      assert |rs| >= 2 ==> c.previous.value.manifest.release in rs;
    }
  }

  lemma {:induction false} SameCurrent(c: Control, percentage: int)
    ensures SetRollout(c, percentage).Some? ==>
      SetRollout(c, percentage).value.current == c.current && SetRollout(c, percentage).value.previous == c.previous
    ensures Rollback(c).Some? ==> Rollback(c).value.current == c.current && Rollback(c).value.previous == c.previous
  {
  }

  lemma {:induction false} SameLog(w: World, w': World)
    requires LogOk(w) && w'.server.controls == w.server.controls && w'.published == w.published
    ensures LogOk(w')
  {
    forall key: Binding ensures KeyLog(Releases(w', key), w'.server, key) {
      assert KeyLog(Releases(w, key), w.server, key);
    }
  }

  // Over every run: published releases strictly increase under each key, previous is
  // older than current, every manifest that can be served names a stored module of the
  // stated size, and no device's release or usable module is lost.
  lemma {:induction false} FleetSafe(k: Keys, z: Sizes, tag: Tag, w: World, actions: seq<Action>)
    requires WorldOk(k, z, tag, w) && forall i :: 0 <= i < |actions| ==> ActionOk(k, z, actions[i])
    ensures WorldOk(k, z, tag, Run(k, tag, w, actions)) && Advanced(w, Run(k, tag, w, actions))
    decreases |actions|
  {
    hide WorldOk, Step;
    if actions == [] {
    } else {
      var w1 := Step(k, tag, w, actions[0]);
      StepSafe(k, z, tag, w, actions[0]);
      FleetSafe(k, z, tag, w1, actions[1..]);
    }
  }

  // Whatever happened before, the envelope served for a key names a stored module of its
  // stated size and hash, and is one of the two newest publications.
  lemma {:induction false} ServedIsStored(k: Keys, z: Sizes, tag: Tag, w: World, actions: seq<Action>, key: Binding,
      bucket: Option<nat>)
    requires WorldOk(k, z, tag, w) && forall i :: 0 <= i < |actions| ==> ActionOk(k, z, actions[i])
    requires key in Run(k, tag, w, actions).server.controls
    ensures var w' := Run(k, tag, w, actions);
      var m := Selected(w'.server.controls[key], bucket).manifest;
      var rs := Releases(w', key);
      && m.binding == key && m.digest in w'.server.modules
      && k.hash(w'.server.modules[m.digest]) == m.digest && |w'.server.modules[m.digest]| == m.size
      && |rs| > 0 && (m.release == rs[|rs| - 1] || (|rs| >= 2 && m.release == rs[|rs| - 2]))
  {
    hide Run;
    FleetSafe(k, z, tag, w, actions);
    var w' := Run(k, tag, w, actions);
    assert ControlOk(k, w'.server, key, w'.server.controls[key]);
    assert KeyLog(Releases(w', key), w'.server, key);
  }

  // Whatever happened before, a module published under a managed profile is served to
  // activated clients only, when the content of a module fixes its profile.
  lemma {:induction false} ManagedModules(k: Keys, profiles: Digest -> Bytes, tag: Tag, w: World, actions: seq<Action>)
    requires AccessOk(profiles, w.server)
    requires forall i :: 0 <= i < |actions| && actions[i].Publish? ==>
      profiles(k.hash(actions[i].content)) == actions[i].key.profile
    ensures var s := Run(k, tag, w, actions).server;
      && AccessOk(profiles, s)
      && forall d :: Managed(profiles(d)) ==> !ModuleFor(k, s, d, false).Served?
    decreases |actions|
  {
    hide Step, Managed, ModuleFor, AccessOk;
    if actions != [] {
      StepAccess(k, profiles, tag, w, actions[0]);
      ManagedModules(k, profiles, tag, Step(k, tag, w, actions[0]), actions[1..]);
    } else {
      forall d | Managed(profiles(d)) && ModuleFor(k, w.server, d, false).Served? ensures false {
        ManagedStaysClosed(k, profiles, w.server, d, false);
      }
    }
  }

  lemma {:induction false} StepAccess(k: Keys, profiles: Digest -> Bytes, tag: Tag, w: World, a: Action)
    requires AccessOk(profiles, w.server)
    requires a.Publish? ==> profiles(k.hash(a.content)) == a.key.profile
    ensures AccessOk(profiles, Step(k, tag, w, a).server)
  {
    assert a.Publish? ==> PublishTrace(k, w.server, a.key, a.release, a.content) != [];
    hide PublishTrace, SetRollout, Rollback, Refreshed, Completes, AccessFor;
    if a.Publish? {
      var t := PublishTrace(k, w.server, a.key, a.release, a.content);
      forall i | 0 <= i < |t| ensures AccessOk(profiles, t[i]) {
        PublishAccess(k, profiles, w.server, a.key, a.release, a.content, i);
      }
    }
  }

  // An empty repository and devices without a store satisfy the invariant.
  lemma {:induction false} FleetStarts(k: Keys, z: Sizes, tag: Tag, devices: seq<Device>)
    requires KeysOk(k)
    requires forall i :: 0 <= i < |devices| ==> DeviceOk(k, z, tag, devices[i]) && devices[i].disk.record == Missing
    ensures WorldOk(k, z, tag, World(Server(map[], map[], map[], map[]), devices, map[]))
  {
  }
}
