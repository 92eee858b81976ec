/** The device's module store: one refresh as the list of disk states its file steps
    leave behind, so that a crash is a prefix of that list. */
module DeviceStore {
  import opened Basics

  type Digest = Bytes

  const MAX_MODULE_BYTES := 16 * 1024 * 1024
  const MAX_RECORD_BYTES := 16 * 1024

  predicate HexDigit(b: u8) {
    48 <= b <= 57 || 97 <= b <= 102
  }

  predicate IsSha256(d: Digest) {
    |d| == 64 && forall i | 0 <= i < 64 :: HexDigit(d[i])
  }

  datatype Binding = Binding(application: Bytes, channel: Bytes, platform: Bytes, profile: Bytes)

  datatype Record = Record(format: int, binding: Binding, etag: Bytes, release: int, digest: Digest, history: seq<Digest>)

  datatype RecordFile = Missing | Unreadable | Stored(record: Record)

  // Module files and temporaries by the digest in their name, the record that names the
  // current module, and the record's temporary.
  datatype Disk = Disk(
    modules: map<Digest, Bytes>,
    temporaries: map<Digest, Bytes>,
    record: RecordFile,
    recordTemporary: RecordFile)

  // The URL of a module ends in a digest.
  datatype Manifest = Manifest(binding: Binding, release: int, digest: Digest, size: int, url: Digest)

  // What the server answers; only a signed answer carries a manifest.
  datatype Reply = NotModified | Unavailable | Forged | Signed(manifest: Manifest, etag: Bytes)

  datatype Platform = Tool | Swift

  // The hash, the size of an encoded record, the order in which a directory is listed,
  // and the runtime's preload check, which yields the module's own release.
  datatype Client = Client(
    platform: Platform,
    binding: Binding,
    minimumRelease: nat,
    hash: Bytes -> Digest,
    recordSize: Record -> nat,
    listing: set<Digest> -> seq<Digest>,
    validate: (Bytes, int) -> Option<int>)

  // A directory listing names every file once; the runtime refuses release 0.
  ghost predicate ClientOk(c: Client) {
    && (forall s: set<Digest> :: Distinct(c.listing(s)) && forall x :: x in c.listing(s) <==> x in s)
    && forall b: Bytes, r: int :: c.validate(b, r).Some? ==> c.validate(b, r).value >= 1
  }

  // -------- reading --------

  predicate AllDifferent(ds: seq<Digest>) {
    forall i | 0 <= i < |ds| :: forall j | i < j < |ds| :: ds[i] != ds[j]
  }

  predicate Readable(c: Client, r: Record) {
    1 <= c.recordSize(r) <= MAX_RECORD_BYTES && Shaped(c, r)
  }

  // What the reader demands of a record's fields.
  predicate Shaped(c: Client, r: Record) {
    && r.format == 1 && r.binding == c.binding && r.release >= 1 && IsSha256(r.digest)
    && 1 <= |r.history| <= 2 && r.history[0] == r.digest
    && AllDifferent(r.history)
    && forall i | 0 <= i < |r.history| :: IsSha256(r.history[i])
  }

  function BoundState(c: Client, d: Disk): Option<Record> {
    if d.record.Stored? && Readable(c, d.record.record) then Some(d.record.record) else None
  }

  predicate Intact(c: Client, d: Disk, digest: Digest) {
    && digest in d.modules && 1 <= |d.modules[digest]| <= MAX_MODULE_BYTES
    && c.hash(d.modules[digest]) == digest
  }

  // The module the device may run without the network.
  function LastKnownGood(c: Client, d: Disk): Option<Digest> {
    match BoundState(c, d)
    case None => None
    case Some(r) => if r.release >= c.minimumRelease && Intact(c, d, r.digest) then Some(r.digest) else None
  }

  function Release(c: Client, d: Disk): int {
    match BoundState(c, d) case None => 0 case Some(r) => r.release
  }

  function Floor(c: Client, d: Disk): int {
    if Release(c, d) < c.minimumRelease then c.minimumRelease else Release(c, d)
  }

  // -------- one refresh --------

  predicate Accepts(c: Client, d: Disk, reply: Reply) {
    reply.Signed? &&
    var m := reply.manifest;
    && m.binding == c.binding
    && (if c.platform.Tool? then 1 <= m.release <= MAX_U64 && m.url == m.digest else 0 <= m.release <= MAX_U64)
    && m.release >= Floor(c, d)
    && IsSha256(m.digest) && 1 <= m.size <= MAX_MODULE_BYTES
  }

  // The tool asks the runtime to accept the module; the Swift store also compares the
  // release the runtime read with the manifest's.
  predicate Validates(c: Client, floor: int, m: Manifest, content: Bytes) {
    c.validate(content, floor).Some? && (c.platform.Swift? ==> c.validate(content, floor).value == m.release)
  }

  predicate Broken(c: Client, d: Disk, m: Manifest) {
    m.digest in d.modules && (|d.modules[m.digest]| != m.size || c.hash(d.modules[m.digest]) != m.digest)
  }

  function Cleared(c: Client, d: Disk, m: Manifest): Disk {
    if Broken(c, d, m) then d.(modules := d.modules - {m.digest}) else d
  }

  function WithTemporary(d: Disk, digest: Digest, content: Bytes): Disk {
    d.(temporaries := d.temporaries[digest := content])
  }

  function WithoutTemporary(d: Disk, digest: Digest): Disk {
    d.(temporaries := d.temporaries - {digest})
  }

  function Moved(d: Disk, digest: Digest, content: Bytes): Disk {
    d.(modules := d.modules[digest := content], temporaries := d.temporaries - {digest})
  }

  // Which downloads are kept as a module.
  predicate Fetched(c: Client, floor: int, m: Manifest, download: Option<Bytes>) {
    && download.Some? && |download.value| == m.size && c.hash(download.value) == m.digest
    && (c.platform.Swift? ==> m.url == m.digest)
    && Validates(c, floor, m, download.value)
  }

  function DownloadSteps(c: Client, d: Disk, floor: int, m: Manifest, download: Option<Bytes>): seq<Disk> {
    if download.None? || |download.value| != m.size then []
    else if c.platform.Tool? && c.hash(download.value) != m.digest then []
    else if c.platform.Swift? && m.url != m.digest then []
    else
      var body := download.value;
      [if c.platform.Tool? then WithTemporary(d, m.digest, []) else WithoutTemporary(d, m.digest),
       WithTemporary(d, m.digest, body),
       if Fetched(c, floor, m, download) then Moved(d, m.digest, body) else WithoutTemporary(d, m.digest)]
  }

  function Present(d: Disk, ds: seq<Digest>, except: Digest): seq<Digest> {
    if ds == [] then []
    else (if ds[0] != except && ds[0] in d.modules then [ds[0]] else []) + Present(d, ds[1..], except)
  }

  function FirstTwo(ds: seq<Digest>): seq<Digest> {
    if |ds| <= 2 then ds else ds[..2]
  }

  function NewRecord(c: Client, d: Disk, prior: seq<Digest>, m: Manifest, etag: Bytes): Record {
    Record(1, c.binding, etag, m.release, m.digest, FirstTwo([m.digest] + Present(d, prior, m.digest)))
  }

  function PruneSteps(d: Disk, listed: seq<Digest>, keep: seq<Digest>): seq<Disk>
    decreases listed
  {
    if listed == [] then []
    else if listed[0] in keep then PruneSteps(d, listed[1..], keep)
    else
      var d' := d.(modules := d.modules - {listed[0]});
      [d'] + PruneSteps(d', listed[1..], keep)
  }

  function Recorded(d: Disk, r: Record): Disk {
    d.(record := Stored(r), recordTemporary := Missing)
  }

  function FinishSteps(c: Client, d: Disk, r: Record): seq<Disk> {
    [d.(recordTemporary := Unreadable), d.(recordTemporary := Stored(r)), Recorded(d, r)]
    + PruneSteps(Recorded(d, r), c.listing(d.modules.Keys), r.history)
  }

  function Prior(c: Client, d: Disk): seq<Digest> {
    match BoundState(c, d) case None => [] case Some(r) => r.history
  }

  // How the module gets in place: as it is, or downloaded.
  function GetSteps(c: Client, d: Disk, floor: int, m: Manifest, download: Option<Bytes>): seq<Disk> {
    if m.digest in d.modules then [] else DownloadSteps(c, d, floor, m, download)
  }

  predicate Gotten(c: Client, d: Disk, floor: int, m: Manifest, download: Option<Bytes>) {
    if m.digest in d.modules then Validates(c, floor, m, d.modules[m.digest]) else Fetched(c, floor, m, download)
  }

  function WithModule(d: Disk, m: Manifest, download: Option<Bytes>): Disk {
    if m.digest in d.modules || download.None? then d else Moved(d, m.digest, download.value)
  }

  // The disk once the manifest's module is in place.
  function InPlace(c: Client, d: Disk, m: Manifest, download: Option<Bytes>): Disk {
    WithModule(Cleared(c, d, m), m, download)
  }

  // Whether the refresh installs the manifest's module.
  predicate Installs(c: Client, d: Disk, reply: Reply, download: Option<Bytes>) {
    Accepts(c, d, reply) && Gotten(c, Cleared(c, d, reply.manifest), Floor(c, d), reply.manifest, download)
  }

  function WrittenRecord(c: Client, d: Disk, reply: Reply, download: Option<Bytes>): Record
    requires reply.Signed?
  {
    NewRecord(c, InPlace(c, d, reply.manifest, download), Prior(c, d), reply.manifest, reply.etag)
  }

  function ClearSteps(c: Client, d: Disk, m: Manifest): seq<Disk> {
    if Broken(c, d, m) then [Cleared(c, d, m)] else []
  }

  function RecordSteps(c: Client, d: Disk, reply: Reply, download: Option<Bytes>): seq<Disk>
    requires reply.Signed?
  {
    if Installs(c, d, reply, download)
    then FinishSteps(c, InPlace(c, d, reply.manifest, download), WrittenRecord(c, d, reply, download)) else []
  }

  // Every disk state the refresh leaves behind, in order.
  function Trace(c: Client, d: Disk, reply: Reply, download: Option<Bytes>): seq<Disk> {
    if !Accepts(c, d, reply) then []
    else
      var m := reply.manifest;
      (ClearSteps(c, d, m) + GetSteps(c, Cleared(c, d, m), Floor(c, d), m, download)) + RecordSteps(c, d, reply, download)
  }

  function Last(d: Disk, steps: seq<Disk>): Disk {
    if steps == [] then d else steps[|steps| - 1]
  }

  // -------- what a step may change --------

  // The manifest states the size of the intact module that the disk may hold already.
  predicate Honest(c: Client, d: Disk, m: Manifest) {
    m.digest in d.modules && c.hash(d.modules[m.digest]) == m.digest ==> |d.modules[m.digest]| == m.size
  }

  // Records with this ETag stay within what the reader accepts.
  ghost predicate RecordsFit(c: Client, etag: Bytes) {
    forall r: Record :: r.etag == etag && Shaped(c, r) && r.release <= MAX_U64 ==> 1 <= c.recordSize(r) <= MAX_RECORD_BYTES
  }

  ghost predicate ReplyOk(c: Client, d: Disk, reply: Reply) {
    reply.Signed? ==> Honest(c, d, reply.manifest) && RecordsFit(c, reply.etag)
  }

  // Either the recorded state is the old one, and what was usable still is, or the
  // manifest's release is recorded and its module is usable.
  ghost predicate Keeps(c: Client, d: Disk, m: Manifest, d': Disk) {
    || (BoundState(c, d') == BoundState(c, d)
        && (LastKnownGood(c, d).Some? ==> LastKnownGood(c, d') == LastKnownGood(c, d)))
    || (Release(c, d') == m.release && LastKnownGood(c, d') == Some(m.digest))
  }

  lemma {:induction false} SameRecordKeeps(c: Client, d: Disk, m: Manifest, d': Disk)
    requires d'.record == d.record
    requires forall x :: Intact(c, d, x) ==> Intact(c, d', x)
    ensures Keeps(c, d, m, d')
  {
  }

  lemma {:induction false} ClearedKeeps(c: Client, d: Disk, m: Manifest)
    requires Honest(c, d, m)
    ensures Cleared(c, d, m).record == d.record
    ensures forall x :: Intact(c, d, x) ==> Intact(c, Cleared(c, d, m), x)
  {
  }

  lemma {:induction false} DownloadKeeps(c: Client, d: Disk, floor: int, m: Manifest, download: Option<Bytes>, k: nat)
    requires 1 <= m.size <= MAX_MODULE_BYTES && k < |DownloadSteps(c, d, floor, m, download)|
    ensures var d' := DownloadSteps(c, d, floor, m, download)[k];
      d'.record == d.record && forall x :: Intact(c, d, x) ==> Intact(c, d', x)
  {
  }

  // The module that is in place is intact, and nothing usable was lost on the way.
  lemma {:induction false} InPlaceKeeps(c: Client, d: Disk, m: Manifest, download: Option<Bytes>)
    requires 1 <= m.size <= MAX_MODULE_BYTES && Gotten(c, Cleared(c, d, m), Floor(c, d), m, download)
    ensures var d' := InPlace(c, d, m, download);
      && d'.record == d.record && Intact(c, d', m.digest)
      && (Honest(c, d, m) ==> forall x :: Intact(c, d, x) ==> Intact(c, d', x))
  {
    if Honest(c, d, m) {
      ClearedKeeps(c, d, m);
    }
  }

  // -------- the record that is written --------

  lemma {:induction false} PresentFacts(d: Disk, ds: seq<Digest>, except: Digest)
    ensures var p := Present(d, ds, except);
      && |p| <= |ds| && except !in p
      && (forall x :: x in p ==> x in ds && x in d.modules)
      && (AllDifferent(ds) ==> AllDifferent(p))
  {
    if ds == [] {
    } else {
      PresentFacts(d, ds[1..], except);
    }
  }

  // Every written record has the shape the reader demands: the current digest first,
  // at most one older digest, no repetition.
  lemma {:induction false} RecordShape(c: Client, d: Disk, prior: seq<Digest>, m: Manifest, etag: Bytes)
    requires IsSha256(m.digest) && m.release >= 1
    requires AllDifferent(prior) && forall i :: 0 <= i < |prior| ==> IsSha256(prior[i])
    ensures var r := NewRecord(c, d, prior, m, etag);
      && 1 <= |r.history| <= 2 && r.history[0] == r.digest == m.digest && r.release == m.release
      && Shaped(c, r)
  {
    PresentFacts(d, prior, m.digest);
    var p := Present(d, prior, m.digest);
    var r := NewRecord(c, d, prior, m, etag);
    assert forall i :: 0 < i < |r.history| ==> r.history[i] == p[i - 1] && r.history[i] in p;
  }

  lemma {:induction false} PruneKeeps(d: Disk, listed: seq<Digest>, keep: seq<Digest>, k: nat)
    requires k < |PruneSteps(d, listed, keep)|
    ensures var d' := PruneSteps(d, listed, keep)[k];
      && d'.record == d.record
      && forall x :: x in keep && x in d.modules ==> x in d'.modules && d'.modules[x] == d.modules[x]
    decreases listed
  {
    if listed[0] in keep {
      PruneKeeps(d, listed[1..], keep, k);
    } else {
      var d1 := d.(modules := d.modules - {listed[0]});
      if k > 0 {
        PruneKeeps(d1, listed[1..], keep, k - 1);
      }
    }
  }

  // Pruning leaves only the modules the record's history names.
  lemma {:induction false} PruneLeaves(d: Disk, listed: seq<Digest>, keep: seq<Digest>)
    requires forall x :: x in d.modules ==> x in listed || x in keep
    ensures var d' := Last(d, PruneSteps(d, listed, keep));
      && d'.record == d.record && d'.modules.Keys == (set x | x in d.modules && x in keep)
      && forall x :: x in keep && x in d.modules ==> x in d'.modules && d'.modules[x] == d.modules[x]
    decreases listed
  {
    if listed == [] {
      assert d.modules.Keys == set x | x in d.modules && x in keep;
    } else {
      var d1 := if listed[0] in keep then d else d.(modules := d.modules - {listed[0]});
      PruneLeaves(d1, listed[1..], keep);
      assert (set x | x in d1.modules && x in keep) == set x | x in d.modules && x in keep;
      assert Last(d, PruneSteps(d, listed, keep)) == Last(d1, PruneSteps(d1, listed[1..], keep));
    }
  }

  // -------- crash safety of one refresh --------

  lemma {:induction false} PriorShape(c: Client, d: Disk)
    ensures AllDifferent(Prior(c, d)) && forall i :: 0 <= i < |Prior(c, d)| ==> IsSha256(Prior(c, d)[i])
  {
  }

  // The release an installed manifest carries: the Swift store has it from the module.
  lemma {:induction false} InstalledRelease(c: Client, d: Disk, reply: Reply, download: Option<Bytes>)
    requires ClientOk(c) && Installs(c, d, reply, download)
    ensures 1 <= reply.manifest.release <= MAX_U64
  {
    var m := reply.manifest;
    var d1 := Cleared(c, d, m);
    var content := if m.digest in d1.modules then d1.modules[m.digest] else download.value;
    assert c.validate(content, Floor(c, d)).Some?;
  }

  // Once the new record is in place the new module is usable, and exactly then readable
  // when the record's size is.
  lemma {:induction false} RecordedServes(c: Client, d: Disk, m: Manifest, prior: seq<Digest>, etag: Bytes, d': Disk)
    requires m.release >= 1 && m.release >= c.minimumRelease && IsSha256(m.digest)
    requires AllDifferent(prior) && forall i :: 0 <= i < |prior| ==> IsSha256(prior[i])
    requires d'.record == Stored(NewRecord(c, d, prior, m, etag)) && Intact(c, d', m.digest)
    ensures var r := NewRecord(c, d, prior, m, etag);
      if 1 <= c.recordSize(r) <= MAX_RECORD_BYTES
      then Release(c, d') == m.release && LastKnownGood(c, d') == Some(m.digest)
      else BoundState(c, d') == None && LastKnownGood(c, d') == None
  {
    RecordShape(c, d, prior, m, etag);
    hide NewRecord, Intact;
  }

  lemma {:induction false} FinishKeeps(c: Client, d: Disk, reply: Reply, download: Option<Bytes>, k: nat)
    requires ClientOk(c) && Installs(c, d, reply, download)
    requires Honest(c, d, reply.manifest) && RecordsFit(c, reply.etag)
    requires k < |FinishSteps(c, InPlace(c, d, reply.manifest, download), WrittenRecord(c, d, reply, download))|
    ensures Keeps(c, d, reply.manifest,
      FinishSteps(c, InPlace(c, d, reply.manifest, download), WrittenRecord(c, d, reply, download))[k])
  {
    var m := reply.manifest;
    var d1, r := InPlace(c, d, m, download), WrittenRecord(c, d, reply, download);
    var d' := FinishSteps(c, d1, r)[k];
    InPlaceKeeps(c, d, m, download);
    InstalledRelease(c, d, reply, download);
    PriorShape(c, d);
    RecordShape(c, d1, Prior(c, d), m, reply.etag);
    hide InPlace, NewRecord, Honest, ClientOk;
    if k < 2 {
      SameRecordKeeps(c, d, m, d');
    } else {
      if k > 2 {
        PruneKeeps(Recorded(d1, r), c.listing(d1.modules.Keys), r.history, k - 3);
      }
      RecordedServes(c, d1, m, Prior(c, d), reply.etag, d');
    }
  }

  // Stopping a refresh after any of its steps keeps what was usable, or leaves the new
  // module usable; either way the recorded release has not gone down.
  lemma {:induction false} TraceKeeps(c: Client, d: Disk, reply: Reply, download: Option<Bytes>, k: nat)
    requires ClientOk(c) && ReplyOk(c, d, reply) && k < |Trace(c, d, reply, download)|
    ensures Keeps(c, d, reply.manifest, Trace(c, d, reply, download)[k])
    ensures Release(c, d) <= Release(c, Trace(c, d, reply, download)[k])
    ensures LastKnownGood(c, d).Some? ==> LastKnownGood(c, Trace(c, d, reply, download)[k]).Some?
  {
    assert Accepts(c, d, reply);
    hide Keeps, Release, LastKnownGood, ReplyOk, ClientOk, Accepts, ClearSteps, GetSteps, RecordSteps;
    var m := reply.manifest;
    var d' := Trace(c, d, reply, download)[k];
    var a, b := ClearSteps(c, d, m), GetSteps(c, Cleared(c, d, m), Floor(c, d), m, download);
    if k < |a| + |b| {
      EarlyKeeps(c, d, reply, download, k);
    } else {
      RecordKeeps(c, d, reply, download, k - |a| - |b|);
    }
    KeepsMeans(c, d, reply, d');
  }

  // Before the record is written only unusable files and temporaries change.
  lemma {:induction false} EarlyKeeps(c: Client, d: Disk, reply: Reply, download: Option<Bytes>, k: nat)
    requires Accepts(c, d, reply) && ReplyOk(c, d, reply)
    requires k < |ClearSteps(c, d, reply.manifest)|
                 + |GetSteps(c, Cleared(c, d, reply.manifest), Floor(c, d), reply.manifest, download)|
    ensures var m := reply.manifest;
      Keeps(c, d, m, (ClearSteps(c, d, m) + GetSteps(c, Cleared(c, d, m), Floor(c, d), m, download))[k])
  {
    var m := reply.manifest;
    assert 1 <= m.size <= MAX_MODULE_BYTES;
    ClearedKeeps(c, d, m);
    hide Keeps, DownloadSteps, Honest, RecordsFit, Intact, Cleared, Broken, Accepts;
    var a, b := ClearSteps(c, d, m), GetSteps(c, Cleared(c, d, m), Floor(c, d), m, download);
    if k >= |a| {
      DownloadKeeps(c, Cleared(c, d, m), Floor(c, d), m, download, k - |a|);
    }
    SameRecordKeeps(c, d, m, (a + b)[k]);
  }

  lemma {:induction false} RecordKeeps(c: Client, d: Disk, reply: Reply, download: Option<Bytes>, k: nat)
    requires ClientOk(c) && ReplyOk(c, d, reply) && reply.Signed? && k < |RecordSteps(c, d, reply, download)|
    ensures Keeps(c, d, reply.manifest, RecordSteps(c, d, reply, download)[k])
  {
    hide Keeps, Honest, RecordsFit, ClientOk, FinishSteps;
    FinishKeeps(c, d, reply, download, k);
  }

  lemma {:induction false} KeepsMeans(c: Client, d: Disk, reply: Reply, d': Disk)
    requires Accepts(c, d, reply) && Keeps(c, d, reply.manifest, d')
    ensures Release(c, d) <= Release(c, d')
    ensures LastKnownGood(c, d).Some? ==> LastKnownGood(c, d').Some?
  {
  }

  // A refresh that runs to its end leaves the manifest's module usable and nothing but
  // the modules of the record's history, exactly when the record is small enough for the
  // reader.
  lemma {:induction false} RefreshInstalls(c: Client, d: Disk, reply: Reply, download: Option<Bytes>)
    requires ClientOk(c) && Installs(c, d, reply, download)
    ensures var d', r := Last(d, Trace(c, d, reply, download)), WrittenRecord(c, d, reply, download);
      && d'.record == Stored(r) && d'.modules.Keys == (set x | x in r.history)
      && Intact(c, d', reply.manifest.digest)
      && (1 <= c.recordSize(r) <= MAX_RECORD_BYTES <==> LastKnownGood(c, d') == Some(reply.manifest.digest))
      && (1 <= c.recordSize(r) <= MAX_RECORD_BYTES <==> BoundState(c, d').Some?)
  {
    hide NewRecord, Honest, ClientOk, Trace, Last, PruneSteps, FirstTwo, InPlace;
    var m := reply.manifest;
    var d1, r := InPlace(c, d, m, download), WrittenRecord(c, d, reply, download);
    var d2 := Recorded(d1, r);
    InPlaceKeeps(c, d, m, download);
    InstalledRelease(c, d, reply, download);
    PriorShape(c, d);
    RefreshEnds(c, d, reply, download);
    PruneListed(c, d2, r.history);
    HistoryStored(c, d1, Prior(c, d), m, reply.etag);
    assert m.release >= Floor(c, d) >= c.minimumRelease && IsSha256(m.digest);
    var d' := Last(d, Trace(c, d, reply, download));
    assert d2.modules == d1.modules && d' == Last(d2, PruneSteps(d2, c.listing(d2.modules.Keys), r.history));
    assert d'.record == Stored(r) && Intact(c, d1, m.digest);
    assert m.digest in r.history && m.digest in d2.modules && d'.modules[m.digest] == d1.modules[m.digest];
    assert d'.modules.Keys == set x | x in r.history;
    hide *;
    RecordedServes(c, d1, m, Prior(c, d), reply.etag, d');
  }

  lemma {:induction false} RefreshEnds(c: Client, d: Disk, reply: Reply, download: Option<Bytes>)
    requires Installs(c, d, reply, download)
    ensures var d1, r := InPlace(c, d, reply.manifest, download), WrittenRecord(c, d, reply, download);
      Last(d, Trace(c, d, reply, download))
        == Last(Recorded(d1, r), PruneSteps(Recorded(d1, r), c.listing(d1.modules.Keys), r.history))
  {
    assert reply.Signed?;
    hide InPlace, NewRecord, Accepts, ClearSteps, GetSteps, Gotten, PruneSteps, Last;
    var m := reply.manifest;
    var d1, r := InPlace(c, d, m, download), WrittenRecord(c, d, reply, download);
    var pruned := PruneSteps(Recorded(d1, r), c.listing(d1.modules.Keys), r.history);
    var early := ClearSteps(c, d, m) + GetSteps(c, Cleared(c, d, m), Floor(c, d), m, download);
    LastAfter(d, early, d1.(recordTemporary := Unreadable), d1.(recordTemporary := Stored(r)), Recorded(d1, r), pruned);
  }

  lemma {:induction false} LastAfter(d: Disk, early: seq<Disk>, a: Disk, b: Disk, last: Disk, pruned: seq<Disk>)
    ensures Last(d, early + ([a, b, last] + pruned)) == Last(last, pruned)
  {
  }

  lemma {:induction false} PruneListed(c: Client, d: Disk, keep: seq<Digest>)
    requires ClientOk(c)
    ensures var d' := Last(d, PruneSteps(d, c.listing(d.modules.Keys), keep));
      && d'.record == d.record && d'.modules.Keys == (set x | x in d.modules && x in keep)
      && forall x :: x in keep && x in d.modules ==> x in d'.modules && d'.modules[x] == d.modules[x]
  {
    PruneLeaves(d, c.listing(d.modules.Keys), keep);
  }

  lemma {:induction false} HistoryStored(c: Client, d: Disk, prior: seq<Digest>, m: Manifest, etag: Bytes)
    requires m.digest in d.modules
    ensures var r := NewRecord(c, d, prior, m, etag);
      r.digest == m.digest && r.release == m.release && m.digest in r.history
      && forall x :: x in r.history ==> x in d.modules
  {
    PresentFacts(d, prior, m.digest);
    var r := NewRecord(c, d, prior, m, etag);
    assert r.history[0] == m.digest;
    assert forall i :: 0 < i < |r.history| ==> r.history[i] in Present(d, prior, m.digest);
  }

  // A manifest that lies about the size of the module in use makes the first step throw
  // the last-known-good module away: honesty is needed, and only there.
  lemma {:induction false} LyingSizeLosesCache(c: Client, d: Disk, reply: Reply, download: Option<Bytes>)
    requires Accepts(c, d, reply) && LastKnownGood(c, d) == Some(reply.manifest.digest)
    ensures var t := Trace(c, d, reply, download);
      |d.modules[reply.manifest.digest]| != reply.manifest.size <==>
        |t| > 0 && t[0].record == d.record && LastKnownGood(c, t[0]) == None
  {
    var m := reply.manifest;
    if Broken(c, d, m) {
      assert Trace(c, d, reply, download)[0] == Cleared(c, d, m);
      assert m.digest !in Cleared(c, d, m).modules;
    } else {
      assert Cleared(c, d, m) == d;
      if Installs(c, d, reply, download) {
        assert Trace(c, d, reply, download)[0] == d.(recordTemporary := Unreadable);
      }
    }
  }

  // -------- runs of refreshes, crashes included --------

  // A refresh that stops after some number of steps, or runs to its end.
  datatype Attempt = Attempt(reply: Reply, download: Option<Bytes>, crash: Option<nat>)

  function Attempted(c: Client, d: Disk, a: Attempt): Disk {
    var t := Trace(c, d, a.reply, a.download);
    if a.crash.Some? && a.crash.value < |t| then Last(d, t[..a.crash.value]) else Last(d, t)
  }

  function AfterAttempts(c: Client, d: Disk, attempts: seq<Attempt>): Disk
    decreases |attempts|
  {
    if attempts == [] then d else AfterAttempts(c, Attempted(c, d, attempts[0]), attempts[1..])
  }

  lemma {:induction false} AttemptKeeps(c: Client, d: Disk, a: Attempt)
    requires ClientOk(c) && ReplyOk(c, d, a.reply)
    ensures Release(c, d) <= Release(c, Attempted(c, d, a))
    ensures LastKnownGood(c, d).Some? ==> LastKnownGood(c, Attempted(c, d, a)).Some?
    ensures BoundState(c, Attempted(c, d, a)) == BoundState(c, d)
         || (a.reply.Signed? && Release(c, Attempted(c, d, a)) == a.reply.manifest.release)
  {
    hide Release, LastKnownGood, ReplyOk, ClientOk, Keeps, BoundState;
    var t := Trace(c, d, a.reply, a.download);
    var n := if a.crash.Some? && a.crash.value < |t| then a.crash.value else |t|;
    if n > 0 {
      assert Attempted(c, d, a) == t[n - 1];
      TraceKeeps(c, d, a.reply, a.download, n - 1);
      KeepsRecord(c, d, a.reply.manifest, t[n - 1]);
    }
  }

  lemma {:induction false} KeepsRecord(c: Client, d: Disk, m: Manifest, d': Disk)
    requires Keeps(c, d, m, d')
    ensures BoundState(c, d') == BoundState(c, d) || Release(c, d') == m.release
  {
  }

  // -------- sizes over runs --------

  // The size that manifests state for each digest.
  type Sizes = Digest -> int

  // Every intact module file has the size stated for its digest.
  ghost predicate SizesOk(c: Client, z: Sizes, d: Disk) {
    forall x :: x in d.modules && c.hash(d.modules[x]) == x ==> |d.modules[x]| == z(x)
  }

  // No module of d' differs from d, except for one of the manifest's size in its place.
  ghost predicate GrownBy(d: Disk, m: Manifest, d': Disk) {
    forall x :: x in d'.modules ==>
      (x in d.modules && d'.modules[x] == d.modules[x]) || (x == m.digest && |d'.modules[x]| == m.size)
  }

  lemma {:induction false} PruneShrinks(d: Disk, listed: seq<Digest>, keep: seq<Digest>, k: nat)
    requires k < |PruneSteps(d, listed, keep)|
    ensures var d' := PruneSteps(d, listed, keep)[k];
      forall x :: x in d'.modules ==> x in d.modules && d'.modules[x] == d.modules[x]
    decreases listed
  {
    if listed[0] in keep {
      PruneShrinks(d, listed[1..], keep, k);
    } else if k > 0 {
      PruneShrinks(d.(modules := d.modules - {listed[0]}), listed[1..], keep, k - 1);
    }
  }

  lemma {:induction false} FinishShrinks(c: Client, d: Disk, r: Record, k: nat)
    requires k < |FinishSteps(c, d, r)|
    ensures var d' := FinishSteps(c, d, r)[k];
      forall x :: x in d'.modules ==> x in d.modules && d'.modules[x] == d.modules[x]
  {
    if k > 2 {
      PruneShrinks(Recorded(d, r), c.listing(d.modules.Keys), r.history, k - 3);
    }
  }

  lemma {:induction false} TraceGrows(c: Client, d: Disk, reply: Reply, download: Option<Bytes>, k: nat)
    requires k < |Trace(c, d, reply, download)|
    ensures GrownBy(d, reply.manifest, Trace(c, d, reply, download)[k])
  {
    assert Accepts(c, d, reply);
    hide FinishSteps, ClearSteps, GetSteps, Accepts, Gotten, Cleared, Floor, InPlace, NewRecord, GrownBy;
    var m := reply.manifest;
    var a, b := ClearSteps(c, d, m), GetSteps(c, Cleared(c, d, m), Floor(c, d), m, download);
    if k >= |a| + |b| {
      FinishShrinks(c, InPlace(c, d, m, download), WrittenRecord(c, d, reply, download), k - |a| - |b|);
      PlaceGrows(c, d, m, download);
      ShrunkGrows(d, m, InPlace(c, d, m, download), Trace(c, d, reply, download)[k]);
    } else {
      EarlyGrows(c, d, m, download, k);
    }
  }

  lemma {:induction false} ShrunkGrows(d: Disk, m: Manifest, d1: Disk, d2: Disk)
    requires GrownBy(d, m, d1) && forall x :: x in d2.modules ==> x in d1.modules && d2.modules[x] == d1.modules[x]
    ensures GrownBy(d, m, d2)
  {
  }

  lemma {:induction false} PlaceGrows(c: Client, d: Disk, m: Manifest, download: Option<Bytes>)
    requires Gotten(c, Cleared(c, d, m), Floor(c, d), m, download)
    ensures GrownBy(d, m, InPlace(c, d, m, download))
  {
  }

  lemma {:induction false} EarlyGrows(c: Client, d: Disk, m: Manifest, download: Option<Bytes>, k: nat)
    requires k < |ClearSteps(c, d, m)| + |GetSteps(c, Cleared(c, d, m), Floor(c, d), m, download)|
    ensures GrownBy(d, m, (ClearSteps(c, d, m) + GetSteps(c, Cleared(c, d, m), Floor(c, d), m, download))[k])
  {
  }

  lemma {:induction false} AttemptSizes(c: Client, z: Sizes, d: Disk, a: Attempt)
    requires SizesOk(c, z, d) && (a.reply.Signed? ==> a.reply.manifest.size == z(a.reply.manifest.digest))
    ensures SizesOk(c, z, Attempted(c, d, a))
  {
    hide Trace;
    var t := Trace(c, d, a.reply, a.download);
    var n := if a.crash.Some? && a.crash.value < |t| then a.crash.value else |t|;
    if n > 0 {
      assert Attempted(c, d, a) == t[n - 1];
      assert a.reply.Signed? by { TraceSigned(c, d, a.reply, a.download); }
      TraceGrows(c, d, a.reply, a.download, n - 1);
    }
  }

  lemma {:induction false} TraceSigned(c: Client, d: Disk, reply: Reply, download: Option<Bytes>)
    ensures |Trace(c, d, reply, download)| > 0 ==> reply.Signed?
  {
  }

  // Every signed manifest states the one size of its digest, and its record will fit.
  ghost predicate AttemptOk(c: Client, z: Sizes, a: Attempt) {
    a.reply.Signed? ==> a.reply.manifest.size == z(a.reply.manifest.digest) && RecordsFit(c, a.reply.etag)
  }

  // Over any run of refreshes, each stopped anywhere, a usable module stays available
  // and the recorded release never decreases.
  lemma {:induction false} StoreSurvives(c: Client, z: Sizes, d: Disk, attempts: seq<Attempt>)
    requires ClientOk(c) && SizesOk(c, z, d) && forall i :: 0 <= i < |attempts| ==> AttemptOk(c, z, attempts[i])
    ensures Release(c, d) <= Release(c, AfterAttempts(c, d, attempts))
    ensures LastKnownGood(c, d).Some? ==> LastKnownGood(c, AfterAttempts(c, d, attempts)).Some?
    decreases |attempts|
  {
    if attempts == [] {
    } else {
      assert AttemptOk(c, z, attempts[0]);
      hide Release, LastKnownGood, ClientOk, Attempted, RecordsFit;
      AttemptKeeps(c, d, attempts[0]);
      AttemptSizes(c, z, d, attempts[0]);
      hide *;
      StoreSurvives(c, z, Attempted(c, d, attempts[0]), attempts[1..]);
      AttemptsUnfold(c, d, attempts);
    }
  }

  lemma {:induction false} AttemptsUnfold(c: Client, d: Disk, attempts: seq<Attempt>)
    requires attempts != []
    ensures AfterAttempts(c, d, attempts) == AfterAttempts(c, Attempted(c, d, attempts[0]), attempts[1..])
  {
    hide Attempted;
  }
}
