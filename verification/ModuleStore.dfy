/** The store object of a device: the provisioning tool's refresh and the Swift store's,
    both proved to leave exactly the disk states of the specification behind. */
module ModuleStore {
  import opened Basics
  import opened DeviceStore

  lemma {:induction false} TemporaryGone(t: map<Digest, Bytes>, d: Digest, content: Bytes)
    ensures t[d := content] - {d} == t - {d}
  {
  }

  lemma {:induction false} LastConcat(d: Disk, a: seq<Disk>, b: seq<Disk>)
    ensures Last(Last(d, a), b) == Last(d, a + b)
  {
  }

  lemma {:induction false} ClearedLast(c: Client, d: Disk, m: Manifest)
    ensures Last(d, ClearSteps(c, d, m)) == Cleared(c, d, m)
  {
  }

  lemma {:induction false} TraceParts(c: Client, d: Disk, reply: Reply, download: Option<Bytes>)
    requires Accepts(c, d, reply)
    ensures var m := reply.manifest;
      var d1 := Cleared(c, d, m);
      var ok := Gotten(c, d1, Floor(c, d), m, download);
      && (Installs(c, d, reply, download) <==> ok)
      && Trace(c, d, reply, download) == (ClearSteps(c, d, m) + GetSteps(c, d1, Floor(c, d), m, download))
           + (if ok then var d2 := WithModule(d1, m, download);
                FinishSteps(c, d2, NewRecord(c, d2, Prior(c, d), m, reply.etag)) else [])
  {
    hide GetSteps, ClearSteps, FinishSteps, Accepts, Cleared, NewRecord, Gotten, WithModule;
  }

  lemma {:induction false} Joined<T>(start: seq<T>, a: seq<T>, b: seq<T>, e: seq<T>)
    ensures ((start + a) + b) + e == start + ((a + b) + e)
    ensures e == [] ==> (start + a) + b == start + ((a + b) + e) && (a + b) + e == a + b
  {
  }

  class Store {
    const client: Client
    var modules: map<Digest, Bytes>
    var temporaries: map<Digest, Bytes>
    var record: RecordFile
    var recordTemporary: RecordFile
    // The disk after every file operation so far.
    ghost var steps: seq<Disk>

    constructor (client: Client)
      ensures this.client == client && View() == Disk(map[], map[], Missing, Missing) && steps == []
    {
      this.client := client;
      modules, temporaries, record, recordTemporary, steps := map[], map[], Missing, Missing, [];
    }

    function View(): Disk
      reads this
    {
      Disk(modules, temporaries, record, recordTemporary)
    }

    // -------- file operations --------

    method RemoveModule(d: Digest)
      modifies this
      ensures View() == old(View()).(modules := old(modules) - {d}) && steps == old(steps) + [View()]
    {
      modules := modules - {d};
      steps := steps + [View()];
    }

    method WriteTemporary(d: Digest, content: Bytes)
      modifies this
      ensures View() == WithTemporary(old(View()), d, content) && steps == old(steps) + [View()]
    {
      temporaries := temporaries[d := content];
      steps := steps + [View()];
    }

    method RemoveTemporary(d: Digest)
      modifies this
      ensures View() == WithoutTemporary(old(View()), d) && steps == old(steps) + [View()]
    {
      temporaries := temporaries - {d};
      steps := steps + [View()];
    }

    // One rename puts the temporary's content in the module's place.
    method MoveTemporary(d: Digest)
      requires d in temporaries
      modifies this
      ensures View() == Moved(old(View()), d, old(temporaries[d])) && steps == old(steps) + [View()]
    {
      modules, temporaries := modules[d := temporaries[d]], temporaries - {d};
      steps := steps + [View()];
    }

    // The record is written beside its place and then renamed over it.
    method WriteRecord(r: Record)
      modifies this
      ensures View() == Recorded(old(View()), r)
      ensures steps == old(steps)
        + [old(View()).(recordTemporary := Unreadable), old(View()).(recordTemporary := Stored(r)), View()]
    {
      recordTemporary := Unreadable;
      steps := steps + [View()];
      recordTemporary := Stored(r);
      steps := steps + [View()];
      record, recordTemporary := recordTemporary, Missing;
      steps := steps + [View()];
    }

    method Prune(keep: seq<Digest>)
      modifies this
      ensures steps == old(steps) + PruneSteps(old(View()), client.listing(old(modules).Keys), keep)
      ensures View() == Last(old(View()), PruneSteps(old(View()), client.listing(old(modules).Keys), keep))
    {
      var listed := client.listing(modules.Keys);
      ghost var all := PruneSteps(View(), listed, keep);
      ghost var done: seq<Disk> := [];
      for i := 0 to |listed|
        invariant steps == old(steps) + done && View() == Last(old(View()), done)
        invariant all == done + PruneSteps(View(), listed[i..], keep)
      {
        assert listed[i..][0] == listed[i] && listed[i..][1..] == listed[i + 1..];
        if listed[i] !in keep {
          RemoveModule(listed[i]);
          done := done + [View()];
        }
      }
      assert done + [] == done;
    }

    // The current digest, then the previous ones whose modules are still there.
    method History(prior: seq<Digest>, digest: Digest) returns (history: seq<Digest>)
      ensures history == FirstTwo([digest] + Present(View(), prior, digest))
    {
      history := [digest];
      for i := 0 to |prior|
        invariant [digest] + Present(View(), prior, digest) == history + Present(View(), prior[i..], digest)
      {
        assert prior[i..][0] == prior[i] && prior[i..][1..] == prior[i + 1..];
        if prior[i] != digest && prior[i] in modules {
          history := history + [prior[i]];
        }
      }
      if |history| > 2 {
        history := history[..2];
      }
    }

    // -------- the last known good module --------

    method LastKnownGood() returns (r: Option<Digest>)
      ensures r == DeviceStore.LastKnownGood(client, View())
    {
      var state := BoundState(client, View());
      if state.None? || state.value.release < client.minimumRelease {
        return None;
      }
      var digest := state.value.digest;
      if digest !in modules || |modules[digest]| < 1 || |modules[digest]| > MAX_MODULE_BYTES
         || client.hash(modules[digest]) != digest
      {
        return None;
      }
      r := Some(digest);
    }

    // -------- the two refreshes --------

    // What both refreshes promise of the disk.
    ghost predicate Refreshed(before: Disk, stepped: seq<Disk>, reply: Reply, download: Option<Bytes>)
      reads this
    {
      && steps == stepped + Trace(client, before, reply, download)
      && View() == Last(before, Trace(client, before, reply, download))
    }

    // The end of a refresh once the module is in place.
    method Finish(prior: seq<Digest>, m: Manifest, etag: Bytes)
      modifies this
      ensures var r := NewRecord(client, old(View()), prior, m, etag);
        && steps == old(steps) + FinishSteps(client, old(View()), r)
        && View() == Last(old(View()), FinishSteps(client, old(View()), r))
    {
      hide PruneSteps, FirstTwo, Present;
      var history := History(prior, m.digest);
      WriteRecord(Record(1, client.binding, etag, m.release, m.digest, history));
      Prune(history);
    }

    // Removes a module file that is not what the manifest says.
    method Clear(m: Manifest)
      modifies this
      ensures View() == Cleared(client, old(View()), m)
      ensures steps == old(steps) + ClearSteps(client, old(View()), m)
    {
      if m.digest in modules {
        if |modules[m.digest]| != m.size || client.hash(modules[m.digest]) != m.digest {
          RemoveModule(m.digest);
        }
      }
    }

    // The tool checks size and hash before it writes anything.
    method Download(floor: int, m: Manifest, download: Option<Bytes>) returns (ok: bool)
      requires client.platform.Tool?
      modifies this
      ensures ok <==> Fetched(client, floor, m, download)
      ensures steps == old(steps) + DownloadSteps(client, old(View()), floor, m, download)
      ensures View() == Last(old(View()), DownloadSteps(client, old(View()), floor, m, download))
      ensures ok ==> download.Some? && View() == Moved(old(View()), m.digest, download.value)
    {
      if download.None? || |download.value| != m.size || client.hash(download.value) != m.digest {
        return false;
      }
      TemporaryGone(temporaries, m.digest, []);
      TemporaryGone(temporaries, m.digest, download.value);
      assert temporaries[m.digest := []][m.digest := download.value] == temporaries[m.digest := download.value];
      WriteTemporary(m.digest, []);
      WriteTemporary(m.digest, download.value);
      if client.validate(download.value, floor).None? {
        RemoveTemporary(m.digest);
        return false;
      }
      MoveTemporary(m.digest);
      ok := true;
    }

    // The Swift store writes the temporary first, and compares releases.
    method DownloadData(floor: int, m: Manifest, download: Option<Bytes>) returns (ok: bool)
      requires client.platform.Swift?
      modifies this
      ensures ok <==> Fetched(client, floor, m, download)
      ensures steps == old(steps) + DownloadSteps(client, old(View()), floor, m, download)
      ensures View() == Last(old(View()), DownloadSteps(client, old(View()), floor, m, download))
      ensures ok ==> download.Some? && View() == Moved(old(View()), m.digest, download.value)
    {
      if m.url != m.digest || download.None? || |download.value| != m.size {
        return false;
      }
      TemporaryGone(temporaries, m.digest, download.value);
      assert (temporaries - {m.digest})[m.digest := download.value] == temporaries[m.digest := download.value];
      RemoveTemporary(m.digest);
      WriteTemporary(m.digest, download.value);
      if client.hash(temporaries[m.digest]) != m.digest {
        RemoveTemporary(m.digest);
        return false;
      }
      var release := client.validate(temporaries[m.digest], floor);
      if release.None? || release.value != m.release {
        RemoveTemporary(m.digest);
        return false;
      }
      MoveTemporary(m.digest);
      ok := true;
    }

    // Gets the module in place: as it is, or downloaded.
    method Obtain(floor: int, m: Manifest, download: Option<Bytes>) returns (ok: bool)
      modifies this
      ensures steps == old(steps) + GetSteps(client, old(View()), floor, m, download)
      ensures View() == Last(old(View()), GetSteps(client, old(View()), floor, m, download))
      ensures ok <==> Gotten(client, old(View()), floor, m, download)
      ensures ok ==> View() == WithModule(old(View()), m, download)
    {
      hide DownloadSteps, Fetched, Moved;
      if m.digest !in modules {
        if client.platform.Tool? {
          ok := Download(floor, m, download);
        } else {
          ok := DownloadData(floor, m, download);
        }
      } else {
        var release := client.validate(modules[m.digest], floor);
        ok := release.Some? && (client.platform.Swift? ==> release.value == m.release);
      }
    }

    // The file operations of a refresh whose manifest was accepted.
    method Install(floor: int, prior: seq<Digest>, reply: Reply, download: Option<Bytes>) returns (r: Option<Digest>)
      requires Accepts(client, View(), reply) && floor == Floor(client, View()) && prior == Prior(client, View())
      modifies this
      ensures steps == old(steps) + Trace(client, old(View()), reply, download)
      ensures View() == Last(old(View()), Trace(client, old(View()), reply, download))
      ensures r == if Installs(client, old(View()), reply, download) then Some(reply.manifest.digest) else None
    {
      assert reply.Signed?;
      hide *;
      var m := reply.manifest;
      ghost var d, start := View(), steps;
      TraceParts(client, d, reply, download);
      ClearedLast(client, d, m);
      Clear(m);
      ghost var d1, a := View(), ClearSteps(client, d, m);
      ghost var b := GetSteps(client, d1, floor, m, download);
      var ok := Obtain(floor, m, download);
      LastConcat(d, a, b);
      if !ok {
        Joined(start, a, b, []);
        return None;
      }
      ghost var d2 := View();
      ghost var e := FinishSteps(client, d2, NewRecord(client, d2, prior, m, reply.etag));
      LastConcat(d, a + b, e);
      Finish(prior, m, reply.etag);
      Joined(start, a, b, e);
      r := Some(m.digest);
    }

    method ProvisionStrict(reply: Reply, download: Option<Bytes>) returns (r: Option<Digest>)
      requires client.platform.Tool?
      modifies this
      ensures Refreshed(old(View()), old(steps), reply, download)
      ensures r == if Installs(client, old(View()), reply, download) then Some(reply.manifest.digest)
                   else if reply.NotModified? || reply.Unavailable? then DeviceStore.LastKnownGood(client, old(View()))
                   else None
    {
      hide FinishSteps, DownloadSteps, Fetched, Broken, NewRecord, DeviceStore.LastKnownGood;
      var state := BoundState(client, View());
      var installed := if state.Some? then state.value.release else 0;
      if reply.NotModified? || reply.Unavailable? {
        r := LastKnownGood();
        return;
      }
      if reply.Forged? {
        return None;
      }
      var m := reply.manifest;
      if m.binding != client.binding || m.release < 1 || m.release > MAX_U64 {
        return None;
      }
      var floor := if installed < client.minimumRelease then client.minimumRelease else installed;
      if m.release < floor || !IsSha256(m.digest) || m.size < 1 || m.size > MAX_MODULE_BYTES || m.url != m.digest {
        return None;
      }
      r := Install(floor, if state.Some? then state.value.history else [], reply, download);
    }

    method RefreshStrict(reply: Reply, download: Option<Bytes>) returns (r: Option<Digest>)
      requires client.platform.Swift?
      modifies this
      ensures Refreshed(old(View()), old(steps), reply, download)
      ensures r == if Installs(client, old(View()), reply, download) then Some(reply.manifest.digest)
                   else if reply.NotModified? then DeviceStore.LastKnownGood(client, old(View()))
                   else None
    {
      hide FinishSteps, DownloadSteps, Fetched, Broken, NewRecord, DeviceStore.LastKnownGood;
      var previous := BoundState(client, View());
      if reply.NotModified? {
        r := LastKnownGood();
        return;
      }
      if !reply.Signed? {
        return None;
      }
      var m := reply.manifest;
      var installed := if previous.Some? then previous.value.release else 0;
      var floor := if installed < client.minimumRelease then client.minimumRelease else installed;
      if m.binding != client.binding || m.release < 0 || m.release > MAX_U64 || m.release < floor
         || !IsSha256(m.digest) || m.size < 1 || m.size > MAX_MODULE_BYTES
      {
        return None;
      }
      r := Install(floor, if previous.Some? then previous.value.history else [], reply, download);
    }

    // A refresh that fails in any way falls back to the last known good module.
    method Refresh(reply: Reply, download: Option<Bytes>) returns (r: Option<Digest>)
      modifies this
      ensures Refreshed(old(View()), old(steps), reply, download)
      ensures r == if Installs(client, old(View()), reply, download) then Some(reply.manifest.digest)
                   else DeviceStore.LastKnownGood(client, View())
    {
      hide Installs, DeviceStore.LastKnownGood;
      if client.platform.Tool? {
        r := ProvisionStrict(reply, download);
      } else {
        r := RefreshStrict(reply, download);
      }
      if r.None? {
        r := LastKnownGood();
      }
    }
  }
}
