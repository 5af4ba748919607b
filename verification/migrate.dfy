/**
 Address reconciliation (migrate.py): a scan snapshot gives each device's
 current IP; every config entry whose nested `device_id` names a scanned device
 gets its nested `host` overwritten with that IP, one log line per rewritten
 entry, and the document is written back only when something was rewritten.

 Documents are abstract values: JSON text, its parsing and its serialisation
 are not part of this model.
 */
module Migrate {
  import opened Wrappers

  /** A JSON value the model does not look into. `Other` stands for any
      non-string value (number, boolean, null, list, object) and carries the
      text Python prints for it. */
  datatype Value = Str(s: string) | Other(text: string)

  /** One record of the snapshot's `devices` list; `None` is a missing key or a null. */
  datatype Device = Device(id: Option<string>, ip: Option<string>)

  /** One element of the config document's `data.entries` list. `rest` holds
      the entry's other keys, which the reconciliation never touches. `data`
      is None only when the entry has no `data` key; a `data` that is null or
      not an object is not represented. */
  datatype Entry = Entry(title: Option<Value>, data: Option<map<string, Value>>, rest: map<string, Value>)

  /** The config document: its entry list and everything else in it. */
  datatype Document = Document(entries: seq<Entry>, rest: map<string, Value>)

  /** What one rewrite records: title, device id, host before (None when the
      entry had no `host`) and the IP written. */
  datatype Change = Change(title: Option<Value>, deviceId: string, oldHost: Option<Value>, newIp: string)

  // ---------------------------------------------------------------------------
  // The snapshot index

  /** A device record is indexed only when both `id` and `ip` are truthy,
      that is present and non-empty. */
  predicate Usable(d: Device)
  {
    d.id.Some? && d.id.value != "" && d.ip.Some? && d.ip.value != ""
  }

  /** The index the loop builds: records are taken in list order, unusable
      ones are skipped and a later record overwrites an earlier one. */
  function SnapshotIndex(devices: seq<Device>): map<string, string>
    decreases |devices|
  {
    if devices == [] then map[]
    else
      var m := SnapshotIndex(devices[..|devices| - 1]);
      var d := devices[|devices| - 1];
      if Usable(d) then m[d.id.value := d.ip.value] else m
  }

  /** The index holds exactly the ids of the usable records. */
  lemma {:induction false} IndexKeys(devices: seq<Device>, k: string)
    ensures k in SnapshotIndex(devices) <==>
              exists i :: 0 <= i < |devices| && Usable(devices[i]) && devices[i].id.value == k
  {
    if devices != [] {
      var init := devices[..|devices| - 1];
      IndexKeys(init, k);
      if k in SnapshotIndex(init) {
        var i :| 0 <= i < |init| && Usable(init[i]) && init[i].id.value == k;
        assert devices[i] == init[i];
      }
      if exists i :: 0 <= i < |devices| && Usable(devices[i]) && devices[i].id.value == k {
        var i :| 0 <= i < |devices| && Usable(devices[i]) && devices[i].id.value == k;
        if i < |init| {
          assert init[i] == devices[i];
        }
      }
    }
  }

  /** For a duplicated id the index keeps the IP of the last usable record
      carrying it. */
  lemma {:induction false} IndexLastWins(devices: seq<Device>, i: nat)
    requires i < |devices| && Usable(devices[i])
    requires forall j :: i < j < |devices| && Usable(devices[j]) ==> devices[j].id.value != devices[i].id.value
    ensures devices[i].id.value in SnapshotIndex(devices)
    ensures SnapshotIndex(devices)[devices[i].id.value] == devices[i].ip.value
  {
    var init := devices[..|devices| - 1];
    if i < |devices| - 1 {
      forall j | i < j < |init| && Usable(init[j])
        ensures init[j].id.value != init[i].id.value
      {
        assert init[j] == devices[j];
      }
      IndexLastWins(init, i);
    }
  }

  /** Builds the index as migrate.py does, one record at a time into a map. */
  method BuildIndex(devices: seq<Device>) returns (index: map<string, string>)
    ensures index == SnapshotIndex(devices)
  {
    index := map[];
    var i := 0;
    while i < |devices|
      invariant 0 <= i <= |devices|
      invariant index == SnapshotIndex(devices[..i])
    {
      var device := devices[i];
      assert devices[..i + 1][..i] == devices[..i];
      if device.id.Some? && device.id.value != "" && device.ip.Some? && device.ip.value != "" {
        index := index[device.id.value := device.ip.value];
      }
      i := i + 1;
    }
    assert devices[..|devices|] == devices;
  }

  // ---------------------------------------------------------------------------
  // Reconciling one entry

  /** The entry's `data.device_id` when it is a string; an entry without
      `data`, without `device_id`, or with a non-string one cannot match. */
  function DeviceIdOf(e: Entry): Option<string>
  {
    if e.data.Some? && "device_id" in e.data.value && e.data.value["device_id"].Str?
    then Some(e.data.value["device_id"].s)
    else None
  }

  /** The entry's `data.host`, None when absent. */
  function HostOf(e: Entry): Option<Value>
  {
    if e.data.Some? && "host" in e.data.value then Some(e.data.value["host"]) else None
  }

  /** The test `device_id in snapshot_ips`. */
  predicate Matches(index: map<string, string>, e: Entry)
  {
    DeviceIdOf(e).Some? && DeviceIdOf(e).value in index
  }

  /** The entry after the loop body: a matched entry gets `host` set to its
      indexed IP (added when absent), whether or not it already held it. */
  function Reconciled(index: map<string, string>, e: Entry): (r: Entry)
    ensures !Matches(index, e) ==> r == e
    ensures Matches(index, e) ==>
              && r.title == e.title && r.rest == e.rest
              && r.data.Some? && e.data.Some?
              && HostOf(r) == Some(Str(index[DeviceIdOf(e).value]))
              && r.data.value.Keys == e.data.value.Keys + {"host"}
              && (forall k :: k in e.data.value && k != "host" ==> r.data.value[k] == e.data.value[k])
    ensures DeviceIdOf(r) == DeviceIdOf(e)
  {
    if Matches(index, e) then
      e.(data := Some(e.data.value["host" := Str(index[DeviceIdOf(e).value])]))
    else e
  }

  /** The record logged for a matched entry; `oldHost` is read before the rewrite. */
  function ChangeOf(index: map<string, string>, e: Entry): Change
    requires Matches(index, e)
  {
    Change(e.title, DeviceIdOf(e).value, HostOf(e), index[DeviceIdOf(e).value])
  }

  /** How Python prints an optional value inside an f-string. */
  function Render(v: Option<Value>, absent: string): string
  {
    match v
    case None => absent
    case Some(Str(s)) => s
    case Some(Other(t)) => t
  }

  /** The log line for one change: `Updated {title} {device_id}: {old} -> {new}`,
      where a missing title prints as `None` and a missing host as `N/A`. */
  function LogLine(c: Change): (line: string)
    ensures |line| >= |"Updated "| + |c.newIp|
    ensures line[..|"Updated "|] == "Updated "
    ensures line[|line| - |c.newIp|..] == c.newIp
    // The title follows the prefix, then a space, the device id and ": ".
    ensures var t := Render(c.title, "None");
            && |line| >= |"Updated "| + |t| + |" "| + |c.deviceId| + |": "|
            && line[|"Updated "|..|"Updated "| + |t|] == t
            && line[|"Updated "| + |t|..|"Updated "| + |t| + |" "| + |c.deviceId| + |": "|] == " " + c.deviceId + ": "
    // The old host is followed by " -> " and the new IP, which ends the line.
    ensures var h := Render(c.oldHost, "N/A");
            && |line| >= |h| + |" -> "| + |c.newIp|
            && line[|line| - |c.newIp| - |" -> "| - |h|..] == h + " -> " + c.newIp
    // Nothing lies between the two: the line is exactly these parts.
    ensures |line| == |"Updated "| + |Render(c.title, "None")| + |" "| + |c.deviceId| + |": "|
                      + |Render(c.oldHost, "N/A")| + |" -> "| + |c.newIp|
    ensures c.title.None? ==> line[..|"Updated None "|] == "Updated None "
    ensures c.oldHost.None? ==> line[|line| - |c.newIp| - |"N/A -> "|..] == "N/A -> " + c.newIp
  {
    var head := "Updated " + Render(c.title, "None") + " " + c.deviceId + ": ";
    var tail := Render(c.oldHost, "N/A") + " -> " + c.newIp;
    assert (head + tail)[..|head|] == head && (head + tail)[|head|..] == tail;
    head + tail
  }

  // ---------------------------------------------------------------------------
  // Reconciling the entry list

  /** The entry list after the loop, entry by entry in list order. */
  function ReconcileAll(index: map<string, string>, es: seq<Entry>): (rs: seq<Entry>)
    ensures |rs| == |es|
    decreases |es|
  {
    if es == [] then []
    else ReconcileAll(index, es[..|es| - 1]) + [Reconciled(index, es[|es| - 1])]
  }

  /** The change records the loop produces, in entry order. */
  function Changes(index: map<string, string>, es: seq<Entry>): seq<Change>
    decreases |es|
  {
    if es == [] then []
    else
      var last := es[|es| - 1];
      Changes(index, es[..|es| - 1]) + (if Matches(index, last) then [ChangeOf(index, last)] else [])
  }

  /** The log lines of a list of changes. */
  function LogLines(cs: seq<Change>): seq<string>
  {
    seq(|cs|, j requires 0 <= j < |cs| => LogLine(cs[j]))
  }

  /** Reconciliation keeps the number and the order of the entries: entry i of
      the output is entry i of the input, reconciled on its own. */
  lemma {:induction false} ReconcileAllAt(index: map<string, string>, es: seq<Entry>, i: nat)
    requires i < |es|
    ensures |ReconcileAll(index, es)| == |es|
    ensures ReconcileAll(index, es)[i] == Reconciled(index, es[i])
  {
    var init := es[..|es| - 1];
    if i < |init| {
      ReconcileAllAt(index, init, i);
    } else if init != [] {
      ReconcileAllAt(index, init, 0);
    }
  }

  /** Reconciliation touches no unmatched entry and changes nothing but `host`
      in a matched one. */
  lemma ReconcileIsSelective(index: map<string, string>, es: seq<Entry>)
    ensures |ReconcileAll(index, es)| == |es|
    ensures forall i :: 0 <= i < |es| && !Matches(index, es[i]) ==> ReconcileAll(index, es)[i] == es[i]
    ensures forall i :: 0 <= i < |es| && Matches(index, es[i]) ==>
              var r := ReconcileAll(index, es)[i];
              && r.title == es[i].title && r.rest == es[i].rest && r.data.Some?
              && HostOf(r) == Some(Str(index[DeviceIdOf(es[i]).value]))
              && r.data.value.Keys == es[i].data.value.Keys + {"host"}
              && (forall k :: k in es[i].data.value && k != "host" ==> k in r.data.value && r.data.value[k] == es[i].data.value[k])
  {
    if es != [] {
      ReconcileAllAt(index, es, 0);
    }
    forall i | 0 <= i < |es| {
      ReconcileAllAt(index, es, i);
    }
  }

  /** The log of a concatenation is the concatenation of the logs: one record
      per matched entry, in entry order. */
  lemma {:induction false} ChangesAppend(index: map<string, string>, a: seq<Entry>, b: seq<Entry>)
    ensures Changes(index, a + b) == Changes(index, a) + Changes(index, b)
    decreases |b|
  {
    if b == [] {
      assert a + b == a;
    } else {
      var init := b[..|b| - 1];
      assert (a + b)[..|a + b| - 1] == a + init;
      ChangesAppend(index, a, init);
    }
  }

  /** At least one record is logged exactly when at least one entry matches. */
  lemma {:induction false} ChangesNonEmptyIff(index: map<string, string>, es: seq<Entry>)
    ensures |Changes(index, es)| > 0 <==> exists i :: 0 <= i < |es| && Matches(index, es[i])
  {
    if es != [] {
      var init := es[..|es| - 1];
      ChangesNonEmptyIff(index, init);
      if exists i :: 0 <= i < |init| && Matches(index, init[i]) {
        var i :| 0 <= i < |init| && Matches(index, init[i]);
        assert es[i] == init[i];
      }
      if exists i :: 0 <= i < |es| && Matches(index, es[i]) {
        var i :| 0 <= i < |es| && Matches(index, es[i]);
        if i < |init| {
          assert init[i] == es[i];
        }
      }
    }
  }

  /** Every change record names a matched entry, carries that entry's host
      before the rewrite, and the IP it carries is what that entry's host holds
      afterwards, which is the indexed IP of its device. */
  lemma {:induction false} ChangesAreCorrect(index: map<string, string>, es: seq<Entry>, j: nat)
    requires j < |Changes(index, es)|
    ensures exists i :: 0 <= i < |es| && Matches(index, es[i])
              && Changes(index, es)[j] == ChangeOf(index, es[i])
              && HostOf(ReconcileAll(index, es)[i]) == Some(Str(Changes(index, es)[j].newIp))
    ensures Changes(index, es)[j].deviceId in index
    ensures Changes(index, es)[j].newIp == index[Changes(index, es)[j].deviceId]
  {
    var init := es[..|es| - 1];
    var last := es[|es| - 1];
    var i: nat;
    if j < |Changes(index, init)| {
      ChangesAreCorrect(index, init, j);
      i :| 0 <= i < |init| && Matches(index, init[i])
           && Changes(index, init)[j] == ChangeOf(index, init[i])
           && HostOf(ReconcileAll(index, init)[i]) == Some(Str(Changes(index, init)[j].newIp));
      ReconcileAllAt(index, init, i);
      ReconcileAllAt(index, es, i);
      assert es[i] == init[i];
    } else {
      i := |es| - 1;
      ReconcileAllAt(index, es, i);
    }
    assert Changes(index, es)[j] == ChangeOf(index, es[i]);
  }

  /** A second pass with the same index over the first pass's output leaves
      every entry, and so every host, as it was. */
  lemma ReconcileIdempotent(index: map<string, string>, es: seq<Entry>)
    ensures ReconcileAll(index, ReconcileAll(index, es)) == ReconcileAll(index, es)
  {
    var once := ReconcileAll(index, es);
    var twice := ReconcileAll(index, once);
    if es != [] {
      ReconcileAllAt(index, es, 0);
      ReconcileAllAt(index, once, 0);
    }
    forall i | 0 <= i < |es|
      ensures twice[i] == once[i]
    {
      ReconcileAllAt(index, es, i);
      ReconcileAllAt(index, once, i);
      var e := es[i];
      if Matches(index, e) {
        var m := e.data.value["host" := Str(index[DeviceIdOf(e).value])];
        assert m["host" := Str(index[DeviceIdOf(e).value])] == m;
      }
    }
  }

  /** The second pass is not silent: it logs one record for each record of the
      first pass, each with the old host already equal to the new IP, and so
      it would set `updated` and write the document back again. */
  lemma {:induction false} SecondPassRelogs(index: map<string, string>, es: seq<Entry>)
    ensures |Changes(index, ReconcileAll(index, es))| == |Changes(index, es)|
    ensures forall c :: c in Changes(index, ReconcileAll(index, es)) ==> c.oldHost == Some(Str(c.newIp))
  {
    if es != [] {
      var init := es[..|es| - 1];
      var last := es[|es| - 1];
      var once := ReconcileAll(index, es);
      SecondPassRelogs(index, init);
      assert once[..|once| - 1] == ReconcileAll(index, init);
      assert once[|once| - 1] == Reconciled(index, last);
    }
  }

  // ---------------------------------------------------------------------------
  // The script

  /** The reconciliation loop of migrate.py over the entry list, updating the
      nested `data` of each matched entry in place. Returns the log lines and
      the `updated` flag. */
  method ReconcileInPlace(index: map<string, string>, entries: array<Entry>) returns (log: seq<string>, updated: bool)
    modifies entries
    ensures entries[..] == ReconcileAll(index, old(entries[..]))
    ensures log == LogLines(Changes(index, old(entries[..])))
    ensures updated <==> exists i :: 0 <= i < entries.Length && Matches(index, old(entries[i]))
  {
    ghost var before := entries[..];
    ghost var changes: seq<Change> := [];
    log, updated := [], false;
    var i := 0;
    while i < entries.Length
      invariant 0 <= i <= entries.Length
      invariant forall j :: 0 <= j < i ==> entries[j] == Reconciled(index, before[j])
      invariant forall j :: i <= j < entries.Length ==> entries[j] == before[j]
      invariant changes == Changes(index, before[..i])
      invariant log == LogLines(changes)
      invariant updated <==> exists j :: 0 <= j < i && Matches(index, before[j])
    {
      var entry := entries[i];
      ChangesSnoc(index, before, i);
      var deviceId := DeviceIdOf(entry);
      var currentIp := HostOf(entry);
      if deviceId.Some? && deviceId.value in index {
        var newIp := index[deviceId.value];
        entries[i] := entry.(data := Some(entry.data.value["host" := Str(newIp)]));
        var change := Change(entry.title, deviceId.value, currentIp, newIp);
        LogLinesAppend(changes, [change]);
        log := log + LogLines([change]);
        changes := changes + [change];
        updated := true;
      }
      i := i + 1;
    }
    assert before[..entries.Length] == before;
    ReconcileAllPointwise(index, before, entries[..]);
  }

  /** Taking one more entry appends its change record, if it has one. */
  lemma ChangesSnoc(index: map<string, string>, es: seq<Entry>, i: nat)
    requires i < |es|
    ensures Changes(index, es[..i + 1]) ==
              Changes(index, es[..i]) + (if Matches(index, es[i]) then [ChangeOf(index, es[i])] else [])
  {
    assert es[..i + 1][..i] == es[..i];
  }

  /** The lines of a concatenation are the concatenation of the lines. */
  lemma LogLinesAppend(cs: seq<Change>, ds: seq<Change>)
    ensures LogLines(cs + ds) == LogLines(cs) + LogLines(ds)
  {
  }

  /** A list that agrees entry by entry with the reconciled entries is the
      reconciled list. */
  lemma ReconcileAllPointwise(index: map<string, string>, es: seq<Entry>, rs: seq<Entry>)
    requires |rs| == |es|
    requires forall j :: 0 <= j < |es| ==> rs[j] == Reconciled(index, es[j])
    ensures rs == ReconcileAll(index, es)
  {
    forall j | 0 <= j < |es|
      ensures rs[j] == ReconcileAll(index, es)[j]
    {
      ReconcileAllAt(index, es, j);
    }
  }

  /** migrate.py from the snapshot's device list and the loaded document:
      build the index, reconcile the entries, and return the document to write
      back (None when nothing matched, so nothing is written) with the log. */
  method RunMigrate(devices: seq<Device>, doc: Document) returns (written: Option<Document>, log: seq<string>)
    ensures written.Some? <==> exists i :: 0 <= i < |doc.entries| && Matches(SnapshotIndex(devices), doc.entries[i])
    ensures written.Some? ==> written == Some(doc.(entries := ReconcileAll(SnapshotIndex(devices), doc.entries)))
    ensures log == LogLines(Changes(SnapshotIndex(devices), doc.entries))
  {
    var index := BuildIndex(devices);
    var entries := new Entry[|doc.entries|](i requires 0 <= i < |doc.entries| => doc.entries[i]);
    assert entries[..] == doc.entries;
    var updated;
    log, updated := ReconcileInPlace(index, entries);
    if updated {
      written := Some(doc.(entries := entries[..]));
    } else {
      written := None;
    }
  }
}
