/**
 * The discovery registry (crates/synchrosonic-discovery/src/lib.rs): announcements are merged per
 * device, immaterial updates are not reported, goodbyes remove, and silence makes stale.
 */
module DeviceRegistries {
  import opened Numbers
  import opened Options
  import opened Addresses
  import opened Announcements

  type Instant = nat

  /** `latest` and `heard` are the observer's: the last announcement, and every endpoint since insertion. */
  datatype RegistryEntry = RegistryEntry(
    device: DiscoveredDevice, lastSeen: Instant, markedStale: bool,
    latest: DiscoveredDevice, heard: seq<Option<Endpoint>>)

  datatype DiscoveryEvent =
    | DeviceDiscovered(device: DiscoveredDevice)
    | DeviceUpdated(device: DiscoveredDevice)
    | DeviceRemoved(deviceId: DeviceId, serviceFullname: string)
    | DeviceExpired(device: DiscoveredDevice)

  datatype Registry = Registry(devices: map<DeviceId, RegistryEntry>, staleTimeout: nat, emitted: seq<DiscoveryEvent>)

  function Merge(existing: DiscoveredDevice, incoming: DiscoveredDevice): DiscoveredDevice {
    incoming.(endpoint := PreferredEndpoint(existing.endpoint, incoming.endpoint))
  }

  /** A device without the time it was last seen. */
  function Undated(device: DiscoveredDevice): DiscoveredDevice {
    device.(lastSeenUnixMs := 0)
  }

  function UpsertDevice(r: Registry, announced: DiscoveredDevice, now: Instant, unixMs: nat): Registry {
    var device := announced.(lastSeenUnixMs := unixMs);
    if device.id in r.devices then
      var entry := r.devices[device.id];
      var merged := Merge(entry.device, device);
      r.(devices := r.devices[device.id := RegistryEntry(merged, now, false, device, entry.heard + [device.endpoint])],
         emitted := if Undated(entry.device) == Undated(merged) then r.emitted else r.emitted + [DeviceUpdated(merged)])
    else
      r.(devices := r.devices[device.id := RegistryEntry(device, now, false, device, [device.endpoint])],
         emitted := r.emitted + [DeviceDiscovered(device)])
  }

  predicate IsNamed(r: Registry, id: DeviceId, fullname: string) {
    id in r.devices && r.devices[id].device.serviceFullname == fullname
  }

  /** Several devices may carry the same service name; which of them is found is up to the table. */
  function RemoveNamed(r: Registry, fullname: string, found: DeviceId): Registry {
    if !IsNamed(r, found, fullname) then r
    else r.(devices := r.devices - {found}, emitted := r.emitted + [DeviceRemoved(found, fullname)])
  }

  predicate HasGoneStale(entry: RegistryEntry, timeout: nat, now: Instant) {
    !entry.markedStale && Max(now - entry.lastSeen, 0) >= timeout
  }

  function MarkStale(entry: RegistryEntry): RegistryEntry {
    entry.(device := entry.device.(status := Stale, availability := Unavailable), markedStale := true)
  }

  function Expire(r: Registry, id: DeviceId, now: Instant): Registry {
    if id !in r.devices || !HasGoneStale(r.devices[id], r.staleTimeout, now) then r
    else
      var entry := MarkStale(r.devices[id]);
      r.(devices := r.devices[id := entry], emitted := r.emitted + [DeviceExpired(entry.device)])
  }

  // ----- Runs -----

  datatype Op =
    | Announce(device: DiscoveredDevice, now: Instant, unixMs: nat)
    | Goodbye(fullname: string, found: DeviceId)
    | ExpireOne(id: DeviceId, now: Instant)

  function Step(r: Registry, op: Op): Registry {
    match op
    case Announce(device, now, unixMs) => UpsertDevice(r, device, now, unixMs)
    case Goodbye(fullname, found) => RemoveNamed(r, fullname, found)
    case ExpireOne(id, now) => Expire(r, id, now)
  }

  function Continue(r: Registry, ops: seq<Op>): Registry {
    if ops == [] then r
    else Step(Continue(r, ops[..|ops| - 1]), ops[|ops| - 1])
  }

  function Run(timeout: nat, ops: seq<Op>): Registry {
    Continue(Registry(map[], timeout, []), ops)
  }

  /** What an entry is, in terms of what was announced. */
  predicate EntryOk(id: DeviceId, entry: RegistryEntry) {
    && entry.heard != []
    && entry.latest.id == id
    && entry.device == entry.latest.(
         endpoint := MergedEndpoint(entry.heard),
         status := if entry.markedStale then Stale else entry.latest.status,
         availability := if entry.markedStale then Unavailable else entry.latest.availability)
  }

  ghost predicate Inv(r: Registry) {
    forall id | id in r.devices :: EntryOk(id, r.devices[id])
  }

  lemma FirstHeard(endpoint: Option<Endpoint>)
    ensures MergedEndpoint([endpoint]) == endpoint
  {
    assert [endpoint][..0] == [];
    assert MergedEndpoint([endpoint][..0]) == None;
  }

  lemma {:induction false} NextHeard(heard: seq<Option<Endpoint>>, endpoint: Option<Endpoint>)
    ensures MergedEndpoint(heard + [endpoint]) == PreferredEndpoint(MergedEndpoint(heard), endpoint)
  {
    assert (heard + [endpoint])[..|heard|] == heard;
  }

  lemma StepKeeps(r: Registry, op: Op)
    requires Inv(r)
    ensures Inv(Step(r, op))
  {
    match op
    case Announce(device, now, unixMs) =>
      FirstHeard(device.endpoint);
      if device.id in r.devices {
        assert EntryOk(device.id, r.devices[device.id]);
        NextHeard(r.devices[device.id].heard, device.endpoint);
      }
    case Goodbye(_, _) =>
    case ExpireOne(_, _) =>
  }

  lemma {:induction false} ContinueKeeps(r: Registry, ops: seq<Op>)
    requires Inv(r)
    ensures Inv(Continue(r, ops))
  {
    if ops != [] {
      ContinueKeeps(r, ops[..|ops| - 1]);
      StepKeeps(Continue(r, ops[..|ops| - 1]), ops[|ops| - 1]);
    }
  }

  lemma {:induction false} RunKeeps(timeout: nat, ops: seq<Op>)
    ensures Inv(Run(timeout, ops))
  {
    ContinueKeeps(Registry(map[], timeout, []), ops);
  }

  /**
   * Endpoint merge is a fold: a device is stored with the earliest endpoint of maximal rank among
   * all its announcements since insertion; the rest of it is the latest announcement, apart from
   * what staleness changes.
   */
  lemma {:induction false} StoredEndpointIsEarliestBest(timeout: nat, ops: seq<Op>, id: DeviceId)
    requires id in Run(timeout, ops).devices
    ensures var entry := Run(timeout, ops).devices[id];
            && (entry.device.endpoint.None? <==> forall h | h in entry.heard :: h.None?)
            && (entry.device.endpoint.Some? ==>
                  exists i :: IsEarliestBest(entry.heard, i) && entry.heard[i] == entry.device.endpoint)
            && entry.device.id == id
            && (!entry.markedStale ==> entry.device == entry.latest.(endpoint := entry.device.endpoint))
            && (entry.markedStale ==> entry.device.status == Stale && !IsReceiverConnectable(entry.device))
  {
    RunKeeps(timeout, ops);
    var entry := Run(timeout, ops).devices[id];
    assert EntryOk(id, entry);
    MergeKeepsEarliestBest(entry.heard);
  }

  predicate NotWorse(before: Option<Endpoint>, after: Option<Endpoint>) {
    before.Some? ==> after.Some? && (after == before || Above(RankOf(after.value), RankOf(before.value)))
  }

  /** The device is never removed during the run. */
  predicate StaysKnown(r: Registry, ops: seq<Op>, id: DeviceId) {
    forall k | 0 <= k <= |ops| :: id in Continue(r, ops[..k]).devices
  }

  /** While a device stays known its endpoint stays, or gives way to strictly better ones only. */
  lemma {:induction false} EndpointNeverWorsens(r: Registry, ops: seq<Op>, id: DeviceId)
    requires StaysKnown(r, ops, id)
    ensures id in r.devices && id in Continue(r, ops).devices
    ensures NotWorse(r.devices[id].device.endpoint, Continue(r, ops).devices[id].device.endpoint)
  {
    assert ops[..0] == [] && ops[..|ops|] == ops;
    assert id in Continue(r, ops[..0]).devices && id in Continue(r, ops[..|ops|]).devices;
    if ops != [] {
      var earlier := ops[..|ops| - 1];
      assert forall k | 0 <= k <= |earlier| :: earlier[..k] == ops[..k];
      EndpointNeverWorsens(r, earlier, id);
    }
  }

  /** What a map of entries says, apart from the times. */
  ghost predicate SameMaterially(left: map<DeviceId, RegistryEntry>, right: map<DeviceId, RegistryEntry>) {
    && left.Keys == right.Keys
    && forall id | id in left :: Undated(left[id].device) == Undated(right[id].device)
  }

  lemma AnnounceReports(r: Registry, device: DiscoveredDevice, now: Instant, unixMs: nat)
    ensures var r' := UpsertDevice(r, device, now, unixMs);
            r'.emitted == r.emitted <==> SameMaterially(r.devices, r'.devices)
  {
    var r', id := UpsertDevice(r, device, now, unixMs), device.id;
    assert id in r'.devices.Keys;
    if id in r.devices {
      assert SameMaterially(r.devices, r'.devices) <==> Undated(r.devices[id].device) == Undated(r'.devices[id].device);
    }
  }

  lemma GoodbyeReports(r: Registry, fullname: string, found: DeviceId)
    ensures var r' := RemoveNamed(r, fullname, found);
            r'.emitted == r.emitted <==> SameMaterially(r.devices, r'.devices)
  {
    if IsNamed(r, found, fullname) {
      assert found in r.devices.Keys && found !in RemoveNamed(r, fullname, found).devices.Keys;
    }
  }

  lemma ExpiryReports(r: Registry, id: DeviceId, now: Instant)
    requires id in r.devices && HasGoneStale(r.devices[id], r.staleTimeout, now)
    ensures var device := r.devices[id].device;
            SameMaterially(r.devices, Expire(r, id, now).devices)
            <==> device.status == Stale && device.availability == Unavailable
  {
    assert SameMaterially(r.devices, Expire(r, id, now).devices)
      <==> Undated(r.devices[id].device) == Undated(MarkStale(r.devices[id]).device);
  }

  /**
   * One step of the bare interface, whatever is announced: exactly the material changes are reported,
   * except that expiring a device announced as stale and unavailable is reported for nothing.
   */
  lemma ReportsExactlyChanges(r: Registry, op: Op)
    ensures var r' := Step(r, op);
            && (r'.emitted == r.emitted ==> SameMaterially(r.devices, r'.devices))
            && (r'.emitted != r.emitted && SameMaterially(r.devices, r'.devices) <==>
                  && op.ExpireOne? && op.id in r.devices && HasGoneStale(r.devices[op.id], r.staleTimeout, op.now)
                  && r.devices[op.id].device.status == Stale && r.devices[op.id].device.availability == Unavailable)
  {
    match op
    case Announce(device, now, unixMs) => AnnounceReports(r, device, now, unixMs);
    case Goodbye(fullname, found) => GoodbyeReports(r, fullname, found);
    case ExpireOne(id, now) =>
      if id in r.devices && HasGoneStale(r.devices[id], r.staleTimeout, now) { ExpiryReports(r, id, now); }
  }

  /** The exception is real for the bare interface: such a device is reported expired though nothing changes. */
  lemma StaleAnnouncementExpiresForNothing()
    ensures var device := DiscoveredDevice("id", "name", "1", 1, DeviceCapabilities(false, true, true, false),
                                           Unavailable, Stale, None, "fullname", 0);
            var r := Run(1, [Announce(device, 0, 0)]);
            var r' := Step(r, ExpireOne("id", 1));
            r'.emitted != r.emitted && SameMaterially(r.devices, r'.devices)
  {
    var device := DiscoveredDevice("id", "name", "1", 1, DeviceCapabilities(false, true, true, false),
                                   Unavailable, Stale, None, "fullname", 0);
    var ops := [Announce(device, 0, 0)];
    assert ops[..0] == [] && Continue(Registry(map[], 1, []), ops[..0]) == Registry(map[], 1, []);
    var r := Run(1, ops);
    assert r == UpsertDevice(Registry(map[], 1, []), device, 0, 0);
    ReportsExactlyChanges(r, ExpireOne("id", 1));
  }

  // ----- As the program uses it -----

  /** The program announces only what it has resolved from the network. */
  ghost predicate IsResolved(device: DiscoveredDevice) {
    exists service, localId, unixMs :: device == DeviceFromResolved(service, localId, unixMs)
  }

  ghost predicate AnnouncesResolved(op: Op) {
    op.Announce? ==> IsResolved(op.device)
  }

  /** Only the registry itself calls a device stale. */
  ghost predicate StaleIsMarked(r: Registry) {
    forall id | id in r.devices && !r.devices[id].markedStale :: r.devices[id].device.status != Stale
  }

  lemma StepMarksStale(r: Registry, op: Op)
    requires StaleIsMarked(r) && AnnouncesResolved(op)
    ensures StaleIsMarked(Step(r, op))
  {
  }

  lemma {:induction false} RunMarksStale(timeout: nat, ops: seq<Op>)
    requires forall i | 0 <= i < |ops| :: AnnouncesResolved(ops[i])
    ensures StaleIsMarked(Run(timeout, ops))
  {
    if ops != [] {
      RunMarksStale(timeout, ops[..|ops| - 1]);
      StepMarksStale(Run(timeout, ops[..|ops| - 1]), ops[|ops| - 1]);
    }
  }

  /**
   * In every run of the program an event is reported if and only if something changed besides the
   * time a device was last seen, and it is one event.
   */
  lemma {:induction false} ResolvedRunsReportExactlyChanges(timeout: nat, ops: seq<Op>, op: Op)
    requires AnnouncesResolved(op) && forall i | 0 <= i < |ops| :: AnnouncesResolved(ops[i])
    ensures var r, r' := Run(timeout, ops), Run(timeout, ops + [op]);
            && (r'.emitted == r.emitted || (|r'.emitted| == |r.emitted| + 1 && r'.emitted[..|r.emitted|] == r.emitted))
            && (r'.emitted == r.emitted <==> SameMaterially(r.devices, r'.devices))
  {
    var r := Run(timeout, ops);
    assert (ops + [op])[..|ops|] == ops;
    RunMarksStale(timeout, ops);
    ReportsExactlyChanges(r, op);
  }

  /** A device that has expired is not reported expired again until it is announced again. */
  lemma {:induction false} ExpiresOnce(r: Registry, ops: seq<Op>, id: DeviceId)
    requires Inv(r) && (id in r.devices ==> r.devices[id].markedStale)
    requires forall i | 0 <= i < |ops| :: ops[i].Announce? ==> ops[i].device.id != id
    ensures var r' := Continue(r, ops);
            && r.emitted <= r'.emitted
            && (forall i | |r.emitted| <= i < |r'.emitted| ::
                  r'.emitted[i].DeviceExpired? ==> r'.emitted[i].device.id != id)
            && (id in r'.devices ==> r'.devices[id].markedStale)
  {
    if ops != [] {
      ExpiresOnce(r, ops[..|ops| - 1], id);
      ContinueKeeps(r, ops[..|ops| - 1]);
      var before := Continue(r, ops[..|ops| - 1]);
      assert forall d | d in before.devices :: EntryOk(d, before.devices[d]);
    }
  }

  // ----- Pruning everything -----

  function ExpireAll(r: Registry, order: seq<DeviceId>, now: Instant): Registry {
    if order == [] then r
    else Expire(ExpireAll(r, order[..|order| - 1], now), order[|order| - 1], now)
  }

  function Pruned(entry: RegistryEntry, timeout: nat, now: Instant): RegistryEntry {
    if HasGoneStale(entry, timeout, now) then MarkStale(entry) else entry
  }

  lemma {:induction false} ExpireAllPrunes(r: Registry, order: seq<DeviceId>, now: Instant)
    ensures var r' := ExpireAll(r, order, now);
            && r'.devices.Keys == r.devices.Keys && r'.staleTimeout == r.staleTimeout
            && forall id | id in r.devices ::
                 r'.devices[id] == if id in order then Pruned(r.devices[id], r.staleTimeout, now) else r.devices[id]
  {
    if order != [] {
      var init, last := order[..|order| - 1], order[|order| - 1];
      ExpireAllPrunes(r, init, now);
      assert order == init + [last];
    }
  }

  // ----- The object -----

  class DeviceRegistry {
    var devices: map<DeviceId, RegistryEntry>
    const staleTimeout: nat
    ghost var emitted: seq<DiscoveryEvent>   // every event handed out so far

    ghost function View(): Registry
      reads this
    {
      Registry(devices, staleTimeout, emitted)
    }

    constructor (staleTimeout: nat)
      ensures View() == Run(staleTimeout, [])
    {
      this.devices, this.staleTimeout, this.emitted := map[], staleTimeout, [];
    }

    method Upsert(announced: DiscoveredDevice, now: Instant, unixMs: nat) returns (event: Option<DiscoveryEvent>)
      modifies this
      ensures View() == UpsertDevice(old(View()), announced, now, unixMs)
      ensures emitted == if event.Some? then old(emitted) + [event.value] else old(emitted)
    {
      var device := announced.(lastSeenUnixMs := unixMs);
      if device.id in devices {
        var entry := devices[device.id];
        var merged := Merge(entry.device, device);
        var changed := entry.device.(lastSeenUnixMs := 0) != merged.(lastSeenUnixMs := 0);
        devices := devices[device.id := RegistryEntry(merged, now, false, device, entry.heard + [device.endpoint])];
        event := if changed then Some(DeviceUpdated(merged)) else None;
      } else {
        devices := devices[device.id := RegistryEntry(device, now, false, device, [device.endpoint])];
        event := Some(DeviceDiscovered(device));
      }
      if event.Some? { emitted := emitted + [event.value]; }
    }

    method MarkRemovedByFullname(fullname: string) returns (event: Option<DiscoveryEvent>)
      modifies this
      ensures event.None? <==> forall id | id in old(devices) :: !IsNamed(old(View()), id, fullname)
      ensures event.None? ==> View() == old(View())
      ensures event.Some? ==>
                && event.value.DeviceRemoved?
                && IsNamed(old(View()), event.value.deviceId, fullname)
                && View() == RemoveNamed(old(View()), fullname, event.value.deviceId)
                && emitted == old(emitted) + [event.value]
    {
      if id :| id in devices && devices[id].device.serviceFullname == fullname {
        devices := devices - {id};
        event := Some(DeviceRemoved(id, fullname));
        emitted := emitted + [event.value];
      } else {
        event := None;
      }
    }

    /** Visits the entries in the table's own order, each once. */
    method PruneStale(now: Instant) returns (events: seq<DiscoveryEvent>, ghost order: seq<DeviceId>)
      modifies this
      ensures View() == ExpireAll(old(View()), order, now)
      ensures emitted == old(emitted) + events
      ensures devices == map id | id in old(devices) :: Pruned(old(devices)[id], staleTimeout, now)
    {
      var left := devices.Keys;
      events, order := [], [];
      while left != {}
        invariant left <= old(devices).Keys && devices.Keys == old(devices).Keys
        invariant forall id :: id in order <==> id in old(devices) && id !in left
        invariant View() == ExpireAll(old(View()), order, now)
        invariant emitted == old(emitted) + events
        decreases left
      {
        var id :| id in left;
        assert (order + [id])[..|order|] == order;
        var entry := devices[id];
        if !entry.markedStale && Max(now - entry.lastSeen, 0) >= staleTimeout {
          var stale := MarkStale(entry);
          devices := devices[id := stale];
          events := events + [DeviceExpired(stale.device)];
          emitted := emitted + [DeviceExpired(stale.device)];
        }
        order := order + [id];
        left := left - {id};
      }
      ExpireAllPrunes(old(View()), order, now);
    }
  }
}
