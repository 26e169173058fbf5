/**
 * The application's own view of the devices, rebuilt from the registry's events
 * (crates/synchrosonic-core/src/state.rs), and its agreement with the registry.
 */
module DiscoveryViews {
  import opened Options
  import opened Subsequences
  import opened Addresses
  import opened Announcements
  import opened DeviceRegistries

  datatype DeviceState = DeviceState(id: DeviceId, displayName: string, status: DeviceStatus)

  function StateOf(device: DiscoveredDevice): DeviceState {
    DeviceState(device.id, device.displayName, device.status)
  }

  datatype AppView = AppView(discovered: seq<DiscoveredDevice>, devices: seq<DeviceState>, selected: Option<DeviceId>)

  const EMPTY_VIEW := AppView([], [], None)

  // ----- Lists with a key -----

  /** The first position with the given key, or the length if there is none. */
  function FirstIndex<T>(s: seq<T>, key: T -> DeviceId, id: DeviceId): (i: nat)
    ensures i <= |s|
    ensures forall j | 0 <= j < i :: key(s[j]) != id
    ensures i < |s| ==> key(s[i]) == id
  {
    if s == [] then 0
    else if key(s[0]) == id then 0
    else
      var i := FirstIndex(s[1..], key, id);
      assert forall j | 1 <= j < i + 1 :: s[j] == s[1..][j - 1];
      i + 1
  }

  function Put<T>(s: seq<T>, key: T -> DeviceId, x: T): seq<T> {
    var i := FirstIndex(s, key, key(x));
    if i < |s| then s[i := x] else s + [x]
  }

  function Retain<T>(s: seq<T>, key: T -> DeviceId, id: DeviceId): seq<T> {
    if s == [] then []
    else
      var kept, last := Retain(s[..|s| - 1], key, id), s[|s| - 1];
      if key(last) == id then kept else kept + [last]
  }

  ghost predicate Unique<T>(s: seq<T>, key: T -> DeviceId) {
    forall i, j :: 0 <= i < j < |s| ==> key(s[i]) != key(s[j])
  }

  lemma {:induction false} PutContents<T>(s: seq<T>, key: T -> DeviceId, x: T)
    requires Unique(s, key)
    ensures Unique(Put(s, key, x), key)
    ensures forall y :: y in Put(s, key, x) <==> y == x || (y in s && key(y) != key(x))
  {
    var i, s' := FirstIndex(s, key, key(x)), Put(s, key, x);
    assert s'[i] == x;
    forall y ensures y in s' <==> y == x || (y in s && key(y) != key(x)) {
      if y in s && key(y) != key(x) {
        var j :| 0 <= j < |s| && s[j] == y;
        assert s'[j] == y;
      }
      if y in s' && y != x {
        var j :| 0 <= j < |s'| && s'[j] == y;
        assert s[j] == y;
      }
    }
  }

  lemma {:induction false} RetainContents<T>(s: seq<T>, key: T -> DeviceId, id: DeviceId)
    requires Unique(s, key)
    ensures Unique(Retain(s, key, id), key)
    ensures forall y | y in Retain(s, key, id) :: y in s && key(y) != id
    ensures forall y | y in s && key(y) != id :: y in Retain(s, key, id)
  {
    if s != [] {
      var init, last := s[..|s| - 1], s[|s| - 1];
      assert s == init + [last];
      RetainContents(init, key, id);
      var kept := Retain(init, key, id);
      assert forall y | y in kept :: y in init;
      forall i | 0 <= i < |kept| ensures key(kept[i]) != key(last) {
        assert kept[i] in kept;
        var j :| 0 <= j < |init| && init[j] == kept[i];
      }
    }
  }

  // ----- The two lists go together -----

  const deviceId: DiscoveredDevice -> DeviceId := (d: DiscoveredDevice) => d.id
  const stateId: DeviceState -> DeviceId := (d: DeviceState) => d.id

  lemma {:induction false} FirstIndexProjects(s: seq<DiscoveredDevice>, id: DeviceId)
    ensures FirstIndex(MapSeq(StateOf, s), stateId, id) == FirstIndex(s, deviceId, id)
  {
    if s != [] && s[0].id != id {
      assert MapSeq(StateOf, s)[1..] == MapSeq(StateOf, s[1..]);
      FirstIndexProjects(s[1..], id);
    }
  }

  lemma {:induction false} PutProjects(s: seq<DiscoveredDevice>, device: DiscoveredDevice)
    ensures MapSeq(StateOf, Put(s, deviceId, device)) == Put(MapSeq(StateOf, s), stateId, StateOf(device))
  {
    FirstIndexProjects(s, device.id);
  }

  lemma {:induction false} RetainProjects(s: seq<DiscoveredDevice>, id: DeviceId)
    ensures MapSeq(StateOf, Retain(s, deviceId, id)) == Retain(MapSeq(StateOf, s), stateId, id)
  {
    if s != [] {
      var init, last := s[..|s| - 1], s[|s| - 1];
      RetainProjects(init, id);
      assert MapSeq(StateOf, s)[..|s| - 1] == MapSeq(StateOf, init);
      var kept := Retain(init, deviceId, id);
      assert MapSeq(StateOf, kept + [last]) == MapSeq(StateOf, kept) + [StateOf(last)];
    }
  }

  // ----- Events -----

  predicate HasConnectable(discovered: seq<DiscoveredDevice>, id: DeviceId) {
    exists d :: d in discovered && d.id == id && IsReceiverConnectable(d)
  }

  function FirstConnectable(discovered: seq<DiscoveredDevice>): (r: Option<DeviceId>)
    ensures r.None? <==> forall d | d in discovered :: !IsReceiverConnectable(d)
    ensures r.Some? ==> HasConnectable(discovered, r.value)
  {
    if discovered == [] then None
    else if IsReceiverConnectable(discovered[0]) then assert discovered[0] in discovered; Some(discovered[0].id)
    else FirstConnectable(discovered[1..])
  }

  /** A selection that is no longer connectable falls to the first device that is. */
  function Reconcile(v: AppView): AppView {
    if v.selected.Some? && HasConnectable(v.discovered, v.selected.value) then v
    else v.(selected := FirstConnectable(v.discovered))
  }

  function UpsertDiscovered(v: AppView, device: DiscoveredDevice): AppView {
    v.(discovered := Put(v.discovered, deviceId, device), devices := Put(v.devices, stateId, StateOf(device)))
  }

  function ApplyEvent(v: AppView, event: DiscoveryEvent): AppView {
    match event
    case DeviceRemoved(id, _) =>
      Reconcile(v.(discovered := Retain(v.discovered, deviceId, id), devices := Retain(v.devices, stateId, id)))
    case _ => Reconcile(UpsertDiscovered(v, event.device))
  }

  /** The device list an event leaves. */
  function ListAfter(discovered: seq<DiscoveredDevice>, event: DiscoveryEvent): seq<DiscoveredDevice> {
    match event
    case DeviceRemoved(id, _) => Retain(discovered, deviceId, id)
    case _ => Put(discovered, deviceId, event.device)
  }

  function ApplySnapshot(v: AppView, listed: seq<DiscoveredDevice>): AppView {
    Reconcile(v.(discovered := listed, devices := MapSeq(StateOf, listed)))
  }

  /** What the user and the registry do to the view. */
  datatype Action = Apply(event: DiscoveryEvent) | Select(id: DeviceId)

  function Act(v: AppView, action: Action): AppView {
    match action
    case Apply(event) => ApplyEvent(v, event)
    case Select(id) => if HasConnectable(v.discovered, id) then v.(selected := Some(id)) else v
  }

  function ActAll(v: AppView, actions: seq<Action>): AppView {
    if actions == [] then v else Act(ActAll(v, actions[..|actions| - 1]), actions[|actions| - 1])
  }

  function Play(actions: seq<Action>): AppView { ActAll(EMPTY_VIEW, actions) }

  function EventsOf(actions: seq<Action>): seq<DiscoveryEvent> {
    if actions == [] then []
    else
      var earlier, last := EventsOf(actions[..|actions| - 1]), actions[|actions| - 1];
      if last.Apply? then earlier + [last.event] else earlier
  }

  function Replay(events: seq<DiscoveryEvent>): AppView {
    if events == [] then EMPTY_VIEW
    else ApplyEvent(Replay(events[..|events| - 1]), events[|events| - 1])
  }

  // ----- Agreement -----

  /** The list holds exactly the registry's devices, each once, up to the time it was last seen. */
  ghost predicate Agrees(discovered: seq<DiscoveredDevice>, registry: map<DeviceId, RegistryEntry>) {
    && Unique(discovered, deviceId)
    && (forall d | d in discovered :: d.id in registry && Undated(d) == Undated(registry[d.id].device))
    && (forall id | id in registry :: exists d :: d in discovered && d.id == id)
  }

  /** A selected receiver can be connected to, and none is selected only when there is none. */
  ghost predicate SelectionOk(v: AppView) {
    match v.selected
    case None => forall d | d in v.discovered :: !IsReceiverConnectable(d)
    case Some(id) => HasConnectable(v.discovered, id)
  }

  lemma {:induction false} AgreesUpTo(
      discovered: seq<DiscoveredDevice>, left: map<DeviceId, RegistryEntry>, right: map<DeviceId, RegistryEntry>)
    requires Agrees(discovered, left) && SameMaterially(left, right)
    ensures Agrees(discovered, right)
  {
    forall id | id in right ensures exists d :: d in discovered && d.id == id { assert id in left.Keys; }
    forall d | d in discovered ensures d.id in right { assert d.id in left.Keys; }
  }

  lemma {:induction false} AgreesPut(
      discovered: seq<DiscoveredDevice>, registry: map<DeviceId, RegistryEntry>, id: DeviceId, entry: RegistryEntry)
    requires Agrees(discovered, registry) && entry.device.id == id
    ensures Agrees(Put(discovered, deviceId, entry.device), registry[id := entry])
  {
    var put, registry' := Put(discovered, deviceId, entry.device), registry[id := entry];
    PutContents(discovered, deviceId, entry.device);
    forall other | other in registry' ensures exists d :: d in put && d.id == other {
      if other == id {
        assert entry.device in put;
      } else {
        var d :| d in discovered && d.id == other;
        assert d in put;
      }
    }
  }

  lemma {:induction false} AgreesRetain(
      discovered: seq<DiscoveredDevice>, registry: map<DeviceId, RegistryEntry>, id: DeviceId)
    requires Agrees(discovered, registry)
    ensures Agrees(Retain(discovered, deviceId, id), registry - {id})
  {
    var kept := Retain(discovered, deviceId, id);
    RetainContents(discovered, deviceId, id);
    forall other | other in registry - {id} ensures exists d :: d in kept && d.id == other {
      var d :| d in discovered && d.id == other;
      assert d in kept;
    }
  }

  lemma {:induction false} AnnounceAgrees(
      r: Registry, device: DiscoveredDevice, now: Instant, unixMs: nat, discovered: seq<DiscoveredDevice>)
    requires Agrees(discovered, r.devices)
    ensures var r' := UpsertDevice(r, device, now, unixMs);
            r'.emitted != r.emitted ==>
              && |r'.emitted| == |r.emitted| + 1
              && Agrees(ListAfter(discovered, r'.emitted[|r.emitted|]), r'.devices)
  {
    AgreesPut(discovered, r.devices, device.id, UpsertDevice(r, device, now, unixMs).devices[device.id]);
  }

  lemma {:induction false} GoodbyeAgrees(
      r: Registry, fullname: string, found: DeviceId, discovered: seq<DiscoveredDevice>)
    requires Agrees(discovered, r.devices)
    ensures var r' := RemoveNamed(r, fullname, found);
            r'.emitted != r.emitted ==>
              && |r'.emitted| == |r.emitted| + 1
              && Agrees(ListAfter(discovered, r'.emitted[|r.emitted|]), r'.devices)
  {
    AgreesRetain(discovered, r.devices, found);
  }

  lemma {:induction false} ExpiryAgrees(r: Registry, id: DeviceId, now: Instant, discovered: seq<DiscoveredDevice>)
    requires Inv(r) && Agrees(discovered, r.devices)
    ensures var r' := Expire(r, id, now);
            r'.emitted != r.emitted ==>
              && |r'.emitted| == |r.emitted| + 1
              && Agrees(ListAfter(discovered, r'.emitted[|r.emitted|]), r'.devices)
  {
    if id in r.devices {
      assert EntryOk(id, r.devices[id]);
      AgreesPut(discovered, r.devices, id, MarkStale(r.devices[id]));
    }
  }

  /** The list follows the registry through one step, if it is given the event when there is one. */
  lemma {:induction false} StepAgrees(r: Registry, op: Op, discovered: seq<DiscoveredDevice>)
    requires Inv(r) && Agrees(discovered, r.devices)
    ensures var r' := Step(r, op);
            && (r'.emitted == r.emitted ==> Agrees(discovered, r'.devices))
            && (r'.emitted != r.emitted ==>
                  && |r'.emitted| == |r.emitted| + 1
                  && Agrees(ListAfter(discovered, r'.emitted[|r.emitted|]), r'.devices))
  {
    ReportsExactlyChanges(r, op);
    if Step(r, op).emitted == r.emitted {
      AgreesUpTo(discovered, r.devices, Step(r, op).devices);
    } else {
      match op
      case Announce(device, now, unixMs) => AnnounceAgrees(r, device, now, unixMs, discovered);
      case Goodbye(fullname, found) => GoodbyeAgrees(r, fullname, found, discovered);
      case ExpireOne(id, now) => ExpiryAgrees(r, id, now, discovered);
    }
  }

  lemma StepExtends(r: Registry, op: Op)
    ensures r.emitted <= Step(r, op).emitted
  {
  }

  lemma EventsGiveLists(v: AppView, event: DiscoveryEvent)
    ensures ApplyEvent(v, event).discovered == ListAfter(v.discovered, event)
  {
  }

  lemma {:induction false} ReplayAgrees(timeout: nat, ops: seq<Op>)
    ensures Agrees(Replay(Run(timeout, ops).emitted).discovered, Run(timeout, ops).devices)
  {
    if ops == [] {
    } else {
      var earlier, op := Run(timeout, ops[..|ops| - 1]), ops[|ops| - 1];
      ReplayAgrees(timeout, ops[..|ops| - 1]);
      RunKeeps(timeout, ops[..|ops| - 1]);
      StepAgrees(earlier, op, Replay(earlier.emitted).discovered);
      var later := Run(timeout, ops);
      assert later == Step(earlier, op);
      StepExtends(earlier, op);
      if later.emitted != earlier.emitted {
        EventsGiveLists(Replay(earlier.emitted), later.emitted[|earlier.emitted|]);
        assert later.emitted[..|earlier.emitted|] == earlier.emitted;
      }
    }
  }

  /** What the user selects in between has no influence on the two lists. */
  lemma {:induction false} ListsComeFromEvents(actions: seq<Action>)
    ensures Play(actions).discovered == Replay(EventsOf(actions)).discovered
    ensures Play(actions).devices == Replay(EventsOf(actions)).devices
  {
    if actions != [] {
      var earlier, last := actions[..|actions| - 1], actions[|actions| - 1];
      ListsComeFromEvents(earlier);
      if last.Apply? {
        assert EventsOf(actions)[..|EventsOf(earlier)|] == EventsOf(earlier);
      }
    }
  }

  lemma ReconciledIsOk(v: AppView)
    ensures SelectionOk(Reconcile(v)) && Reconcile(v).discovered == v.discovered && Reconcile(v).devices == v.devices
  {
  }

  lemma EventKeepsProjection(v: AppView, event: DiscoveryEvent)
    requires v.devices == MapSeq(StateOf, v.discovered)
    ensures var v' := ApplyEvent(v, event);
            v'.devices == MapSeq(StateOf, v'.discovered) && SelectionOk(v')
  {
    match event {
      case DeviceRemoved(id, _) =>
        RetainProjects(v.discovered, id);
        ReconciledIsOk(v.(discovered := Retain(v.discovered, deviceId, id), devices := Retain(v.devices, stateId, id)));
      case _ =>
        PutProjects(v.discovered, event.device);
        ReconciledIsOk(UpsertDiscovered(v, event.device));
    }
  }

  /** In every state of the view: one list is the projection of the other, and the selection makes sense. */
  lemma {:induction false} ViewsAreConsistent(actions: seq<Action>)
    ensures var v := Play(actions);
            && v.devices == MapSeq(StateOf, v.discovered)
            && SelectionOk(v)
  {
    if actions != [] {
      var v, last := Play(actions[..|actions| - 1]), actions[|actions| - 1];
      ViewsAreConsistent(actions[..|actions| - 1]);
      match last
      case Select(_) =>
      case Apply(event) => EventKeepsProjection(v, event);
    }
  }

  /**
   * Event replay agreement: whatever was announced, removed and expired, and whatever the user
   * selected meanwhile, a view that was given the registry's events in order holds exactly the
   * registry's devices, up to the time they were last seen.
   */
  lemma {:induction false} EventReplayAgrees(timeout: nat, ops: seq<Op>, actions: seq<Action>)
    requires EventsOf(actions) == Run(timeout, ops).emitted
    ensures var v, r := Play(actions), Run(timeout, ops);
            && Agrees(v.discovered, r.devices)
            && v.devices == MapSeq(StateOf, v.discovered)
            && (v.selected.None? <==> forall id | id in r.devices :: !IsReceiverConnectable(r.devices[id].device))
            && (v.selected.Some? ==>
                  v.selected.value in r.devices && IsReceiverConnectable(r.devices[v.selected.value].device))
  {
    ReplayAgrees(timeout, ops);
    ListsComeFromEvents(actions);
    ViewsAreConsistent(actions);
    SelectionFollowsRegistry(Play(actions), Run(timeout, ops).devices);
  }

  lemma SelectionFollowsRegistry(v: AppView, registry: map<DeviceId, RegistryEntry>)
    requires Agrees(v.discovered, registry) && SelectionOk(v)
    ensures v.selected.None? <==> forall id | id in registry :: !IsReceiverConnectable(registry[id].device)
    ensures v.selected.Some? ==>
              v.selected.value in registry && IsReceiverConnectable(registry[v.selected.value].device)
  {
    forall d | d in v.discovered ensures IsReceiverConnectable(d) <==> IsReceiverConnectable(registry[d.id].device) {
      assert IsReceiverConnectable(Undated(d)) <==> IsReceiverConnectable(d);
      assert IsReceiverConnectable(Undated(registry[d.id].device)) <==> IsReceiverConnectable(registry[d.id].device);
    }
  }

  /** The selected receiver stays selected for as long as it stays connectable, unless the user chooses another. */
  lemma {:induction false} SelectionIsSticky(v: AppView, actions: seq<Action>, id: DeviceId)
    requires v.selected == Some(id)
    requires forall k | 0 <= k <= |actions| :: HasConnectable(ActAll(v, actions[..k]).discovered, id)
    requires forall i | 0 <= i < |actions| :: actions[i].Select? ==> actions[i].id == id
    ensures ActAll(v, actions).selected == Some(id)
  {
    if actions != [] {
      var earlier := actions[..|actions| - 1];
      assert forall k | 0 <= k <= |earlier| :: earlier[..k] == actions[..k];
      SelectionIsSticky(v, earlier, id);
      assert actions[..|actions|] == actions;
      assert HasConnectable(ActAll(v, actions[..|actions|]).discovered, id);
    }
  }

  /** The user's choice is taken if it can be connected to, and otherwise nothing changes. */
  lemma {:induction false} ChoiceIsTaken(actions: seq<Action>, id: DeviceId)
    ensures var v, v' := Play(actions), Play(actions + [Select(id)]);
            && v'.discovered == v.discovered && v'.devices == v.devices
            && v'.selected == if exists d :: d in v.discovered && d.id == id && IsReceiverConnectable(d)
                              then Some(id) else v.selected
  {
    assert (actions + [Select(id)])[..|actions|] == actions;
  }

  lemma {:induction false} FirstIsChosen(discovered: seq<DiscoveredDevice>, i: nat)
    requires i < |discovered| && IsReceiverConnectable(discovered[i])
    requires forall j | 0 <= j < i :: !IsReceiverConnectable(discovered[j])
    ensures FirstConnectable(discovered) == Some(discovered[i].id)
  {
    if i > 0 { FirstIsChosen(discovered[1..], i - 1); }
  }

  /** A selection that is lost falls to the device that has been in the list for longest. */
  lemma {:induction false} LostSelectionFallsToFirst(actions: seq<Action>, event: DiscoveryEvent, i: nat)
    requires var v' := Play(actions + [Apply(event)]);
             && i < |v'.discovered| && IsReceiverConnectable(v'.discovered[i])
             && forall j | 0 <= j < i :: !IsReceiverConnectable(v'.discovered[j])
    ensures var v, v' := Play(actions), Play(actions + [Apply(event)]);
            v'.selected == if v.selected.Some? && HasConnectable(v'.discovered, v.selected.value) then v.selected
                           else Some(v'.discovered[i].id)
  {
    assert (actions + [Apply(event)])[..|actions|] == actions;
    FirstIsChosen(Play(actions + [Apply(event)]).discovered, i);
  }

  /** The ids of a list, in its order. */
  function Ids(discovered: seq<DiscoveredDevice>): (ids: seq<DeviceId>) { MapSeq(deviceId, discovered) }

  lemma {:induction false} RetainKeepsOrder(discovered: seq<DiscoveredDevice>, id: DeviceId)
    ensures Subsequence(Retain(discovered, deviceId, id), discovered)
  {
    if discovered != [] {
      var init, last := discovered[..|discovered| - 1], discovered[|discovered| - 1];
      RetainKeepsOrder(init, id);
      assert discovered == init + [last];
      if last.id == id {
        ExtendRight(Retain(init, deviceId, id), init, last);
      } else {
        ExtendBoth(Retain(init, deviceId, id), init, last);
      }
    }
  }

  /** Events never reorder the list: news of a known device stays in its place, a new one comes last. */
  lemma {:induction false} ListKeepsOrder(actions: seq<Action>, event: DiscoveryEvent)
    ensures var before, after := Play(actions).discovered, Play(actions + [Apply(event)]).discovered;
            if event.DeviceRemoved? then Subsequence(after, before)
            else Ids(after) == if event.device.id in Ids(before) then Ids(before) else Ids(before) + [event.device.id]
  {
    assert (actions + [Apply(event)])[..|actions|] == actions;
    var before := Play(actions).discovered;
    EventsGiveLists(Play(actions), event);
    if event.DeviceRemoved? {
      RetainKeepsOrder(before, event.deviceId);
    } else {
      var at := FirstIndex(before, deviceId, event.device.id);
      assert event.device.id in Ids(before) <==> at < |before| by {
        if at < |before| { assert Ids(before)[at] == event.device.id; }
      }
    }
  }

  /** Both lists show the same devices, up to the time they were last seen. */
  ghost predicate SameDevices(left: seq<DiscoveredDevice>, right: seq<DiscoveredDevice>) {
    && (forall d | d in left :: exists e :: e in right && Undated(d) == Undated(e))
    && (forall e | e in right :: exists d :: d in left && Undated(d) == Undated(e))
  }

  lemma {:induction false} AgreeingListsAreSame(
      left: seq<DiscoveredDevice>, right: seq<DiscoveredDevice>, registry: map<DeviceId, RegistryEntry>)
    requires Agrees(left, registry) && Agrees(right, registry)
    ensures SameDevices(left, right)
  {
    forall d | d in left ensures exists e :: e in right && Undated(d) == Undated(e) {
      var e :| e in right && e.id == d.id;
    }
    forall e | e in right ensures exists d :: d in left && Undated(d) == Undated(e) {
      var d :| d in left && d.id == e.id;
    }
  }

  /** What a snapshot lists: every device of the registry once, in any order. */
  ghost predicate Lists(listed: seq<DiscoveredDevice>, registry: map<DeviceId, RegistryEntry>) {
    && Unique(listed, deviceId)
    && (forall d | d in listed :: d.id in registry && d == registry[d.id].device)
    && (forall id | id in registry :: registry[id].device in listed)
  }

  lemma {:induction false} ListingAgrees(listed: seq<DiscoveredDevice>, r: Registry)
    requires Inv(r) && Lists(listed, r.devices)
    ensures Agrees(listed, r.devices)
  {
    forall id | id in r.devices ensures exists d :: d in listed && d.id == id {
      assert EntryOk(id, r.devices[id]);
    }
  }

  /** Loading the registry's snapshot, in any order, shows the same devices as following its events. */
  lemma {:induction false} SnapshotAgreesWithReplay(
      timeout: nat, ops: seq<Op>, v: AppView, listed: seq<DiscoveredDevice>)
    requires Lists(listed, Run(timeout, ops).devices)
    ensures var replayed, loaded := Replay(Run(timeout, ops).emitted), ApplySnapshot(v, listed);
            && SameDevices(loaded.discovered, replayed.discovered)
            && loaded.devices == MapSeq(StateOf, loaded.discovered)
            && SelectionOk(loaded)
  {
    var r := Run(timeout, ops);
    RunKeeps(timeout, ops);
    ReplayAgrees(timeout, ops);
    ListingAgrees(listed, r);
    AgreeingListsAreSame(listed, Replay(r.emitted).discovered, r.devices);
    ReconciledIsOk(v.(discovered := listed, devices := MapSeq(StateOf, listed)));
  }

  // ----- The object -----

  class AppState {
    var discoveredDevices: seq<DiscoveredDevice>
    var devices: seq<DeviceState>
    var selectedReceiverDeviceId: Option<DeviceId>

    function View(): AppView
      reads this
    {
      AppView(discoveredDevices, devices, selectedReceiverDeviceId)
    }

    constructor ()
      ensures View() == EMPTY_VIEW
    {
      discoveredDevices, devices, selectedReceiverDeviceId := [], [], None;
    }

    method SelectReceiverDevice(id: DeviceId) returns (accepted: bool)
      modifies this
      ensures View() == Act(old(View()), Select(id))
      ensures accepted <==> HasConnectable(discoveredDevices, id)
    {
      accepted := exists d :: d in discoveredDevices && d.id == id && IsReceiverConnectable(d);
      if accepted { selectedReceiverDeviceId := Some(id); }
    }

    method ApplyDiscoverySnapshot(listed: seq<DiscoveredDevice>)
      modifies this
      ensures View() == ApplySnapshot(old(View()), listed)
    {
      discoveredDevices := listed;
      devices := MapSeq(StateOf, listed);
      ReconcileSelectedReceiver();
    }

    method ApplyDiscoveryEvent(event: DiscoveryEvent)
      modifies this
      ensures View() == ApplyEvent(old(View()), event)
    {
      match event {
        case DeviceRemoved(id, _) =>
          discoveredDevices := Retain(discoveredDevices, deviceId, id);
          devices := Retain(devices, stateId, id);
        case DeviceDiscovered(device) => UpsertDiscoveredDevice(device);
        case DeviceUpdated(device) => UpsertDiscoveredDevice(device);
        case DeviceExpired(device) => UpsertDiscoveredDevice(device);
      }
      ReconcileSelectedReceiver();
    }

    method UpsertDiscoveredDevice(device: DiscoveredDevice)
      modifies this
      ensures View() == UpsertDiscovered(old(View()), device)
    {
      var at := Find(discoveredDevices, deviceId, device.id);
      discoveredDevices := if at < |discoveredDevices| then discoveredDevices[at := device]
          else discoveredDevices + [device];
      var state := DeviceState(device.id, device.displayName, device.status);
      var stateAt := Find(devices, stateId, state.id);
      devices := if stateAt < |devices| then devices[stateAt := state] else devices + [state];
    }

    method ReconcileSelectedReceiver()
      modifies this`selectedReceiverDeviceId
      ensures View() == Reconcile(old(View()))
    {
      if selectedReceiverDeviceId.Some?
         && exists d :: d in discoveredDevices && d.id == selectedReceiverDeviceId.value && IsReceiverConnectable(d) {
        return;
      }
      selectedReceiverDeviceId := FirstConnectable(discoveredDevices);
    }
  }

  /** The search of the two lists, from the front. */
  method Find<T>(s: seq<T>, key: T -> DeviceId, id: DeviceId) returns (i: nat)
    ensures i == FirstIndex(s, key, id)
  {
    i := 0;
    while i < |s| && key(s[i]) != id
      invariant i <= |s| && forall j | 0 <= j < i :: key(s[j]) != id
    {
      i := i + 1;
    }
    var first := FirstIndex(s, key, id);
    assert !(first < i) && !(i < first);
  }
}
