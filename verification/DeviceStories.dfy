/**
 * The registry seen from one device: a story told by the announcements, goodbyes and prunings alone.
 * What the registry holds of a device, and every event it reports, is what the stories say.
 */
module DeviceStories {
  import opened Options
  import opened Addresses
  import opened Announcements
  import opened DeviceRegistries

  /**
   * A known device: when and as what it was announced last, all endpoints it was announced with since
   * it is known, and whether it has expired since the last announcement.
   */
  datatype Story = Story(at: Instant, announced: DiscoveredDevice, heard: seq<Option<Endpoint>>, expired: bool)

  /** Not announced for the timeout. */
  predicate IsOverdue(story: Story, timeout: nat, now: Instant) {
    timeout == 0 || story.at + timeout <= now
  }

  function StoryOf(timeout: nat, ops: seq<Op>, id: DeviceId): Option<Story> {
    if ops == [] then None
    else
      var earlier := StoryOf(timeout, ops[..|ops| - 1], id);
      match ops[|ops| - 1]
      case Announce(device, now, unixMs) =>
        if device.id != id then earlier
        else
          Some(Story(now, device.(lastSeenUnixMs := unixMs),
                     (if earlier.Some? then earlier.value.heard else []) + [device.endpoint], false))
      case Goodbye(fullname, found) =>
        if found == id && earlier.Some? && earlier.value.announced.serviceFullname == fullname then None else earlier
      case ExpireOne(expired, now) =>
        if expired == id && earlier.Some? && IsOverdue(earlier.value, timeout, now)
        then Some(earlier.value.(expired := true)) else earlier
  }

  /** The device as it is shown: as announced last, at its best endpoint, and stale once it has expired. */
  function Shown(story: Story): DiscoveredDevice {
    var device := story.announced.(endpoint := MergedEndpoint(story.heard));
    if story.expired then device.(status := Stale, availability := Unavailable) else device
  }

  /** The events that the stories call for, in order. */
  function Chronicle(timeout: nat, ops: seq<Op>): seq<DiscoveryEvent> {
    if ops == [] then []
    else
      var earlier, last := ops[..|ops| - 1], ops[|ops| - 1];
      Chronicle(timeout, earlier) +
      (match last
       case Announce(device, _, _) =>
         var before, after := StoryOf(timeout, earlier, device.id), StoryOf(timeout, ops, device.id).value;
         if before.None? then [DeviceDiscovered(Shown(after))]
         else if Undated(Shown(before.value)) == Undated(Shown(after)) then []
         else [DeviceUpdated(Shown(after))]
       case Goodbye(fullname, found) =>
         var before := StoryOf(timeout, earlier, found);
         if before.Some? && before.value.announced.serviceFullname == fullname then [DeviceRemoved(found, fullname)]
         else []
       case ExpireOne(id, now) =>
         var before := StoryOf(timeout, earlier, id);
         if before.Some? && !before.value.expired && IsOverdue(before.value, timeout, now)
         then [DeviceExpired(Shown(before.value.(expired := true)))] else [])
  }

  /** What the registry holds of the device is its story. */
  ghost predicate Tells(r: Registry, id: DeviceId, story: Option<Story>) {
    && (id in r.devices <==> story.Some?)
    && (id in r.devices ==>
          && r.devices[id].lastSeen == story.value.at
          && r.devices[id].markedStale == story.value.expired
          && r.devices[id].device == Shown(story.value))
  }

  lemma StepTells(timeout: nat, ops: seq<Op>, r: Registry, op: Op, id: DeviceId)
    requires r.staleTimeout == timeout && Tells(r, id, StoryOf(timeout, ops, id))
    ensures Tells(Step(r, op), id, StoryOf(timeout, ops + [op], id))
  {
    var story := StoryOf(timeout, ops, id);
    assert (ops + [op])[..|ops|] == ops;
    if op.Announce? && op.device.id == id {
      if story.Some? {
        NextHeard(story.value.heard, op.device.endpoint);
      } else {
        FirstHeard(op.device.endpoint);
        assert [] + [op.device.endpoint] == [op.device.endpoint];
      }
    }
  }

  /** The registry holds of every device what its story says, in every run. */
  lemma {:induction false} RegistryTellsStories(timeout: nat, ops: seq<Op>, id: DeviceId)
    ensures Tells(Run(timeout, ops), id, StoryOf(timeout, ops, id)) && Run(timeout, ops).staleTimeout == timeout
  {
    if ops != [] {
      var earlier, last := ops[..|ops| - 1], ops[|ops| - 1];
      RegistryTellsStories(timeout, earlier, id);
      StepTells(timeout, earlier, Run(timeout, earlier), last, id);
      assert ops == earlier + [last];
    }
  }

  /** The device an operation is about. */
  function Subject(op: Op): DeviceId {
    match op
    case Announce(device, _, _) => device.id
    case Goodbye(_, found) => found
    case ExpireOne(id, _) => id
  }

  lemma StepReports(timeout: nat, ops: seq<Op>, r: Registry, op: Op)
    requires r.staleTimeout == timeout && r.emitted == Chronicle(timeout, ops)
    requires Tells(r, Subject(op), StoryOf(timeout, ops, Subject(op)))
    ensures Step(r, op).emitted == Chronicle(timeout, ops + [op])
  {
    StepTells(timeout, ops, r, op, Subject(op));
    assert (ops + [op])[..|ops|] == ops;
  }

  /** The registry reports what the stories call for: each discovery, material update, goodbye and expiry, once. */
  lemma {:induction false} RegistryReportsChronicle(timeout: nat, ops: seq<Op>)
    ensures Run(timeout, ops).emitted == Chronicle(timeout, ops)
  {
    if ops != [] {
      var earlier, last := ops[..|ops| - 1], ops[|ops| - 1];
      RegistryReportsChronicle(timeout, earlier);
      RegistryTellsStories(timeout, earlier, Subject(last));
      StepReports(timeout, earlier, Run(timeout, earlier), last);
      assert ops == earlier + [last];
    }
  }

  /**
   * A device expires exactly when it has not been announced for the timeout, and has not expired
   * since it was announced last; anything announced in time keeps it.
   */
  lemma {:induction false} ExpiresExactly(timeout: nat, ops: seq<Op>, id: DeviceId, now: Instant)
    ensures var r, r' := Run(timeout, ops), Run(timeout, ops + [ExpireOne(id, now)]);
            var story := StoryOf(timeout, ops, id);
            if story.Some? && !story.value.expired && IsOverdue(story.value, timeout, now) then
              && r'.emitted == r.emitted + [DeviceExpired(Shown(story.value.(expired := true)))]
              && Shown(story.value.(expired := true)).id == id
            else r' == r
  {
    assert (ops + [ExpireOne(id, now)])[..|ops|] == ops;
    RegistryTellsStories(timeout, ops, id);
    RegistryReportsChronicle(timeout, ops);
    RegistryReportsChronicle(timeout, ops + [ExpireOne(id, now)]);
    StoryIsOf(timeout, ops, id);
  }

  lemma {:induction false} StoryIsOf(timeout: nat, ops: seq<Op>, id: DeviceId)
    ensures StoryOf(timeout, ops, id).Some? ==> StoryOf(timeout, ops, id).value.announced.id == id
  {
    if ops != [] { StoryIsOf(timeout, ops[..|ops| - 1], id); }
  }

  /** Pruning is a run of expiries, so all of this is true of it. */
  lemma {:induction false} PruningIsRun(timeout: nat, ops: seq<Op>, order: seq<DeviceId>, now: Instant)
    ensures ExpireAll(Run(timeout, ops), order, now)
         == Run(timeout, ops + seq(|order|, i requires 0 <= i < |order| => ExpireOne(order[i], now)))
  {
    var expiries := seq(|order|, i requires 0 <= i < |order| => ExpireOne(order[i], now));
    if order == [] {
      assert ops + expiries == ops;
    } else {
      var init := order[..|order| - 1];
      PruningIsRun(timeout, ops, init, now);
      var earlier := seq(|init|, i requires 0 <= i < |init| => ExpireOne(init[i], now));
      assert ops + expiries == (ops + earlier) + [ExpireOne(order[|order| - 1], now)];
      assert (ops + expiries)[..|ops + expiries| - 1] == ops + earlier;
    }
  }
}
