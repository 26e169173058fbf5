/** Endpoint ranking and selection (crates/synchrosonic-discovery/src/lib.rs). */
module Addresses {
  import opened Numbers
  import opened Options

  type DeviceId = string

  type Segments = s: seq<u16> | |s| == 8 witness [0, 0, 0, 0, 0, 0, 0, 0]

  datatype IpAddress = V4(a: byte, b: byte, c: byte, d: byte) | V6(segments: Segments)

  datatype Endpoint = Endpoint(deviceId: DeviceId, address: IpAddress, port: u16)

  predicate IsLoopback(address: IpAddress) {
    match address
    case V4(a, _, _, _) => a == 127
    case V6(segments) => segments == [0, 0, 0, 0, 0, 0, 0, 1]
  }

  predicate IsUnspecified(address: IpAddress) {
    match address
    case V4(a, b, c, d) => a == 0 && b == 0 && c == 0 && d == 0
    case V6(segments) => segments == [0, 0, 0, 0, 0, 0, 0, 0]
  }

  predicate IsMulticast(address: IpAddress) {
    match address
    case V4(a, _, _, _) => 224 <= a <= 239
    case V6(segments) => 0xFF00 <= segments[0]
  }

  predicate IsLinkLocal(address: IpAddress) {
    match address
    case V4(a, b, _, _) => a == 169 && b == 254
    case V6(segments) => 0xFE80 <= segments[0] <= 0xFEBF
  }

  /** RFC 1918 space for IPv4, unique local addresses for IPv6. */
  predicate IsPrivate(address: IpAddress) {
    match address
    case V4(a, b, _, _) => a == 10 || (a == 172 && 16 <= b <= 31) || (a == 192 && b == 168)
    case V6(segments) => 0xFC00 <= segments[0] <= 0xFDFF
  }

  predicate IsLikelyDocker(address: IpAddress) {
    address.V4? && address.a == 172 && 17 <= address.b <= 31
  }

  datatype Rank = Rank(quality: nat, family: nat)

  predicate Above(left: Rank, right: Rank) {
    left.quality > right.quality || (left.quality == right.quality && left.family > right.family)
  }

  function EndpointRank(address: IpAddress): Rank {
    var reserved := IsLoopback(address) || IsUnspecified(address) || IsMulticast(address);
    match address
    case V4(_, _, _, _) =>
      Rank(if reserved then 0 else if IsLikelyDocker(address) then 1 else if IsLinkLocal(address) then 2
           else if IsPrivate(address) then 5 else 4, 1)
    case V6(_) =>
      Rank(if reserved then 0 else if IsLinkLocal(address) then 2 else if IsPrivate(address) then 3 else 4, 0)
  }

  predicate IsRemoteSelectionCandidate(address: IpAddress) {
    && !IsLoopback(address) && !IsUnspecified(address) && !IsMulticast(address)
    && (address.V4? ==> !IsLikelyDocker(address))
  }

  /** The candidate filter and the ranking agree: a candidate is an address of quality at least two. */
  lemma CandidatesRankHigh(address: IpAddress)
    ensures IsRemoteSelectionCandidate(address) <==> EndpointRank(address).quality >= 2
  {
  }

  /** The last of the best-ranked candidates, as `max_by_key` chooses it. */
  function SelectPreferredIp(addresses: seq<IpAddress>): Option<IpAddress> {
    if addresses == [] then None
    else
      var earlier, last := SelectPreferredIp(addresses[..|addresses| - 1]), addresses[|addresses| - 1];
      if !IsRemoteSelectionCandidate(last) then earlier
      else if earlier.Some? && Above(EndpointRank(earlier.value), EndpointRank(last)) then earlier
      else Some(last)
  }

  ghost predicate IsLastBest(addresses: seq<IpAddress>, i: int) {
    && 0 <= i < |addresses| && IsRemoteSelectionCandidate(addresses[i])
    && (forall j | 0 <= j <= i :: !Above(EndpointRank(addresses[j]), EndpointRank(addresses[i])))
    && (forall j | i < j < |addresses| :: Above(EndpointRank(addresses[i]), EndpointRank(addresses[j])))
  }

  /**
   * The selection takes no unusable address, misses no better one, and fails only when every
   * address is loopback, unspecified, multicast or a container bridge.
   */
  lemma {:induction false} PreferredIpIsLastBest(addresses: seq<IpAddress>)
    ensures var chosen := SelectPreferredIp(addresses);
            && (chosen.None? <==> forall a | a in addresses :: !IsRemoteSelectionCandidate(a))
            && (chosen.Some? ==> exists i :: IsLastBest(addresses, i) && addresses[i] == chosen.value)
  {
    if addresses != [] {
      var init, last := addresses[..|addresses| - 1], addresses[|addresses| - 1];
      assert addresses == init + [last];
      PreferredIpIsLastBest(init);
      var earlier, chosen := SelectPreferredIp(init), SelectPreferredIp(addresses);
      if chosen.Some? {
        CandidatesRankHigh(chosen.value);
        CandidatesRankHigh(last);
        if chosen == earlier && Above(EndpointRank(chosen.value), EndpointRank(last)) {
          var i :| IsLastBest(init, i) && init[i] == chosen.value;
          assert IsLastBest(addresses, i);
        } else {
          forall j | 0 <= j < |init| ensures !Above(EndpointRank(init[j]), EndpointRank(last)) {
            CandidatesRankHigh(init[j]);
            if IsRemoteSelectionCandidate(init[j]) {
              var i :| IsLastBest(init, i) && init[i] == earlier.value;
            }
          }
          assert IsLastBest(addresses, |init|);
        }
      }
    }
  }

  // ----- Which address is preferred -----

  /** What an address is for: from the most wanted to the least. */
  datatype AddressKind =
    | PrivateV4 | PublicV4 | GlobalV6 | UniqueLocalV6 | LinkLocalV4 | LinkLocalV6 | Bridge | ReservedV4 | ReservedV6

  function KindOf(address: IpAddress): AddressKind {
    match address
    case V4(a, b, c, d) =>
      if a == 127 || 224 <= a <= 239 || [a, b, c, d] == [0, 0, 0, 0] then ReservedV4
      else if a == 172 && 17 <= b <= 31 then Bridge
      else if a == 169 && b == 254 then LinkLocalV4
      else if a == 10 || (a == 172 && b == 16) || (a == 192 && b == 168) then PrivateV4
      else PublicV4
    case V6(segments) =>
      if segments[..7] == [0, 0, 0, 0, 0, 0, 0] && segments[7] <= 1 then ReservedV6
      else if 0xFF00 <= segments[0] then ReservedV6
      else if 0xFE80 <= segments[0] <= 0xFEBF then LinkLocalV6
      else if 0xFC00 <= segments[0] <= 0xFDFF then UniqueLocalV6
      else GlobalV6
  }

  function Wanted(kind: AddressKind): nat {
    match kind
    case PrivateV4 => 8
    case PublicV4 => 7
    case GlobalV6 => 6
    case UniqueLocalV6 => 5
    case LinkLocalV4 => 4
    case LinkLocalV6 => 3
    case Bridge => 2
    case ReservedV4 => 1
    case ReservedV6 => 0
  }

  lemma LoopbackOrNone(segments: Segments)
    ensures segments[..7] == [0, 0, 0, 0, 0, 0, 0] && segments[7] <= 1
            <==> IsLoopback(V6(segments)) || IsUnspecified(V6(segments))
  {
    assert segments == segments[..7] + [segments[7]];
  }

  /** The ranking is the order of the kinds: an address in a private IPv4 network first, then a public one. */
  lemma RankIsKind(address: IpAddress)
    ensures IsRemoteSelectionCandidate(address) <==> Wanted(KindOf(address)) >= 3
    ensures var rank := EndpointRank(address);
            rank == match KindOf(address)
                    case PrivateV4 => Rank(5, 1)
                    case PublicV4 => Rank(4, 1)
                    case GlobalV6 => Rank(4, 0)
                    case UniqueLocalV6 => Rank(3, 0)
                    case LinkLocalV4 => Rank(2, 1)
                    case LinkLocalV6 => Rank(2, 0)
                    case Bridge => Rank(1, 1)
                    case ReservedV4 => Rank(0, 1)
                    case ReservedV6 => Rank(0, 0)
  {
    if address.V6? { LoopbackOrNone(address.segments); }
  }

  lemma RanksInOrder(one: IpAddress, other: IpAddress)
    ensures Above(EndpointRank(one), EndpointRank(other)) <==> Wanted(KindOf(one)) > Wanted(KindOf(other))
  {
    RankIsKind(one);
    RankIsKind(other);
  }

  /** The selected address is of the most wanted kind on offer, and the last of that kind. */
  lemma {:induction false} MostWantedIsSelected(addresses: seq<IpAddress>)
    ensures var chosen := SelectPreferredIp(addresses);
            && (chosen.None? <==> forall a | a in addresses :: KindOf(a) in {Bridge, ReservedV4, ReservedV6})
            && (chosen.Some? ==>
                  exists i :: 0 <= i < |addresses| && addresses[i] == chosen.value
                              && forall j | 0 <= j < |addresses| ::
                                   if j <= i then Wanted(KindOf(addresses[j])) <= Wanted(KindOf(chosen.value))
                                   else Wanted(KindOf(addresses[j])) < Wanted(KindOf(chosen.value)))
  {
    var chosen := SelectPreferredIp(addresses);
    PreferredIpIsLastBest(addresses);
    forall a | a in addresses
      ensures IsRemoteSelectionCandidate(a) <==> KindOf(a) !in {Bridge, ReservedV4, ReservedV6}
    {
      RankIsKind(a);
    }
    if chosen.Some? {
      var i :| IsLastBest(addresses, i) && addresses[i] == chosen.value;
      forall j | 0 <= j < |addresses|
        ensures if j <= i then Wanted(KindOf(addresses[j])) <= Wanted(KindOf(chosen.value))
                else Wanted(KindOf(addresses[j])) < Wanted(KindOf(chosen.value))
      {
        RanksInOrder(addresses[j], addresses[i]);
        RanksInOrder(addresses[i], addresses[j]);
      }
    }
  }

  // ----- Merging announcements -----

  function PreferredEndpoint(existing: Option<Endpoint>, incoming: Option<Endpoint>): Option<Endpoint> {
    match (existing, incoming)
    case (Some(known), Some(offered)) =>
      if Above(EndpointRank(offered.address), EndpointRank(known.address)) then incoming else existing
    case (Some(_), None) => existing
    case (None, _) => incoming
  }

  /** What merging announcements one after the other leaves. */
  function MergedEndpoint(heard: seq<Option<Endpoint>>): Option<Endpoint> {
    if heard == [] then None
    else PreferredEndpoint(MergedEndpoint(heard[..|heard| - 1]), heard[|heard| - 1])
  }

  function RankOf(endpoint: Endpoint): Rank { EndpointRank(endpoint.address) }

  ghost predicate IsEarliestBest(heard: seq<Option<Endpoint>>, i: int) {
    && 0 <= i < |heard| && heard[i].Some?
    && (forall j | 0 <= j < i && heard[j].Some? :: Above(RankOf(heard[i].value), RankOf(heard[j].value)))
    && (forall j | i <= j < |heard| && heard[j].Some? :: !Above(RankOf(heard[j].value), RankOf(heard[i].value)))
  }

  /** Merging is a fold: it leaves the earliest endpoint of maximal rank, and nothing only if none was announced. */
  lemma {:induction false} MergeKeepsEarliestBest(heard: seq<Option<Endpoint>>)
    ensures var merged := MergedEndpoint(heard);
            && (merged.None? <==> forall h | h in heard :: h.None?)
            && (merged.Some? ==> exists i :: IsEarliestBest(heard, i) && heard[i] == merged)
  {
    if heard != [] {
      var init, last := heard[..|heard| - 1], heard[|heard| - 1];
      assert heard == init + [last];
      MergeKeepsEarliestBest(init);
      var earlier, merged := MergedEndpoint(init), MergedEndpoint(heard);
      if earlier.Some? {
        var i :| IsEarliestBest(init, i) && init[i] == earlier;
        if last.Some? && Above(RankOf(last.value), RankOf(earlier.value)) {
          assert IsEarliestBest(heard, |init|);
        } else {
          assert IsEarliestBest(heard, i);
        }
      } else if last.Some? {
        assert forall j | 0 <= j < |init| :: heard[j] == init[j] && init[j] in init;
        assert IsEarliestBest(heard, |init|);
      }
    }
  }
}

/** Discovered devices and the TXT record they are announced with. */
module Announcements {
  import opened Numbers
  import opened Options
  import opened Addresses

  const DISCOVERY_PROTOCOL_VERSION := 1

  datatype DeviceCapabilities = DeviceCapabilities(
    supportsSender: bool, supportsReceiver: bool, supportsLocalOutput: bool, supportsBluetoothOutput: bool)

  datatype DeviceAvailability = Available | Busy | Unavailable

  datatype DeviceStatus =
    | Discovered | Resolving | ReceiverStarting | ReceiverListening | Reachable | Connecting | Connected
    | NotAvailable | Stale | SelfDevice | IncompatibleVersion

  datatype DiscoveredDevice = DiscoveredDevice(
    id: DeviceId,
    displayName: string,
    appVersion: string,
    protocolVersion: u16,
    capabilities: DeviceCapabilities,
    availability: DeviceAvailability,
    status: DeviceStatus,
    endpoint: Option<Endpoint>,
    serviceFullname: string,
    lastSeenUnixMs: nat)

  predicate IsReceiverConnectable(device: DiscoveredDevice) {
    && device.capabilities.supportsReceiver
    && device.availability == Available
    && device.endpoint.Some?
    && device.status in {Reachable, Connecting, Connected}
  }

  datatype ReceiverState = Idle | Starting | Listening | Down

  function DeriveDeviceStatus(id: DeviceId, localId: DeviceId, version: u16, supportsReceiver: bool,
                              availability: DeviceAvailability, hasEndpoint: bool, state: ReceiverState): DeviceStatus
  {
    if id == localId then SelfDevice
    else if version != DISCOVERY_PROTOCOL_VERSION then IncompatibleVersion
    else if availability == Unavailable then NotAvailable
    else if !supportsReceiver then Discovered
    else
      match (state, hasEndpoint)
      case (Starting, _) => ReceiverStarting
      case (Listening, true) => Reachable
      case (Listening, false) => ReceiverListening
      case (Down, _) => NotAvailable
      case (Idle, true) => Reachable
      case (Idle, false) => Resolving
  }

  // ----- TXT records -----

  type TxtRecord = map<string, string>

  datatype LocalProfile = LocalProfile(
    deviceId: DeviceId, deviceName: string, appVersion: string,
    capabilities: DeviceCapabilities, availability: DeviceAvailability, port: u16)

  datatype ResolvedService = ResolvedService(fullname: string, txt: TxtRecord, addresses: seq<IpAddress>, port: u16)

  function BoolText(value: bool): string { if value then "true" else "false" }

  function TxtBool(txt: TxtRecord, key: string): bool {
    key in txt && (txt[key] == "true" || txt[key] == "1" || txt[key] == "yes" || txt[key] == "on")
  }

  function AvailabilityText(availability: DeviceAvailability): string {
    match availability
    case Available => "available"
    case Busy => "busy"
    case Unavailable => "unavailable"
  }

  function ParseAvailability(text: string): DeviceAvailability {
    if text == "available" then Available else if text == "busy" then Busy else Unavailable
  }

  function ReceiverStateText(supportsReceiver: bool, availability: DeviceAvailability): string {
    if !supportsReceiver then "idle" else if availability == Unavailable then "unavailable" else "listening"
  }

  function ParseReceiverState(text: string): ReceiverState {
    if text == "listening" then Listening
    else if text == "starting" then Starting
    else if text == "unavailable" then Down
    else Idle
  }

  predicate AreDigits(text: string) {
    forall i | 0 <= i < |text| :: '0' <= text[i] <= '9'
  }

  function DecimalValue(digits: string): nat
    requires AreDigits(digits)
  {
    if digits == [] then 0
    else
      var value := digits[|digits| - 1] as int - '0' as int;
      DecimalValue(digits[..|digits| - 1]) * 10 + value
  }

  /** `str::parse::<u16>`: an optional plus sign and at least one decimal digit. */
  function ParseU16(text: string): Option<u16> {
    var digits := if text != [] && text[0] == '+' then text[1..] else text;
    if digits == [] || !AreDigits(digits) || DecimalValue(digits) > U16_MAX then None
    else Some(DecimalValue(digits))
  }

  /** How a number is written in a record. */
  function Decimal(n: nat): (text: string)
    ensures text != [] && AreDigits(text)
  {
    var last := [('0' as int + n % 10) as char];
    if n < 10 then last else Decimal(n / 10) + last
  }

  lemma {:induction false} DecimalHasValue(n: nat)
    ensures DecimalValue(Decimal(n)) == n
  {
    var text := Decimal(n);
    if n < 10 {
      assert text[..0] == [] && DecimalValue(text[..0]) == 0;
    } else {
      DecimalHasValue(n / 10);
      assert text[..|text| - 1] == Decimal(n / 10);
    }
  }

  /** A number written down is read back, with a plus sign or without; one that is too large is not. */
  lemma {:induction false} DecimalRoundTrip(n: nat)
    ensures ParseU16(Decimal(n)) == (if n <= U16_MAX then Some(n) else None)
    ensures ParseU16("+" + Decimal(n)) == ParseU16(Decimal(n))
  {
    DecimalHasValue(n);
    assert ("+" + Decimal(n))[1..] == Decimal(n);
  }

  function TxtProperties(profile: LocalProfile): TxtRecord {
    map["app" := "synchrosonic",
        "device_id" := profile.deviceId,
        "device_name" := profile.deviceName,
        "app_version" := profile.appVersion,
        "protocol_version" := "1",
        "sender" := BoolText(profile.capabilities.supportsSender),
        "receiver" := BoolText(profile.capabilities.supportsReceiver),
        "bluetooth" := BoolText(profile.capabilities.supportsBluetoothOutput),
        "local_output" := BoolText(profile.capabilities.supportsLocalOutput),
        "availability" := AvailabilityText(profile.availability),
        "receiver_state" := ReceiverStateText(profile.capabilities.supportsReceiver, profile.availability)]
  }

  function TextOr(txt: TxtRecord, key: string, fallback: string): string {
    if key in txt then txt[key] else fallback
  }

  function NonEmptyOr(text: string, fallback: string): string {
    if text == "" then fallback else text
  }

  function DeviceFromResolved(service: ResolvedService, localId: DeviceId, unixMs: nat): DiscoveredDevice {
    var txt := service.txt;
    var id := NonEmptyOr(TextOr(txt, "device_id", ""), service.fullname);
    var version := ParseU16(TextOr(txt, "protocol_version", ""));
    var supportsReceiver := TxtBool(txt, "receiver");
    var availability := ParseAvailability(TextOr(txt, "availability", "available"));
    var address := if supportsReceiver then SelectPreferredIp(service.addresses) else None;
    var endpoint := if address.Some? then Some(Endpoint(id, address.value, service.port)) else None;
    var versionOrZero := if version.Some? then version.value else 0;
    DiscoveredDevice(
      id,
      NonEmptyOr(TextOr(txt, "device_name", ""), service.fullname),
      TextOr(txt, "app_version", "unknown"),
      versionOrZero,
      DeviceCapabilities(TxtBool(txt, "sender"), supportsReceiver,
                         TxtBool(txt, "local_output"), TxtBool(txt, "bluetooth")),
      availability,
      DeriveDeviceStatus(id, localId, versionOrZero, supportsReceiver, availability, endpoint.Some?,
                         ParseReceiverState(TextOr(txt, "receiver_state", "idle"))),
      endpoint, service.fullname, unixMs)
  }

  lemma KeysAreDistinct()
    ensures "app_version" != "device_name" && "availability" != "local_output" && "bluetooth" != "device_id"
  {
    assert "app_version"[0] == 'a' && "device_name"[0] == 'd';
    assert "availability"[0] == 'a' && "local_output"[0] == 'l';
    assert "bluetooth"[0] == 'b' && "device_id"[0] == 'd';
  }

  lemma OwnVersionParses()
    ensures ParseU16("1") == Some(1)
  {
    assert "1"[..0] == [];
    assert DecimalValue("1"[..0]) == 0;
  }

  lemma BoolRoundTrip(txt: TxtRecord, key: string, value: bool)
    requires key in txt && txt[key] == BoolText(value)
    ensures TxtBool(txt, key) == value
  {
  }

  lemma AvailabilityRoundTrip(availability: DeviceAvailability, supportsReceiver: bool)
    ensures ParseAvailability(AvailabilityText(availability)) == availability
    ensures supportsReceiver ==>
              ParseReceiverState(ReceiverStateText(supportsReceiver, availability))
              == if availability == Unavailable then Down else Listening
  {
  }

  lemma TxtHolds(profile: LocalProfile)
    ensures var txt := TxtProperties(profile);
            && TextOr(txt, "device_id", "") == profile.deviceId
            && TextOr(txt, "device_name", "") == profile.deviceName
            && TextOr(txt, "app_version", "unknown") == profile.appVersion
            && TextOr(txt, "protocol_version", "") == "1"
            && TextOr(txt, "availability", "available") == AvailabilityText(profile.availability)
            && TextOr(txt, "receiver_state", "idle")
               == ReceiverStateText(profile.capabilities.supportsReceiver, profile.availability)
  {
    KeysAreDistinct();
  }

  lemma TxtHoldsCapabilities(profile: LocalProfile)
    ensures var txt := TxtProperties(profile);
            DeviceCapabilities(TxtBool(txt, "sender"), TxtBool(txt, "receiver"),
                               TxtBool(txt, "local_output"), TxtBool(txt, "bluetooth"))
            == profile.capabilities
  {
    KeysAreDistinct();
    var txt, c := TxtProperties(profile), profile.capabilities;
    BoolRoundTrip(txt, "sender", c.supportsSender);
    BoolRoundTrip(txt, "receiver", c.supportsReceiver);
    BoolRoundTrip(txt, "local_output", c.supportsLocalOutput);
    BoolRoundTrip(txt, "bluetooth", c.supportsBluetoothOutput);
  }

  /** An announced device may be connected to exactly when its status says that it is reachable. */
  lemma ResolvedIsConnectable(service: ResolvedService, localId: DeviceId, unixMs: nat)
    ensures var device := DeviceFromResolved(service, localId, unixMs);
            var state := ParseReceiverState(TextOr(service.txt, "receiver_state", "idle"));
            IsReceiverConnectable(device) <==>
              && device.id != localId
              && device.protocolVersion == DISCOVERY_PROTOCOL_VERSION
              && device.capabilities.supportsReceiver
              && device.availability == Available
              && state in {Idle, Listening}
              && exists a :: a in service.addresses && IsRemoteSelectionCandidate(a)
  {
    PreferredIpIsLastBest(service.addresses);
  }

  /** A flag is set by four spellings and by nothing else. */
  lemma FlagsAreSpelled(txt: TxtRecord, key: string)
    ensures TxtBool(txt, key) <==> key in txt && txt[key] in {"true", "1", "yes", "on"}
  {
  }

  /** What a record leaves out: a service without any properties is an unnamed, incompatible device that can nothing. */
  lemma EmptyRecord(service: ResolvedService, localId: DeviceId, unixMs: nat)
    requires service.txt == map[] && service.fullname != localId
    ensures DeviceFromResolved(service, localId, unixMs)
         == DiscoveredDevice(service.fullname, service.fullname, "unknown", 0,
                             DeviceCapabilities(false, false, false, false), Available, IncompatibleVersion, None,
                             service.fullname, unixMs)
  {
    assert ParseU16("") == None;
  }

  /** A resolved device has an endpoint if and only if it receives and has a usable address: the selected one. */
  lemma EndpointExactly(service: ResolvedService, localId: DeviceId, unixMs: nat)
    ensures var device := DeviceFromResolved(service, localId, unixMs);
            && (device.endpoint.Some?
                <==> device.capabilities.supportsReceiver
                     && exists a :: a in service.addresses && IsRemoteSelectionCandidate(a))
            && (device.endpoint.Some? ==>
                  && SelectPreferredIp(service.addresses) == Some(device.endpoint.value.address)
                  && device.endpoint.value.port == service.port && device.endpoint.value.deviceId == device.id)
  {
    PreferredIpIsLastBest(service.addresses);
  }

  /** What the status of a resolved device says about its announcement, in every case. */
  lemma StatusIsTelling(service: ResolvedService, localId: DeviceId, unixMs: nat)
    ensures var device := DeviceFromResolved(service, localId, unixMs);
            var text := TextOr(service.txt, "receiver_state", "idle");
            var foreign := device.id != localId && device.protocolVersion == 1;
            var open := foreign && device.availability != Unavailable && device.capabilities.supportsReceiver;
            && (device.status == SelfDevice <==> device.id == localId)
            && (device.status == IncompatibleVersion <==> device.id != localId && device.protocolVersion != 1)
            && (device.status == NotAvailable
                <==> (foreign && device.availability == Unavailable) || (open && text == "unavailable"))
            && (device.status == Discovered
                <==> foreign && device.availability != Unavailable && !device.capabilities.supportsReceiver)
            && (device.status == ReceiverStarting <==> open && text == "starting")
            && (device.status == ReceiverListening <==> open && text == "listening" && device.endpoint.None?)
            && (device.status == Resolving
                <==> open && text !in {"listening", "starting", "unavailable"} && device.endpoint.None?)
            && (device.status == Reachable
                <==> open && text !in {"starting", "unavailable"} && device.endpoint.Some?)
  {
    assert "listening"[0] == 'l' && "starting"[0] == 's' && "unavailable"[0] == 'u';
  }

  /**
   * Announcement round trip: who resolves a device's own TXT record gets its profile back, and may
   * connect exactly if it is another device that receives, is available and has a usable address.
   */
  lemma {:induction false} AnnouncementRoundTrip(
      profile: LocalProfile, fullname: string, addresses: seq<IpAddress>, localId: DeviceId, unixMs: nat)
    ensures var service := ResolvedService(fullname, TxtProperties(profile), addresses, profile.port);
            var device := DeviceFromResolved(service, localId, unixMs);
            && device.id == NonEmptyOr(profile.deviceId, fullname)
            && device.displayName == NonEmptyOr(profile.deviceName, fullname)
            && device.appVersion == profile.appVersion
            && device.protocolVersion == DISCOVERY_PROTOCOL_VERSION
            && device.capabilities == profile.capabilities
            && device.availability == profile.availability
            && (IsReceiverConnectable(device) <==>
                  && device.id != localId
                  && profile.capabilities.supportsReceiver
                  && profile.availability == Available
                  && exists a :: a in addresses && IsRemoteSelectionCandidate(a))
  {
    var service := ResolvedService(fullname, TxtProperties(profile), addresses, profile.port);
    TxtHolds(profile);
    TxtHoldsCapabilities(profile);
    OwnVersionParses();
    AvailabilityRoundTrip(profile.availability, profile.capabilities.supportsReceiver);
    ResolvedIsConnectable(service, localId, unixMs);
  }
}
