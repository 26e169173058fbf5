/**
 * The sender's target collection and the steps of its manager loop
 * (crates/synchrosonic-transport/src/sender.rs). Connection attempts run on their own threads:
 * `flights` are the attempts launched and not yet reported, and a report may come for any of
 * them at any time, also after its target was removed or added again.
 */
module SenderTargets {
  import opened Numbers
  import opened Options
  import opened Folds
  import opened LatencyProfiles
  import opened NetworkWriters

  type DeviceId = string
  type Instant = nat

  const MAX_CONNECT_ATTEMPTS := 3

  datatype SessionState = Idle | Connecting | Negotiating | Streaming | Stopping | Error

  datatype Snapshot = Snapshot(state: SessionState, attemptCount: nat, nextRetryAt: Option<Instant>)

  datatype SenderTarget = SenderTarget(receiverId: DeviceId, receiverName: string, endpoint: string)

  /** `offered` stands for the branch: everything that was pushed to its queue. */
  datatype TargetSession = TargetSession(target: SenderTarget, snapshot: Snapshot, offered: seq<FanoutAudioFrame>)

  datatype Entry =
    | Pending(target: SenderTarget, snapshot: Snapshot, nextAttemptAt: Instant, inFlight: bool)
    | Active(session: TargetSession)
    | Failed(snapshot: Snapshot)

  datatype Flight = Flight(target: SenderTarget, attempt: nat)

  /** What starting the capture comes to: the mirror may fail after the capture is already open. */
  datatype CaptureStart = CaptureStarts | CaptureFails | MirrorFails

  datatype Outcome = Connects(capture: CaptureStart) | Fails(retryable: bool)

  /** A captured frame may be refused by some branches, should their queue be closed. */
  datatype CaptureRead = NoFrame | CapturedFrame(frame: FanoutAudioFrame, refused: set<DeviceId>) | CaptureBroken

  datatype Manager = Manager(
    entries: map<DeviceId, Entry>,
    captureOpen: bool,
    flights: seq<Flight>,
    // the observer's record; `since` says at which captured frame a device became active last
    inserted: multiset<DeviceId>,
    launched: multiset<DeviceId>,
    backoffs: seq<nat>,
    captured: seq<FanoutAudioFrame>,
    since: map<DeviceId, nat>)

  const NO_TARGETS := Manager(map[], false, [], multiset{}, multiset{}, [], [], map[])

  function EntrySnapshot(entry: Entry): Snapshot {
    match entry
    case Pending(_, snapshot, _, _) => snapshot
    case Active(session) => session.snapshot
    case Failed(snapshot) => snapshot
  }

  function RetryBackoffMs(attemptCount: nat): nat {
    if attemptCount <= 1 then 500 else if attemptCount == 2 then 1_500 else 3_000
  }

  // ----- Steps -----

  /** A target that is already connecting or streaming is left alone. */
  predicate IsBusy(m: Manager, id: DeviceId) {
    id in m.entries && EntrySnapshot(m.entries[id]).state in {Connecting, Negotiating, Streaming}
  }

  function QueueConnect(m: Manager, target: SenderTarget, now: Instant): Manager {
    if IsBusy(m, target.receiverId) then m
    else
      m.(entries := m.entries[target.receiverId := Pending(target, Snapshot(Connecting, 0, None), now, false)],
         inserted := m.inserted + multiset{target.receiverId})
  }

  function Remove(m: Manager, id: DeviceId): Manager {
    m.(entries := m.entries - {id})
  }

  predicate IsDue(m: Manager, id: DeviceId, now: Instant) {
    id in m.entries && m.entries[id].Pending? && !m.entries[id].inFlight && m.entries[id].nextAttemptAt <= now
  }

  function MarkInFlight(entry: Entry): Entry
    requires entry.Pending?
  {
    var attempt := Min(entry.snapshot.attemptCount + 1, U32_MAX);
    entry.(inFlight := true, snapshot := Snapshot(Connecting, attempt, None))
  }

  /** Start one connection attempt for a target whose time has come. */
  function Launch(m: Manager, id: DeviceId, now: Instant): Manager {
    if !IsDue(m, id, now) then m
    else
      var entry := MarkInFlight(m.entries[id]);
      m.(entries := m.entries[id := entry],
         flights := m.flights + [Flight(entry.target, entry.snapshot.attemptCount)],
         launched := m.launched + multiset{id})
  }

  function FailActive(entry: Entry): Entry {
    match entry
    case Active(session) => Active(session.(snapshot := session.snapshot.(state := Error)))
    case _ => entry
  }

  function FailAllActive(entries: map<DeviceId, Entry>): map<DeviceId, Entry> {
    map id | id in entries :: FailActive(entries[id])
  }

  /** Make sure the capture runs for a freshly activated target; if that fails, every active target fails. */
  function EnsureCapture(m: Manager, start: CaptureStart): Manager {
    if m.captureOpen || start == CaptureStarts then m.(captureOpen := true)
    else m.(captureOpen := start == MirrorFails, entries := FailAllActive(m.entries))
  }

  function Without(flights: seq<Flight>, index: nat): seq<Flight>
    requires index < |flights|
  {
    flights[..index] + flights[index + 1..]
  }

  /** The report of one attempt, in whatever order reports come. */
  function Report(m: Manager, index: nat, outcome: Outcome, now: Instant): Manager {
    if index >= |m.flights| then m
    else
      var flight, landed := m.flights[index], m.(flights := Without(m.flights, index));
      match outcome
      case Connects(capture) => Connected(landed, flight, capture)
      case Fails(retryable) => ConnectFailed(landed, flight, retryable, now)
  }

  function Connected(m: Manager, flight: Flight, capture: CaptureStart): Manager {
    var id := flight.target.receiverId;
    if id !in m.entries then m
    else
      var session := TargetSession(flight.target, Snapshot(Streaming, flight.attempt, None), []);
      EnsureCapture(m.(entries := m.entries[id := Active(session)], since := m.since[id := |m.captured|]), capture)
  }

  function ConnectFailed(m: Manager, flight: Flight, retryable: bool, now: Instant): Manager {
    var id := flight.target.receiverId;
    if id !in m.entries then m
    else if retryable && flight.attempt < MAX_CONNECT_ATTEMPTS then
      var backoff := RetryBackoffMs(flight.attempt);
      var tried := m.(backoffs := m.backoffs + [backoff]);
      if !m.entries[id].Pending? then tried
      else
        var retryAt := now + backoff * MILLISECOND;
        tried.(entries := m.entries[id := m.entries[id].(
          snapshot := Snapshot(Error, flight.attempt, Some(retryAt)), nextAttemptAt := retryAt, inFlight := false)])
    else
      m.(entries := m.entries[id := Failed(Snapshot(Error, flight.attempt, None))])
  }

  /** What a tick leaves of a session: any trouble found turns it to an error. */
  function AfterTick(session: TargetSession, healthy: bool): TargetSession {
    if healthy then session else session.(snapshot := session.snapshot.(state := Error))
  }

  /** A session that no longer streams after its tick is shut down and kept as failed. */
  function TickEntry(entry: Entry, healthy: bool): Entry {
    match entry
    case Active(session) =>
      var ticked := AfterTick(session, healthy);
      if ticked.snapshot.state == Streaming then Active(ticked) else Failed(ticked.snapshot)
    case _ => entry
  }

  function Tick(m: Manager, id: DeviceId, healthy: bool): Manager {
    if id !in m.entries then m else m.(entries := m.entries[id := TickEntry(m.entries[id], healthy)])
  }

  function Offer(entry: Entry, frame: FanoutAudioFrame): Entry {
    match entry
    case Active(session) => Active(session.(offered := session.offered + [frame]))
    case _ => entry
  }

  /** A branch that refuses a frame is shut down and kept as failed. */
  function Refuse(entry: Entry): Entry {
    match entry
    case Active(session) => Failed(AfterTick(session, false).snapshot)
    case _ => entry
  }

  function FanOut(
      entries: map<DeviceId, Entry>, frame: FanoutAudioFrame, refused: set<DeviceId>): map<DeviceId, Entry>
  {
    map id | id in entries :: if id in refused then Refuse(entries[id]) else Offer(entries[id], frame)
  }

  function Capture(m: Manager, read: CaptureRead): Manager {
    if !m.captureOpen then m
    else
      match read
      case NoFrame => m
      case CapturedFrame(frame, refused) =>
        m.(entries := FanOut(m.entries, frame, refused), captured := m.captured + [frame])
      case CaptureBroken => m.(entries := FailAllActive(m.entries))
  }

  ghost predicate HasLiveTarget(m: Manager) {
    exists id :: id in m.entries && !m.entries[id].Failed?
  }

  ghost function StopIfIdle(m: Manager): Manager {
    if HasLiveTarget(m) then m else m.(captureOpen := false)
  }

  datatype Event =
    | Add(target: SenderTarget, now: Instant)
    | Drop(id: DeviceId)
    | Start(id: DeviceId, now: Instant)
    | Reported(index: nat, outcome: Outcome, now: Instant)
    | Ticked(id: DeviceId, healthy: bool)
    | Read(read: CaptureRead)
    | IdleCheck

  ghost function Step(m: Manager, event: Event): Manager {
    match event
    case Add(target, now) => QueueConnect(m, target, now)
    case Drop(id) => Remove(m, id)
    case Start(id, now) => Launch(m, id, now)
    case Reported(index, outcome, now) => Report(m, index, outcome, now)
    case Ticked(id, healthy) => Tick(m, id, healthy)
    case Read(read) => Capture(m, read)
    case IdleCheck => StopIfIdle(m)
  }

  ghost function StepAll(m: Manager, events: seq<Event>): Manager {
    Fold((m: Manager, event: Event) => Step(m, event), m, events)
  }

  ghost function Run(events: seq<Event>): Manager { StepAll(NO_TARGETS, events) }

  lemma {:induction false} StepAllMore(m: Manager, events: seq<Event>, last: Event)
    ensures StepAll(m, events + [last]) == Step(StepAll(m, events), last)
  {
    FoldMore((m: Manager, event: Event) => Step(m, event), m, events, last);
  }

  lemma {:induction false} StepAllConcat(m: Manager, first: seq<Event>, second: seq<Event>)
    ensures StepAll(m, first + second) == StepAll(StepAll(m, first), second)
  {
    FoldConcat((m: Manager, event: Event) => Step(m, event), m, first, second);
  }
}
