/** What every run of the manager satisfies. */
module SenderGuarantees {
  import opened Options
  import opened LatencyProfiles
  import opened NetworkWriters
  import opened SenderTargets

  // ----- Retry credit -----

  /** How many more attempts this entry may start on its own. */
  function EntryCredit(entry: Entry): nat {
    if entry.Pending? && !entry.inFlight && entry.snapshot.attemptCount <= MAX_CONNECT_ATTEMPTS
    then MAX_CONNECT_ATTEMPTS - entry.snapshot.attemptCount else 0
  }

  /** How many attempts the failure of this flight may lead to, if it is for the given device. */
  function FlightCredit(flight: Flight, id: DeviceId): nat {
    if flight.target.receiverId == id && flight.attempt <= MAX_CONNECT_ATTEMPTS
    then MAX_CONNECT_ATTEMPTS - flight.attempt else 0
  }

  function FlightsCredit(flights: seq<Flight>, id: DeviceId): nat {
    if flights == [] then 0 else FlightCredit(flights[0], id) + FlightsCredit(flights[1..], id)
  }

  function Credit(m: Manager, id: DeviceId): nat {
    (if id in m.entries then EntryCredit(m.entries[id]) else 0) + FlightsCredit(m.flights, id)
  }

  lemma {:induction false} FlightsCreditAppend(flights: seq<Flight>, flight: Flight, id: DeviceId)
    ensures FlightsCredit(flights + [flight], id) == FlightsCredit(flights, id) + FlightCredit(flight, id)
  {
    if flights != [] {
      assert (flights + [flight])[1..] == flights[1..] + [flight];
      FlightsCreditAppend(flights[1..], flight, id);
    }
  }

  lemma {:induction false} FlightsCreditWithout(flights: seq<Flight>, index: nat, id: DeviceId)
    requires index < |flights|
    ensures FlightsCredit(Without(flights, index), id) + FlightCredit(flights[index], id) == FlightsCredit(flights, id)
  {
    if index == 0 {
      assert Without(flights, 0) == flights[1..];
    } else {
      assert Without(flights, index)[1..] == Without(flights[1..], index - 1);
      FlightsCreditWithout(flights[1..], index - 1, id);
    }
  }

  // ----- The invariant -----

  predicate EntryOk(m: Manager, id: DeviceId, entry: Entry) {
    match entry
    case Pending(target, snapshot, _, inFlight) =>
      && target.receiverId == id
      && snapshot.attemptCount <= MAX_CONNECT_ATTEMPTS
      && (!inFlight ==> snapshot.attemptCount < MAX_CONNECT_ATTEMPTS)
      && snapshot.state in {Connecting, Error} && (inFlight ==> snapshot.state == Connecting)
      && (snapshot.state == Error ==> snapshot.nextRetryAt.Some?)
    case Active(session) =>
      && session.target.receiverId == id
      && session.snapshot.attemptCount <= MAX_CONNECT_ATTEMPTS
      && session.snapshot.state in {Streaming, Error} && session.snapshot.nextRetryAt.None?
      && (session.snapshot.state == Streaming ==> m.captureOpen)
      && id in m.since && m.since[id] <= |m.captured|
      && session.offered == m.captured[m.since[id]..]
    case Failed(snapshot) =>
      snapshot.attemptCount <= MAX_CONNECT_ATTEMPTS && snapshot.state == Error && snapshot.nextRetryAt.None?
  }

  predicate InFlight(flights: seq<Flight>, id: DeviceId) {
    exists i :: 0 <= i < |flights| && flights[i].target.receiverId == id
  }

  /** A target marked in flight has an attempt that has not been reported. */
  ghost predicate NoneForgotten(m: Manager) {
    forall id | id in m.entries && m.entries[id].Pending? && m.entries[id].inFlight :: InFlight(m.flights, id)
  }

  ghost predicate Core(m: Manager) {
    && (forall id | id in m.entries :: EntryOk(m, id, m.entries[id]))
    && (forall flight | flight in m.flights :: 1 <= flight.attempt <= MAX_CONNECT_ATTEMPTS)
    && (forall backoff | backoff in m.backoffs :: backoff in {500, 1_500})
    && (forall id :: m.launched[id] + Credit(m, id) <= MAX_CONNECT_ATTEMPTS * m.inserted[id])
  }

  lemma QueueConnectKeeps(m: Manager, target: SenderTarget, now: Instant)
    requires Core(m)
    ensures Core(QueueConnect(m, target, now))
  {
  }

  lemma LaunchKeeps(m: Manager, id: DeviceId, now: Instant)
    requires Core(m)
    ensures Core(Launch(m, id, now))
  {
    if IsDue(m, id, now) {
      var m' := Launch(m, id, now);
      forall d ensures m'.launched[d] + Credit(m', d) <= MAX_CONNECT_ATTEMPTS * m'.inserted[d] {
        FlightsCreditAppend(m.flights, m'.flights[|m.flights|], d);
      }
    }
  }

  lemma FailAllKeeps(m: Manager)
    requires Core(m)
    ensures Core(m.(entries := FailAllActive(m.entries)))
  {
    var m' := m.(entries := FailAllActive(m.entries));
    forall id ensures Credit(m', id) == Credit(m, id) {
    }
  }

  lemma OfferKeepsEntry(m: Manager, frame: FanoutAudioFrame, refused: set<DeviceId>, id: DeviceId)
    requires Core(m) && m.captureOpen && id in m.entries
    ensures var m' := Capture(m, CapturedFrame(frame, refused)); EntryOk(m', id, m'.entries[id])
  {
    var m' := Capture(m, CapturedFrame(frame, refused));
    assert EntryOk(m, id, m.entries[id]);
    if m.entries[id].Active? && id !in refused {
      assert m'.captured[m.since[id]..] == m.captured[m.since[id]..] + [frame];
    }
  }

  lemma CaptureKeeps(m: Manager, read: CaptureRead)
    requires Core(m)
    ensures Core(Capture(m, read))
  {
    if m.captureOpen {
      match read
      case NoFrame =>
      case CapturedFrame(frame, refused) =>
        var m' := Capture(m, read);
        forall id | id in m'.entries ensures EntryOk(m', id, m'.entries[id]) {
          OfferKeepsEntry(m, frame, refused, id);
        }
        forall id ensures Credit(m', id) == Credit(m, id) {
        }
      case CaptureBroken => FailAllKeeps(m);
    }
  }

  /** The flight has landed: its credit is free to be spent on its target. */
  ghost predicate Landed(m: Manager, flight: Flight) {
    && Core(m)
    && 1 <= flight.attempt <= MAX_CONNECT_ATTEMPTS
    && forall id :: m.launched[id] + Credit(m, id) + FlightCredit(flight, id) <= MAX_CONNECT_ATTEMPTS * m.inserted[id]
  }

  lemma FlightLands(m: Manager, index: nat)
    requires Core(m) && index < |m.flights|
    ensures Landed(m.(flights := Without(m.flights, index)), m.flights[index])
  {
    var landed, flight := m.(flights := Without(m.flights, index)), m.flights[index];
    assert flight in m.flights;
    assert forall f | f in landed.flights :: f in m.flights;
    forall id
      ensures landed.launched[id] + Credit(landed, id) + FlightCredit(flight, id)
          <= MAX_CONNECT_ATTEMPTS * landed.inserted[id]
    {
      FlightsCreditWithout(m.flights, index, id);
    }
  }

  lemma FailureEntryOk(m: Manager, flight: Flight, retryable: bool, now: Instant, id: DeviceId)
    requires id in m.entries && EntryOk(m, id, m.entries[id]) && 1 <= flight.attempt <= MAX_CONNECT_ATTEMPTS
    ensures var m' := ConnectFailed(m, flight, retryable, now); id in m'.entries && EntryOk(m', id, m'.entries[id])
  {
  }

  lemma FailureBackoffs(m: Manager, flight: Flight, retryable: bool, now: Instant)
    requires (forall backoff | backoff in m.backoffs :: backoff in {500, 1_500}) && 1 <= flight.attempt
    ensures forall backoff | backoff in ConnectFailed(m, flight, retryable, now).backoffs :: backoff in {500, 1_500}
    ensures ConnectFailed(m, flight, retryable, now).entries.Keys == m.entries.Keys
  {
  }

  lemma FailureSpendsCredit(m: Manager, flight: Flight, retryable: bool, now: Instant, id: DeviceId)
    requires 1 <= flight.attempt <= MAX_CONNECT_ATTEMPTS
    ensures Credit(ConnectFailed(m, flight, retryable, now), id) <= Credit(m, id) + FlightCredit(flight, id)
  {
  }

  /** A failure uses up its flight's credit, so it gives its target no more than that. */
  lemma ConnectFailedKeeps(m: Manager, flight: Flight, retryable: bool, now: Instant)
    requires Landed(m, flight)
    ensures Core(ConnectFailed(m, flight, retryable, now))
  {
    var m' := ConnectFailed(m, flight, retryable, now);
    FailureBackoffs(m, flight, retryable, now);
    forall id | id in m'.entries ensures EntryOk(m', id, m'.entries[id]) {
      FailureEntryOk(m, flight, retryable, now, id);
    }
    forall id ensures m'.launched[id] + Credit(m', id) <= MAX_CONNECT_ATTEMPTS * m'.inserted[id] {
      FailureSpendsCredit(m, flight, retryable, now, id);
    }
  }

  lemma FailedEntriesOk(m: Manager, captureOpen: bool)
    requires forall id | id in m.entries :: EntryOk(m.(captureOpen := true), id, m.entries[id])
    ensures var m' := m.(captureOpen := captureOpen, entries := FailAllActive(m.entries));
            forall id | id in m'.entries :: EntryOk(m', id, m'.entries[id])
  {
  }

  lemma ActivatedEntriesOk(m: Manager, flight: Flight, capture: CaptureStart)
    requires Core(m) && flight.attempt <= MAX_CONNECT_ATTEMPTS
    ensures var m' := Connected(m, flight, capture);
            forall id | id in m'.entries :: EntryOk(m', id, m'.entries[id])
  {
    var id := flight.target.receiverId;
    if id in m.entries {
      var session := TargetSession(flight.target, Snapshot(Streaming, flight.attempt, None), []);
      var active := m.(entries := m.entries[id := Active(session)], since := m.since[id := |m.captured|]);
      assert m.captured[|m.captured|..] == [];
      assert EntryOk(active.(captureOpen := true), id, Active(session));
      assert forall d | d in m.entries :: EntryOk(m, d, m.entries[d]);
      FailedEntriesOk(active, capture == MirrorFails);
    }
  }

  lemma ActivationSpendsNothing(m: Manager, flight: Flight, capture: CaptureStart, id: DeviceId)
    ensures Credit(Connected(m, flight, capture), id) <= Credit(m, id)
  {
  }

  lemma ConnectedKeeps(m: Manager, flight: Flight, capture: CaptureStart)
    requires Landed(m, flight)
    ensures Core(Connected(m, flight, capture))
  {
    var m' := Connected(m, flight, capture);
    ActivatedEntriesOk(m, flight, capture);
    forall id ensures m'.launched[id] + Credit(m', id) <= MAX_CONNECT_ATTEMPTS * m'.inserted[id] {
      ActivationSpendsNothing(m, flight, capture, id);
    }
  }

  lemma ReportKeeps(m: Manager, index: nat, outcome: Outcome, now: Instant)
    requires Core(m)
    ensures Core(Report(m, index, outcome, now))
  {
    if index < |m.flights| {
      var landed, flight := m.(flights := Without(m.flights, index)), m.flights[index];
      FlightLands(m, index);
      match outcome
      case Connects(capture) => ConnectedKeeps(landed, flight, capture);
      case Fails(retryable) => ConnectFailedKeeps(landed, flight, retryable, now);
    }
  }

  lemma RemoveKeeps(m: Manager, id: DeviceId)
    requires Core(m)
    ensures Core(Remove(m, id))
  {
  }

  lemma TickKeeps(m: Manager, id: DeviceId, healthy: bool)
    requires Core(m)
    ensures Core(Tick(m, id, healthy))
  {
  }

  lemma IdleCheckKeeps(m: Manager)
    requires Core(m)
    ensures Core(StopIfIdle(m))
  {
  }

  lemma StepKeeps(m: Manager, event: Event)
    requires Core(m)
    ensures Core(Step(m, event))
  {
    match event
    case Add(target, now) => QueueConnectKeeps(m, target, now);
    case Drop(id) => RemoveKeeps(m, id);
    case Start(id, now) => LaunchKeeps(m, id, now);
    case Reported(index, outcome, now) => ReportKeeps(m, index, outcome, now);
    case Ticked(id, healthy) => TickKeeps(m, id, healthy);
    case Read(read) => CaptureKeeps(m, read);
    case IdleCheck => IdleCheckKeeps(m);
  }

  lemma {:induction false} Retained(flights: seq<Flight>, index: nat, id: DeviceId)
    requires index < |flights| && InFlight(flights, id) && flights[index].target.receiverId != id
    ensures InFlight(Without(flights, index), id)
  {
    var i :| 0 <= i < |flights| && flights[i].target.receiverId == id;
    var j := if i < index then i else i - 1;
    assert Without(flights, index)[j] == flights[i];
  }

  lemma {:induction false} Extended(flights: seq<Flight>, flight: Flight, id: DeviceId)
    requires InFlight(flights, id) || flight.target.receiverId == id
    ensures InFlight(flights + [flight], id)
  {
    var longer := flights + [flight];
    if InFlight(flights, id) {
      var i :| 0 <= i < |flights| && flights[i].target.receiverId == id;
      assert longer[i] == flights[i];
    } else {
      assert longer[|flights|] == flight;
    }
  }

  /** Whatever is reported about a device, it is not left marked in flight. */
  lemma ReportSettles(m: Manager, index: nat, outcome: Outcome, now: Instant)
    requires index < |m.flights|
    ensures var m', id := Report(m, index, outcome, now), m.flights[index].target.receiverId;
            && m'.flights == Without(m.flights, index)
            && (id in m'.entries && m'.entries[id].Pending? ==> !m'.entries[id].inFlight)
            && (forall d | d != id && d in m'.entries && m'.entries[d].Pending? ::
                  d in m.entries && m'.entries[d] == m.entries[d])
  {
  }

  lemma StepForgetsNone(m: Manager, event: Event)
    requires Core(m) && NoneForgotten(m)
    ensures NoneForgotten(Step(m, event))
  {
    match event
    case Start(id, now) =>
      if IsDue(m, id, now) {
        var m' := Launch(m, id, now);
        forall d | d in m'.entries && m'.entries[d].Pending? && m'.entries[d].inFlight ensures InFlight(m'.flights, d) {
          Extended(m.flights, m'.flights[|m.flights|], d);
        }
      }
    case Reported(index, outcome, now) =>
      if index < |m.flights| {
        var m' := Report(m, index, outcome, now);
        ReportSettles(m, index, outcome, now);
        forall d | d in m'.entries && m'.entries[d].Pending? && m'.entries[d].inFlight ensures InFlight(m'.flights, d) {
          Retained(m.flights, index, d);
        }
      }
    case _ =>
  }

  ghost predicate Inv(m: Manager) { Core(m) && NoneForgotten(m) }

  lemma StepKeepsInv(m: Manager, event: Event)
    requires Inv(m)
    ensures Inv(Step(m, event))
  {
    StepKeeps(m, event);
    StepForgetsNone(m, event);
  }

  lemma {:induction false} StepAllKeeps(m: Manager, events: seq<Event>)
    requires Inv(m)
    ensures Inv(StepAll(m, events))
  {
    if events != [] {
      StepAllKeeps(m, events[..|events| - 1]);
      StepKeepsInv(StepAll(m, events[..|events| - 1]), events[|events| - 1]);
    }
  }

  lemma {:induction false} Reachable(events: seq<Event>)
    ensures Inv(Run(events))
  {
    StepAllKeeps(NO_TARGETS, events);
  }

  // ----- The promises -----

  /**
   * Bounded retries under every race: each accepted insert of a device pays for at most three
   * attempts, whatever stale reports arrive; no attempt number exceeds the cap, and the long
   * backoff is never used.
   */
  lemma {:induction false} BoundedRetries(events: seq<Event>)
    ensures var m := Run(events);
            && (forall id :: m.launched[id] <= MAX_CONNECT_ATTEMPTS * m.inserted[id])
            && |m.launched| <= MAX_CONNECT_ATTEMPTS * |m.inserted|
            && (forall flight | flight in m.flights :: 1 <= flight.attempt <= MAX_CONNECT_ATTEMPTS)
            && (forall id | id in m.entries :: EntrySnapshot(m.entries[id]).attemptCount <= MAX_CONNECT_ATTEMPTS)
            && 3_000 !in m.backoffs
  {
    var m := Run(events);
    Reachable(events);
    forall id ensures m.launched[id] <= MAX_CONNECT_ATTEMPTS * m.inserted[id] {
      assert m.launched[id] + Credit(m, id) <= MAX_CONNECT_ATTEMPTS * m.inserted[id];
    }
    ThreeEach(m.launched, m.inserted);
    forall id | id in m.entries ensures EntrySnapshot(m.entries[id]).attemptCount <= MAX_CONNECT_ATTEMPTS {
      assert EntryOk(m, id, m.entries[id]);
    }
  }

  lemma ThreeEach(launched: multiset<DeviceId>, inserted: multiset<DeviceId>)
    requires forall id :: launched[id] <= 3 * inserted[id]
    ensures |launched| <= 3 * |inserted|
  {
    var twice := inserted + inserted;
    var paid := twice + inserted;
    assert |twice| == |inserted| + |inserted| && |paid| == |twice| + |inserted|;
    assert launched <= paid;
    assert paid == launched + (paid - launched);
    assert |launched + (paid - launched)| == |launched| + |paid - launched|;
  }

  /**
   * Capture and fan-out: whatever streams, streams from an open capture, and an active branch has
   * been offered every frame captured since it became active, each once and in order.
   */
  lemma {:induction false} StreamsFromOpenCapture(events: seq<Event>, id: DeviceId)
    requires id in Run(events).entries && Run(events).entries[id].Active?
    ensures var m := Run(events);
            var session := m.entries[id].session;
            && (session.snapshot.state == Streaming ==> m.captureOpen)
            && id in m.since && m.since[id] <= |m.captured|
            && session.offered == m.captured[m.since[id]..]
  {
    Reachable(events);
    assert EntryOk(Run(events), id, Run(events).entries[id]);
  }

  // ----- No target is forgotten -----

  /**
   * When a step sets a device's next attempt, and to what time: an insertion that is accepted to its
   * own time, the retryable failure of a pending device's attempt to the backoff of that attempt later.
   */
  function AttemptSetBy(before: Manager, event: Event, id: DeviceId): Option<Instant> {
    match event
    case Add(target, now) => if target.receiverId == id && !IsBusy(before, id) then Some(now) else None
    case Reported(index, outcome, now) =>
      if index < |before.flights| && before.flights[index].target.receiverId == id
         && outcome == Fails(true) && before.flights[index].attempt <= 2
         && id in before.entries && before.entries[id].Pending?
      then Some(now + (if before.flights[index].attempt <= 1 then 500 else 1_500) * MILLISECOND)
      else None
    case _ => None
  }

  /** The last step that set the device's next attempt set it to the given time. */
  ghost predicate AttemptIsSet(events: seq<Event>, id: DeviceId, at: Instant) {
    exists i :: 0 <= i < |events| && LastSetAt(events, id, at, i)
  }

  ghost predicate LastSetAt(events: seq<Event>, id: DeviceId, at: Instant, i: nat)
    requires i < |events|
  {
    && AttemptSetBy(Run(events[..i]), events[i], id) == Some(at)
    && forall j | i < j < |events| :: AttemptSetBy(Run(events[..j]), events[j], id) == None
  }

  ghost predicate AttemptsAreSet(m: Manager, events: seq<Event>) {
    forall id | id in m.entries && m.entries[id].Pending? :: AttemptIsSet(events, id, m.entries[id].nextAttemptAt)
  }

  lemma {:induction false} StillSet(events: seq<Event>, last: Event, id: DeviceId, at: Instant)
    requires AttemptIsSet(events, id, at) && AttemptSetBy(Run(events), last, id) == None
    ensures AttemptIsSet(events + [last], id, at)
  {
    var longer := events + [last];
    var i :| 0 <= i < |events| && LastSetAt(events, id, at, i);
    assert longer[..i] == events[..i] && longer[i] == events[i];
    forall j | i < j < |longer| ensures AttemptSetBy(Run(longer[..j]), longer[j], id) == None {
      if j < |events| {
        assert longer[..j] == events[..j] && longer[j] == events[j];
      } else {
        assert longer[..j] == events;
      }
    }
    assert LastSetAt(longer, id, at, i);
  }

  lemma {:induction false} NewlySet(events: seq<Event>, last: Event, id: DeviceId, at: Instant)
    requires AttemptSetBy(Run(events), last, id) == Some(at)
    ensures AttemptIsSet(events + [last], id, at)
  {
    assert (events + [last])[..|events|] == events;
    assert LastSetAt(events + [last], id, at, |events|);
  }

  /** A step sets the time of a device's next attempt as said above, or leaves it alone. */
  ghost predicate AttemptFollows(m: Manager, event: Event, m': Manager, id: DeviceId)
    requires id in m'.entries && m'.entries[id].Pending?
  {
    match AttemptSetBy(m, event, id)
    case Some(at) => m'.entries[id].nextAttemptAt == at
    case None =>
      id in m.entries && m.entries[id].Pending? && m.entries[id].nextAttemptAt == m'.entries[id].nextAttemptAt
  }

  lemma FailureSetsAttempt(m: Manager, index: nat, retryable: bool, now: Instant, id: DeviceId)
    requires var m' := Report(m, index, Fails(retryable), now); id in m'.entries && m'.entries[id].Pending?
    ensures AttemptFollows(m, Reported(index, Fails(retryable), now), Report(m, index, Fails(retryable), now), id)
  {
  }

  lemma SuccessSetsNoAttempt(m: Manager, index: nat, capture: CaptureStart, now: Instant, id: DeviceId)
    requires var m' := Report(m, index, Connects(capture), now); id in m'.entries && m'.entries[id].Pending?
    ensures AttemptFollows(m, Reported(index, Connects(capture), now), Report(m, index, Connects(capture), now), id)
  {
  }

  lemma OtherStepSetsAttempt(m: Manager, event: Event, id: DeviceId)
    requires !event.Reported?
    requires var m' := Step(m, event); id in m'.entries && m'.entries[id].Pending?
    ensures AttemptFollows(m, event, Step(m, event), id)
  {
  }

  lemma StepSetsAttempt(m: Manager, event: Event, id: DeviceId)
    requires var m' := Step(m, event); id in m'.entries && m'.entries[id].Pending?
    ensures AttemptFollows(m, event, Step(m, event), id)
  {
    match event
    case Reported(index, outcome, now) =>
      if outcome.Connects? {
        SuccessSetsNoAttempt(m, index, outcome.capture, now, id);
      } else {
        FailureSetsAttempt(m, index, outcome.retryable, now, id);
      }
    case _ => OtherStepSetsAttempt(m, event, id);
  }

  lemma {:induction false} AttemptsSetInRun(events: seq<Event>)
    ensures AttemptsAreSet(Run(events), events)
  {
    if events != [] {
      var earlier, last := events[..|events| - 1], events[|events| - 1];
      AttemptsSetInRun(earlier);
      assert events == earlier + [last];
      StepAllMore(NO_TARGETS, earlier, last);
      OneMoreSets(Run(earlier), earlier, last);
    }
  }

  lemma {:induction false} OneMoreSets(m: Manager, earlier: seq<Event>, last: Event)
    requires m == Run(earlier) && AttemptsAreSet(m, earlier)
    ensures AttemptsAreSet(Step(m, last), earlier + [last])
  {
    var m' := Step(m, last);
    forall id | id in m'.entries && m'.entries[id].Pending?
      ensures AttemptIsSet(earlier + [last], id, m'.entries[id].nextAttemptAt)
    {
      StepSetsAttempt(m, last, id);
      if AttemptSetBy(m, last, id).Some? {
        NewlySet(earlier, last, id, m'.entries[id].nextAttemptAt);
      } else {
        StillSet(earlier, last, id, m'.entries[id].nextAttemptAt);
      }
    }
  }

  /**
   * No pending target is stuck: an attempt for it is still to be reported, or its next attempt is
   * where the last step that set it put it: at its insertion, or 500 or 1,500 milliseconds after the
   * report that its first or second attempt failed.
   */
  lemma {:induction false} NoTargetIsForgotten(events: seq<Event>, id: DeviceId)
    requires id in Run(events).entries && Run(events).entries[id].Pending?
    ensures var m := Run(events);
            if m.entries[id].inFlight then InFlight(m.flights, id)
            else AttemptIsSet(events, id, m.entries[id].nextAttemptAt)
  {
    Reachable(events);
    AttemptsSetInRun(events);
  }

  // ----- The derived state -----

  function DeriveManagerState(targets: seq<Snapshot>): SessionState {
    if targets == [] then Idle
    else if exists t :: t in targets && t.state == Streaming then Streaming
    else if exists t :: t in targets && (t.state in {Connecting, Negotiating} || t.nextRetryAt.Some?) then Connecting
    else if exists t :: t in targets && t.state == Stopping then Stopping
    else if forall t :: t in targets ==> t.state == Error then Error
    else Idle
  }

  /** The targets' snapshots, in whatever order they are listed. */
  ghost predicate Lists(m: Manager, targets: seq<Snapshot>) {
    && (forall t | t in targets :: exists id :: id in m.entries && EntrySnapshot(m.entries[id]) == t)
    && (forall id | id in m.entries :: EntrySnapshot(m.entries[id]) in targets)
  }

  ghost predicate SomeStreams(m: Manager) {
    exists id :: id in m.entries && EntrySnapshot(m.entries[id]).state == Streaming
  }

  ghost predicate SomePending(m: Manager) {
    exists id :: id in m.entries && m.entries[id].Pending?
  }

  /**
   * The published state says exactly what the targets do: idle without targets, streaming if some
   * target streams, else connecting if some target is pending, else error; it is never stopping.
   */
  lemma {:induction false} DerivedStateIsTelling(events: seq<Event>, targets: seq<Snapshot>)
    requires Lists(Run(events), targets)
    ensures StateTells(Run(events), DeriveManagerState(targets))
    ensures DeriveManagerState(targets) == Streaming ==> Run(events).captureOpen
  {
    Reachable(events);
    DerivedFromEntries(Run(events), targets);
    if SomeStreams(Run(events)) { StreamingNeedsCapture(Run(events)); }
  }

  ghost predicate StateTells(m: Manager, state: SessionState) {
    && (state == Idle <==> m.entries == map[])
    && (state == Streaming <==> SomeStreams(m))
    && (state == Connecting <==> !SomeStreams(m) && SomePending(m))
    && (state == Error <==> m.entries != map[] && !SomeStreams(m) && !SomePending(m))
    && state !in {Stopping, Negotiating}
  }

  lemma StreamingNeedsCapture(m: Manager)
    requires Core(m) && SomeStreams(m)
    ensures m.captureOpen
  {
    var id :| id in m.entries && EntrySnapshot(m.entries[id]).state == Streaming;
    assert EntryOk(m, id, m.entries[id]);
  }

  lemma {:induction false} StreamingListed(m: Manager, targets: seq<Snapshot>)
    requires Lists(m, targets)
    ensures SomeStreams(m) <==> exists t :: t in targets && t.state == Streaming
  {
    if exists t :: t in targets && t.state == Streaming {
      var t :| t in targets && t.state == Streaming;
      var id :| id in m.entries && EntrySnapshot(m.entries[id]) == t;
    }
  }

  lemma {:induction false} PendingListed(m: Manager, targets: seq<Snapshot>)
    requires Lists(m, targets) && forall id | id in m.entries :: EntryOk(m, id, m.entries[id])
    ensures SomePending(m)
            <==> exists t :: t in targets && (t.state in {Connecting, Negotiating} || t.nextRetryAt.Some?)
  {
    if exists t :: t in targets && (t.state in {Connecting, Negotiating} || t.nextRetryAt.Some?) {
      var t :| t in targets && (t.state in {Connecting, Negotiating} || t.nextRetryAt.Some?);
      var id :| id in m.entries && EntrySnapshot(m.entries[id]) == t;
      assert EntryOk(m, id, m.entries[id]);
    }
    if SomePending(m) {
      var id :| id in m.entries && m.entries[id].Pending?;
      assert EntrySnapshot(m.entries[id]) in targets;
    }
  }

  lemma {:induction false} OthersAreErrors(m: Manager, targets: seq<Snapshot>)
    requires Lists(m, targets) && forall id | id in m.entries :: EntryOk(m, id, m.entries[id])
    requires !SomeStreams(m) && !SomePending(m)
    ensures forall t | t in targets :: t.state == Error
  {
    forall t | t in targets ensures t.state == Error {
      var id :| id in m.entries && EntrySnapshot(m.entries[id]) == t;
      assert EntryOk(m, id, m.entries[id]);
    }
  }

  lemma {:induction false} DerivedFromEntries(m: Manager, targets: seq<Snapshot>)
    requires Lists(m, targets) && forall id | id in m.entries :: EntryOk(m, id, m.entries[id])
    ensures StateTells(m, DeriveManagerState(targets))
  {
    StreamingListed(m, targets);
    PendingListed(m, targets);
    if targets == [] {
      assert forall id :: id !in m.entries;
    } else {
      assert targets[0] in targets;
      if !SomeStreams(m) && !SomePending(m) { OthersAreErrors(m, targets); }
    }
  }
}
