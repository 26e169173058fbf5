/**
 * What the failure of one target means for the others. At the moment it happens, nothing. Later the
 * others can tell only through the capture they share: it may have been closed for lack of targets,
 * and have to be started again. How far isolation goes is stated by comparing a manager without the
 * failure and one with it, while both take the same steps about the other targets.
 */
module SenderIsolation {
  import opened Options
  import opened NetworkWriters
  import opened SenderTargets
  import G = SenderGuarantees

  // ----- The failure itself -----

  /** A failure of the given device: of a connection attempt for it, or of its session's tick. */
  predicate FailsAlone(m: Manager, event: Event, id: DeviceId) {
    match event
    case Reported(index, outcome, _) =>
      outcome.Fails? && index < |m.flights| && m.flights[index].target.receiverId == id
    case Ticked(ticked, healthy) => ticked == id && !healthy
    case _ => false
  }

  /** The position of the attempt that a failure ends, if it ends one. */
  function Landed(failure: Event): Option<nat> {
    if failure.Reported? then Some(failure.index) else None
  }

  /** The two managers say the same of every device but one. */
  ghost predicate SameApart(a: map<DeviceId, Entry>, b: map<DeviceId, Entry>, id: DeviceId) {
    forall d | d != id :: (d in a <==> d in b) && (d in a ==> a[d] == b[d])
  }

  // ----- The same steps without and with the failure -----

  /** The step is about the given device. */
  predicate Concerns(m: Manager, event: Event, id: DeviceId) {
    match event
    case Add(target, _) => target.receiverId == id
    case Drop(dropped) => dropped == id
    case Start(started, _) => started == id
    case Reported(index, _, _) => index < |m.flights| && m.flights[index].target.receiverId == id
    case Ticked(ticked, _) => ticked == id
    case Read(read) => read.CapturedFrame? && id in read.refused
    case IdleCheck => false
  }

  /** A report names its attempt by position; once an earlier attempt has landed, that is one less. */
  function Moved(event: Event, gone: Option<nat>): Event {
    if event.Reported? && gone.Some? && event.index > gone.value then event.(index := event.index - 1) else event
  }

  /** Where the attempt that is missing on one side is after the step. */
  function Later(event: Event, gone: Option<nat>): Option<nat> {
    if event.Reported? && gone.Some? && event.index < gone.value then Some(gone.value - 1) else gone
  }

  function GoneAfter(events: seq<Event>, gone: Option<nat>): Option<nat> {
    if events == [] then gone
    else Later(events[|events| - 1], GoneAfter(events[..|events| - 1], gone))
  }

  function AllMoved(events: seq<Event>, gone: Option<nat>): seq<Event> {
    if events == [] then []
    else
      var earlier := events[..|events| - 1];
      AllMoved(earlier, gone) + [Moved(events[|events| - 1], GoneAfter(earlier, gone))]
  }

  predicate IsLive(m: Manager, id: DeviceId) {
    id in m.entries && !m.entries[id].Failed?
  }

  predicate NoneActive(m: Manager) {
    forall d | d in m.entries :: !m.entries[d].Active?
  }

  ghost predicate FlightsMatch(a: Manager, b: Manager, id: DeviceId, gone: Option<nat>) {
    match gone
    case None => a.flights == b.flights
    case Some(k) =>
      k < |a.flights| && a.flights[k].target.receiverId == id && b.flights == Without(a.flights, k)
  }

  /** The captures are both open or both closed, or the one with the failure was closed for lack of targets. */
  predicate CapturesMatch(a: Manager, b: Manager) {
    && (b.captureOpen ==> a.captureOpen)
    && (a.captureOpen && !b.captureOpen ==> NoneActive(b))
  }

  /** `a` is the manager without the failure, `b` the one with it. */
  ghost predicate Related(a: Manager, b: Manager, id: DeviceId, gone: Option<nat>) {
    && SameApart(a.entries, b.entries, id)
    && FlightsMatch(a, b, id, gone)
    && CapturesMatch(a, b)
    && (IsLive(b, id) ==> IsLive(a, id))
  }

  /**
   * A known target's attempt connects just when the capture is open without the failure and closed
   * with it, and starting the capture or the mirror fails.
   */
  predicate Diverges(a: Manager, b: Manager, event: Event) {
    && event.Reported? && event.index < |a.flights| && event.outcome.Connects?
    && a.flights[event.index].target.receiverId in a.entries
    && event.outcome.capture != CaptureStarts
    && a.captureOpen && !b.captureOpen
  }

  // ----- One step -----

  lemma QueueKeeps(a: Manager, b: Manager, id: DeviceId, target: SenderTarget, now: Instant)
    requires SameApart(a.entries, b.entries, id) && target.receiverId != id
    ensures SameApart(QueueConnect(a, target, now).entries, QueueConnect(b, target, now).entries, id)
    ensures CapturesMatch(a, b) ==> CapturesMatch(QueueConnect(a, target, now), QueueConnect(b, target, now))
  {
  }

  lemma LaunchKeeps(a: Manager, b: Manager, id: DeviceId, gone: Option<nat>, started: DeviceId, now: Instant)
    requires Related(a, b, id, gone) && started != id
    ensures Related(Launch(a, started, now), Launch(b, started, now), id, gone)
  {
    if IsDue(a, started, now) && gone.Some? {
      var last := Flight(MarkInFlight(a.entries[started]).target,
          MarkInFlight(a.entries[started]).snapshot.attemptCount);
      WithoutAppend(a.flights, gone.value, last);
    }
  }

  lemma WithoutAppend(flights: seq<Flight>, index: nat, last: Flight)
    requires index < |flights|
    ensures Without(flights + [last], index) == Without(flights, index) + [last]
  {
  }

  lemma TickKeeps(a: Manager, b: Manager, id: DeviceId, ticked: DeviceId, healthy: bool)
    requires SameApart(a.entries, b.entries, id) && CapturesMatch(a, b) && ticked != id
    ensures SameApart(Tick(a, ticked, healthy).entries, Tick(b, ticked, healthy).entries, id)
    ensures CapturesMatch(Tick(a, ticked, healthy), Tick(b, ticked, healthy))
  {
  }

  lemma FailAllKeeps(a: map<DeviceId, Entry>, b: map<DeviceId, Entry>, id: DeviceId)
    requires SameApart(a, b, id)
    ensures SameApart(FailAllActive(a), FailAllActive(b), id)
    ensures (forall d | d in b :: !b[d].Active?) ==> SameApart(FailAllActive(a), b, id)
  {
  }

  lemma FanOutKeeps(
      a: map<DeviceId, Entry>, b: map<DeviceId, Entry>, id: DeviceId, frame: FanoutAudioFrame, refused: set<DeviceId>)
    requires SameApart(a, b, id)
    ensures SameApart(FanOut(a, frame, refused), FanOut(b, frame, refused), id)
    ensures (forall d | d in b :: !b[d].Active?) ==> SameApart(FanOut(a, frame, refused), b, id)
  {
  }

  lemma CaptureKeeps(a: Manager, b: Manager, id: DeviceId, read: CaptureRead)
    requires SameApart(a.entries, b.entries, id) && CapturesMatch(a, b)
    ensures SameApart(Capture(a, read).entries, Capture(b, read).entries, id)
    ensures CapturesMatch(Capture(a, read), Capture(b, read))
  {
    match read
    case NoFrame =>
    case CapturedFrame(frame, refused) => FanOutKeeps(a.entries, b.entries, id, frame, refused);
    case CaptureBroken => FailAllKeeps(a.entries, b.entries, id);
  }

  lemma CaptureKeepsLife(m: Manager, id: DeviceId, read: CaptureRead)
    requires !(read.CapturedFrame? && id in read.refused)
    ensures IsLive(Capture(m, read), id) <==> IsLive(m, id)
  {
  }

  lemma IdleKeeps(a: Manager, b: Manager, id: DeviceId)
    requires SameApart(a.entries, b.entries, id) && CapturesMatch(a, b) && (IsLive(b, id) ==> IsLive(a, id))
    ensures CapturesMatch(StopIfIdle(a), StopIfIdle(b))
  {
    if HasLiveTarget(b) {
      var d :| d in b.entries && !b.entries[d].Failed?;
        assert d in a.entries && !a.entries[d].Failed?;
    }
  }

  /** A report about another device finds the same attempt on both sides, and leaves the same ones. */
  lemma ReportedAlike(a: Manager, b: Manager, id: DeviceId, gone: Option<nat>, event: Event)
    requires FlightsMatch(a, b, id, gone) && event.Reported? && !Concerns(a, event, id)
    ensures var moved := Moved(event, gone);
            && (event.index < |a.flights| <==> moved.index < |b.flights|)
            && (event.index < |a.flights| ==>
                  && a.flights[event.index] == b.flights[moved.index]
                  && FlightsMatch(a.(flights := Without(a.flights, event.index)),
                                  b.(flights := Without(b.flights, moved.index)), id, Later(event, gone)))
  {
    if gone.Some? && event.index < |a.flights| {
      WithoutTwo(a.flights, event.index, gone.value);
    }
  }

  lemma WithoutTwo(flights: seq<Flight>, i: nat, k: nat)
    requires i < |flights| && k < |flights| && i != k
    ensures var k', i' := if i < k then k - 1 else k, if i > k then i - 1 else i;
            && Without(flights, i)[k'] == flights[k] && Without(flights, k)[i'] == flights[i]
            && Without(Without(flights, i), k') == Without(Without(flights, k), i')
  {
  }

  lemma ConnectedKeeps(a: Manager, b: Manager, id: DeviceId, flight: Flight, capture: CaptureStart)
    requires SameApart(a.entries, b.entries, id) && CapturesMatch(a, b) && flight.target.receiverId != id
    requires !(a.captureOpen && !b.captureOpen) || capture == CaptureStarts || flight.target.receiverId !in a.entries
    ensures SameApart(Connected(a, flight, capture).entries, Connected(b, flight, capture).entries, id)
    ensures CapturesMatch(Connected(a, flight, capture), Connected(b, flight, capture))
  {
    var d := flight.target.receiverId;
    if d in a.entries {
      var active := Active(TargetSession(flight.target, Snapshot(Streaming, flight.attempt, None), []));
      FailAllKeeps(a.entries[d := active], b.entries[d := active], id);
    }
  }

  lemma ConnectFailedKeeps(a: Manager, b: Manager, id: DeviceId, flight: Flight, retryable: bool, now: Instant)
    requires SameApart(a.entries, b.entries, id) && CapturesMatch(a, b) && flight.target.receiverId != id
    ensures SameApart(ConnectFailed(a, flight, retryable, now).entries,
        ConnectFailed(b, flight, retryable, now).entries, id)
    ensures CapturesMatch(ConnectFailed(a, flight, retryable, now), ConnectFailed(b, flight, retryable, now))
  {
  }

  lemma LandingKeepsLife(m: Manager, flight: Flight, outcome: Outcome, now: Instant, id: DeviceId)
    requires flight.target.receiverId != id
    ensures var m' := match outcome
                      case Connects(capture) => Connected(m, flight, capture)
                      case Fails(retryable) => ConnectFailed(m, flight, retryable, now);
            IsLive(m', id) <==> IsLive(m, id)
  {
  }

  lemma ConnectedRelated(a: Manager, b: Manager, id: DeviceId, gone: Option<nat>, flight: Flight, capture: CaptureStart)
    requires Related(a, b, id, gone) && flight.target.receiverId != id
    requires !(a.captureOpen && !b.captureOpen) || capture == CaptureStarts || flight.target.receiverId !in a.entries
    ensures Related(Connected(a, flight, capture), Connected(b, flight, capture), id, gone)
  {
    ConnectedKeeps(a, b, id, flight, capture);
    LandingKeepsLife(a, flight, Connects(capture), 0, id);
    LandingKeepsLife(b, flight, Connects(capture), 0, id);
    ConnectedKeepsFlights(a, flight, capture);
    ConnectedKeepsFlights(b, flight, capture);
  }

  lemma ConnectedKeepsFlights(m: Manager, flight: Flight, capture: CaptureStart)
    ensures Connected(m, flight, capture).flights == m.flights
  {
  }

  lemma ConnectFailedRelated(
      a: Manager, b: Manager, id: DeviceId, gone: Option<nat>, flight: Flight, retryable: bool, now: Instant)
    requires Related(a, b, id, gone) && flight.target.receiverId != id
    ensures Related(ConnectFailed(a, flight, retryable, now), ConnectFailed(b, flight, retryable, now), id, gone)
  {
    ConnectFailedKeeps(a, b, id, flight, retryable, now);
    LandingKeepsLife(a, flight, Fails(retryable), now, id);
    LandingKeepsLife(b, flight, Fails(retryable), now, id);
  }

  lemma LandingRelated(a: Manager, b: Manager, id: DeviceId, gone: Option<nat>, event: Event)
    requires Related(a, b, id, gone) && event.Reported? && !Concerns(a, event, id) && event.index < |a.flights|
    ensures var moved := Moved(event, gone);
            && moved.index < |b.flights|
            && Related(a.(flights := Without(a.flights, event.index)), b.(flights := Without(b.flights, moved.index)),
                       id, Later(event, gone))
  {
    ReportedAlike(a, b, id, gone, event);
  }

  lemma ReportKeeps(a: Manager, b: Manager, id: DeviceId, gone: Option<nat>, event: Event)
    requires Related(a, b, id, gone) && event.Reported? && !Concerns(a, event, id) && !Diverges(a, b, event)
    ensures Related(Step(a, event), Step(b, Moved(event, gone)), id, Later(event, gone))
  {
    var moved := Moved(event, gone);
    ReportedAlike(a, b, id, gone, event);
    if event.index < |a.flights| {
      var flight := a.flights[event.index];
      var a0, b0 := a.(flights := Without(a.flights, event.index)), b.(flights := Without(b.flights, moved.index));
      LandingRelated(a, b, id, gone, event);
      match event.outcome
      case Connects(capture) => ConnectedRelated(a0, b0, id, Later(event, gone), flight, capture);
      case Fails(retryable) => ConnectFailedRelated(a0, b0, id, Later(event, gone), flight, retryable, event.now);
    }
  }

  lemma AddRelated(a: Manager, b: Manager, id: DeviceId, gone: Option<nat>, target: SenderTarget, now: Instant)
    requires Related(a, b, id, gone) && target.receiverId != id
    ensures Related(QueueConnect(a, target, now), QueueConnect(b, target, now), id, gone)
  {
    QueueKeeps(a, b, id, target, now);
  }

  lemma DropRelated(a: Manager, b: Manager, id: DeviceId, gone: Option<nat>, dropped: DeviceId)
    requires Related(a, b, id, gone) && dropped != id
    ensures Related(Remove(a, dropped), Remove(b, dropped), id, gone)
  {
  }

  lemma TickRelated(a: Manager, b: Manager, id: DeviceId, gone: Option<nat>, ticked: DeviceId, healthy: bool)
    requires Related(a, b, id, gone) && ticked != id
    ensures Related(Tick(a, ticked, healthy), Tick(b, ticked, healthy), id, gone)
  {
    TickKeeps(a, b, id, ticked, healthy);
  }

  lemma ReadRelated(a: Manager, b: Manager, id: DeviceId, gone: Option<nat>, read: CaptureRead)
    requires Related(a, b, id, gone) && !(read.CapturedFrame? && id in read.refused)
    ensures Related(Capture(a, read), Capture(b, read), id, gone)
  {
    CaptureKeeps(a, b, id, read);
    CaptureKeepsLife(a, id, read);
    CaptureKeepsLife(b, id, read);
  }

  lemma IdleRelated(a: Manager, b: Manager, id: DeviceId, gone: Option<nat>)
    requires Related(a, b, id, gone)
    ensures Related(StopIfIdle(a), StopIfIdle(b), id, gone)
  {
    IdleKeeps(a, b, id);
  }

  /** A step about other devices keeps the two managers related, unless it diverges. */
  lemma StepKeeps(a: Manager, b: Manager, id: DeviceId, gone: Option<nat>, event: Event)
    requires Related(a, b, id, gone) && !Concerns(a, event, id) && !Diverges(a, b, event)
    ensures Related(Step(a, event), Step(b, Moved(event, gone)), id, Later(event, gone))
  {
    match event
    case Add(target, now) => AddRelated(a, b, id, gone, target, now);
    case Drop(dropped) => DropRelated(a, b, id, gone, dropped);
    case Start(started, now) => LaunchKeeps(a, b, id, gone, started, now);
    case Reported(_, _, _) => ReportKeeps(a, b, id, gone, event);
    case Ticked(ticked, healthy) => TickRelated(a, b, id, gone, ticked, healthy);
    case Read(read) => ReadRelated(a, b, id, gone, read);
    case IdleCheck => IdleRelated(a, b, id, gone);
  }

  /** A step that diverges leaves the connected target streaming on one side and in error on the other. */
  lemma DivergenceShows(a: Manager, b: Manager, id: DeviceId, gone: Option<nat>, event: Event)
    requires Related(a, b, id, gone) && !Concerns(a, event, id) && Diverges(a, b, event)
    ensures !SameApart(Step(a, event).entries, Step(b, Moved(event, gone)).entries, id)
  {
    var d := a.flights[event.index].target.receiverId;
    ReportedAlike(a, b, id, gone, event);
    var a', b' := Step(a, event), Step(b, Moved(event, gone));
    assert EntrySnapshot(a'.entries[d]).state == Streaming;
    assert EntrySnapshot(b'.entries[d]).state == Error;
  }

  // ----- Whole runs -----

  /** The manager without the failure and the one with it, after the first `n` events. */
  ghost function Spared(m: Manager, events: seq<Event>, n: nat): Manager
    requires n <= |events|
  {
    StepAll(m, events[..n])
  }

  ghost function Struck(f: Manager, events: seq<Event>, gone: Option<nat>, n: nat): Manager
    requires n <= |events|
  {
    StepAll(f, AllMoved(events[..n], gone))
  }

  ghost predicate NoneConcerns(m: Manager, events: seq<Event>, id: DeviceId) {
    forall n | 0 <= n < |events| :: !Concerns(Spared(m, events, n), events[n], id)
  }

  ghost predicate DivergesAt(m: Manager, f: Manager, events: seq<Event>, gone: Option<nat>, n: nat)
    requires n < |events|
  {
    Diverges(Spared(m, events, n), Struck(f, events, gone, n), events[n])
  }

  /** After every prefix of the events the other devices' entries are the same. */
  ghost predicate AgreeThroughout(m: Manager, f: Manager, events: seq<Event>, id: DeviceId, gone: Option<nat>) {
    forall n | 0 <= n <= |events| :: SameApart(Spared(m, events, n).entries, Struck(f, events, gone, n).entries, id)
  }

  ghost predicate NeverDiverges(m: Manager, f: Manager, events: seq<Event>, gone: Option<nat>) {
    forall n | 0 <= n < |events| :: !DivergesAt(m, f, events, gone, n)
  }

  lemma {:induction false} OneMoreStep(m: Manager, f: Manager, events: seq<Event>, gone: Option<nat>, n: nat)
    requires n < |events|
    ensures Spared(m, events, n + 1) == Step(Spared(m, events, n), events[n])
    ensures Struck(f, events, gone, n + 1)
        == Step(Struck(f, events, gone, n), Moved(events[n], GoneAfter(events[..n], gone)))
    ensures GoneAfter(events[..n + 1], gone) == Later(events[n], GoneAfter(events[..n], gone))
  {
    assert events[..n + 1] == events[..n] + [events[n]] && events[..n + 1][..n] == events[..n];
    StepAllMore(m, events[..n], events[n]);
    StepAllMore(f, AllMoved(events[..n], gone), Moved(events[n], GoneAfter(events[..n], gone)));
  }

  lemma {:induction false} RelatedUntil(
      m: Manager, f: Manager, events: seq<Event>, id: DeviceId, gone: Option<nat>, n: nat)
    requires Related(m, f, id, gone) && NoneConcerns(m, events, id) && n <= |events|
    requires forall k | 0 <= k < n :: !DivergesAt(m, f, events, gone, k)
    ensures Related(Spared(m, events, n), Struck(f, events, gone, n), id, GoneAfter(events[..n], gone))
  {
    if n == 0 {
      assert events[..0] == [];
      assert Spared(m, events, 0) == m && Struck(f, events, gone, 0) == f;
    } else {
      RelatedUntil(m, f, events, id, gone, n - 1);
      OneMoreStep(m, f, events, gone, n - 1);
      assert !DivergesAt(m, f, events, gone, n - 1);
      StepKeeps(Spared(m, events, n - 1), Struck(f, events, gone, n - 1), id, GoneAfter(events[..n - 1], gone),
          events[n - 1]);
    }
  }

  lemma {:induction false} FirstDivergence(
      m: Manager, f: Manager, events: seq<Event>, gone: Option<nat>, n: nat) returns (first: nat)
    requires n < |events| && DivergesAt(m, f, events, gone, n)
    ensures first < |events| && DivergesAt(m, f, events, gone, first)
    ensures forall k | 0 <= k < first :: !DivergesAt(m, f, events, gone, k)
    decreases n
  {
    if k :| 0 <= k < n && DivergesAt(m, f, events, gone, k) {
      first := FirstDivergence(m, f, events, gone, k);
    } else {
      first := n;
    }
  }

  /** Related managers agree about the other devices for exactly as long as no step diverges. */
  lemma {:induction false} AgreeExactly(m: Manager, f: Manager, events: seq<Event>, id: DeviceId, gone: Option<nat>)
    requires Related(m, f, id, gone) && NoneConcerns(m, events, id)
    ensures AgreeThroughout(m, f, events, id, gone) <==> NeverDiverges(m, f, events, gone)
  {
    if NeverDiverges(m, f, events, gone) {
      forall n | 0 <= n <= |events|
        ensures SameApart(Spared(m, events, n).entries, Struck(f, events, gone, n).entries, id)
      {
        RelatedUntil(m, f, events, id, gone, n);
      }
    } else {
      var n :| 0 <= n < |events| && DivergesAt(m, f, events, gone, n);
      var first := FirstDivergence(m, f, events, gone, n);
      RelatedUntil(m, f, events, id, gone, first);
      OneMoreStep(m, f, events, gone, first);
      DivergenceShows(Spared(m, events, first), Struck(f, events, gone, first), id,
          GoneAfter(events[..first], gone), events[first]);
    }
  }

  lemma FailureRelates(m: Manager, failure: Event, id: DeviceId)
    requires FailsAlone(m, failure, id)
    ensures Related(m, Step(m, failure), id, Landed(failure))
  {
  }

  /**
   * Isolation of failures, exactly: whatever a manager does about other targets after one target's
   * attempt or session failed, their entries are at every moment what they would be without that
   * failure, if and only if no known target's attempt connects while the capture is closed that
   * would be open without the failure, and starting it then fails.
   */
  lemma {:induction false} FailuresAreIsolated(m: Manager, failure: Event, events: seq<Event>, id: DeviceId)
    requires FailsAlone(m, failure, id) && NoneConcerns(m, events, id)
    ensures AgreeThroughout(m, Step(m, failure), events, id, Landed(failure))
            <==> NeverDiverges(m, Step(m, failure), events, Landed(failure))
  {
    FailureRelates(m, failure, id);
    AgreeExactly(m, Step(m, failure), events, id, Landed(failure));
  }

  lemma RefusalRelates(m: Manager, frame: FanoutAudioFrame, refused: set<DeviceId>, id: DeviceId)
    ensures Related(Capture(m, CapturedFrame(frame, refused - {id})),
        Capture(m, CapturedFrame(frame, refused + {id})), id, None)
  {
  }

  /** The same if the failure is that the target's branch refuses a frame. */
  lemma {:induction false} RefusalsAreIsolated(
      m: Manager, frame: FanoutAudioFrame, refused: set<DeviceId>, events: seq<Event>, id: DeviceId)
    requires NoneConcerns(Capture(m, CapturedFrame(frame, refused - {id})), events, id)
    ensures var taken := Capture(m, CapturedFrame(frame, refused - {id}));
            var refusedToo := Capture(m, CapturedFrame(frame, refused + {id}));
            AgreeThroughout(taken, refusedToo, events, id, None) <==> NeverDiverges(taken, refusedToo, events, None)
  {
    RefusalRelates(m, frame, refused, id);
    var taken := Capture(m, CapturedFrame(frame, refused - {id}));
    AgreeExactly(taken, Capture(m, CapturedFrame(frame, refused + {id})), events, id, None);
  }

  // ----- The failure of a target that streams -----

  /** A known target's attempt connects, the capture is closed, and starting the capture or the mirror fails. */
  predicate StartsInVain(m: Manager, event: Event) {
    && event.Reported? && event.index < |m.flights| && event.outcome.Connects?
    && m.flights[event.index].target.receiverId in m.entries
    && event.outcome.capture != CaptureStarts && !m.captureOpen
  }

  /** No step of the run after the failure starts the capture in vain. */
  ghost predicate NeverStartsInVain(f: Manager, events: seq<Event>) {
    forall n | 0 <= n < |events| :: !StartsInVain(StepAll(f, events[..n]), events[n])
  }

  lemma OpenStays(m: Manager, event: Event, id: DeviceId)
    requires m.captureOpen && IsLive(m, id) && !Concerns(m, event, id)
    ensures Step(m, event).captureOpen && IsLive(Step(m, event), id)
  {
    if event.IdleCheck? { assert HasLiveTarget(m); }
  }

  lemma {:induction false} OpenThroughout(m: Manager, events: seq<Event>, id: DeviceId, n: nat)
    requires m.captureOpen && IsLive(m, id) && NoneConcerns(m, events, id) && n <= |events|
    ensures Spared(m, events, n).captureOpen && IsLive(Spared(m, events, n), id)
  {
    if n == 0 {
      assert events[..0] == [];
    } else {
      OpenThroughout(m, events, id, n - 1);
      OneMoreStep(m, m, events, None, n - 1);
      OpenStays(Spared(m, events, n - 1), events[n - 1], id);
    }
  }

  lemma {:induction false} NothingMoves(events: seq<Event>)
    ensures AllMoved(events, None) == events && GoneAfter(events, None) == None
  {
    if events != [] { NothingMoves(events[..|events| - 1]); }
  }

  lemma DivergesInVain(a: Manager, b: Manager, id: DeviceId, event: Event)
    requires Related(a, b, id, None) && a.captureOpen && !Concerns(a, event, id)
    ensures Diverges(a, b, event) <==> StartsInVain(b, event)
  {
  }

  lemma {:induction false} VainAt(m: Manager, f: Manager, events: seq<Event>, id: DeviceId, n: nat)
    requires Related(m, f, id, None) && NoneConcerns(m, events, id) && m.captureOpen && IsLive(m, id)
    requires n < |events| && forall k | 0 <= k < n :: !DivergesAt(m, f, events, None, k)
    ensures DivergesAt(m, f, events, None, n) <==> StartsInVain(StepAll(f, events[..n]), events[n])
  {
    RelatedUntil(m, f, events, id, None, n);
    OpenThroughout(m, events, id, n);
    NothingMoves(events[..n]);
    DivergesInVain(Spared(m, events, n), Struck(f, events, None, n), id, events[n]);
  }

  lemma {:induction false} NeverInVain(m: Manager, f: Manager, events: seq<Event>, id: DeviceId)
    requires Related(m, f, id, None) && NoneConcerns(m, events, id) && m.captureOpen && IsLive(m, id)
    ensures NeverDiverges(m, f, events, None) <==> NeverStartsInVain(f, events)
  {
    if NeverDiverges(m, f, events, None) {
      forall n | 0 <= n < |events| ensures !StartsInVain(StepAll(f, events[..n]), events[n]) {
        VainAt(m, f, events, id, n);
      }
    } else {
      var n :| 0 <= n < |events| && DivergesAt(m, f, events, None, n);
      var first := FirstDivergence(m, f, events, None, n);
      VainAt(m, f, events, id, first);
    }
  }

  /** After every prefix of the same events the other devices' entries are the same. */
  ghost predicate AgreeOnOthers(m: Manager, f: Manager, events: seq<Event>, id: DeviceId) {
    forall n | 0 <= n <= |events| :: SameApart(StepAll(m, events[..n]).entries, StepAll(f, events[..n]).entries, id)
  }

  lemma {:induction false} AgreeWithoutMoving(m: Manager, f: Manager, events: seq<Event>, id: DeviceId)
    ensures AgreeThroughout(m, f, events, id, None) <==> AgreeOnOthers(m, f, events, id)
  {
    forall n | 0 <= n <= |events| ensures Struck(f, events, None, n) == StepAll(f, events[..n]) {
      NothingMoves(events[..n]);
    }
    if AgreeThroughout(m, f, events, id, None) {
      forall n | 0 <= n <= |events|
        ensures SameApart(StepAll(m, events[..n]).entries, StepAll(f, events[..n]).entries, id)
      {
        assert SameApart(Spared(m, events, n).entries, Struck(f, events, None, n).entries, id);
      }
    }
  }

  /**
   * For a target that streams in a reachable state the condition can be read off the run with the
   * failure alone: the other targets are what they would be without it, at every moment, if and
   * only if no known target's attempt connects while the capture is closed and cannot be started.
   */
  lemma {:induction false} StreamingTargetIsIsolated(before: seq<Event>, events: seq<Event>, id: DeviceId)
    requires id in Run(before).entries && Run(before).entries[id].Active?
    requires Run(before).entries[id].session.snapshot.state == Streaming && NoneConcerns(Run(before), events, id)
    ensures AgreeOnOthers(Run(before), Tick(Run(before), id, false), events, id)
            <==> NeverStartsInVain(Tick(Run(before), id, false), events)
  {
    var m, f := Run(before), Tick(Run(before), id, false);
    G.StreamsFromOpenCapture(before, id);
    FailureRelates(m, Ticked(id, false), id);
    AgreeExactly(m, f, events, id, None);
    AgreeWithoutMoving(m, f, events, id);
    NeverInVain(m, f, events, id);
  }

  // ----- A run in which it reaches another target -----

  /** A target is added and started, and its attempt connects. */
  function Joining(target: SenderTarget, start: CaptureStart): seq<Event> {
    [Add(target, 0)] + [Start(target.receiverId, 0)] + [Reported(0, Connects(start), 0)]
  }

  ghost function Joined(m: Manager, target: SenderTarget, start: CaptureStart): Manager {
    Report(Launch(QueueConnect(m, target, 0), target.receiverId, 0), 0, Connects(start), 0)
  }

  lemma JoiningJoins(m: Manager, target: SenderTarget, start: CaptureStart)
    ensures StepAll(m, Joining(target, start)) == Joined(m, target, start)
  {
    var added := [Add(target, 0)];
    StepAllMore(m, [], Add(target, 0));
    assert [] + added == added && StepAll(m, []) == m;
    StepAllMore(m, added, Start(target.receiverId, 0));
    StepAllMore(m, added + [Start(target.receiverId, 0)], Reported(0, Connects(start), 0));
  }

  lemma JoinedByCapture(m: Manager, target: SenderTarget, start: CaptureStart)
    requires m.flights == [] && target.receiverId !in m.entries && start != MirrorFails
    ensures var m' := Joined(m, target, start);
            && m'.flights == [] && m'.entries.Keys == m.entries.Keys + {target.receiverId}
            && m'.entries[target.receiverId].Active?
            && m'.entries[target.receiverId].session.snapshot.state
               == (if m.captureOpen || start == CaptureStarts then Streaming else Error)
            && (m'.captureOpen <==> m.captureOpen || start == CaptureStarts)
  {
  }

  /** The only target streams. */
  predicate StreamsAlone(m: Manager, id: DeviceId) {
    && m.flights == [] && m.captureOpen && m.entries.Keys == {id}
    && m.entries[id].Active? && m.entries[id].session.snapshot.state == Streaming
  }

  lemma FirstStreamsAlone(target: SenderTarget)
    ensures StreamsAlone(Run(Joining(target, CaptureStarts)), target.receiverId)
  {
    JoiningJoins(NO_TARGETS, target, CaptureStarts);
    JoinedByCapture(NO_TARGETS, target, CaptureStarts);
  }

  ghost predicate IsIn(m: Manager, id: DeviceId, state: SessionState) {
    id in m.entries && EntrySnapshot(m.entries[id]).state == state
  }

  lemma SecondFindsCapture(m: Manager, id: DeviceId, other: SenderTarget)
    requires StreamsAlone(m, id) && other.receiverId != id
    ensures IsIn(StepAll(m, [IdleCheck] + Joining(other, CaptureFails)), other.receiverId, Streaming)
  {
    IdleThenJoins(m, other);
    assert id in m.entries && HasLiveTarget(m);
    JoinedByCapture(StopIfIdle(m), other, CaptureFails);
  }

  lemma SecondStartsInVain(m: Manager, id: DeviceId, other: SenderTarget)
    requires StreamsAlone(m, id) && other.receiverId != id
    ensures IsIn(StepAll(Tick(m, id, false), [IdleCheck] + Joining(other, CaptureFails)), other.receiverId, Error)
  {
    var f := Tick(m, id, false);
    IdleThenJoins(f, other);
    assert f.entries.Keys == {id} && !HasLiveTarget(f);
    JoinedByCapture(StopIfIdle(f), other, CaptureFails);
  }

  lemma IdleThenJoins(m: Manager, other: SenderTarget)
    ensures StepAll(m, [IdleCheck] + Joining(other, CaptureFails)) == Joined(StopIfIdle(m), other, CaptureFails)
  {
    StepAllMore(m, [], IdleCheck);
    assert [] + [IdleCheck] == [IdleCheck] && StepAll(m, []) == m;
    StepAllConcat(m, [IdleCheck], Joining(other, CaptureFails));
    JoiningJoins(StopIfIdle(m), other, CaptureFails);
  }

  /**
   * It happens: one target streams, and after an idle check a second one connects while the capture
   * could not be started. It streams; had the first one failed before, it would be in error.
   */
  lemma FailureMayCloseCapture(first: SenderTarget, second: SenderTarget)
    requires first.receiverId != second.receiverId
    ensures var before, after := Joining(first, CaptureStarts), [IdleCheck] + Joining(second, CaptureFails);
            && IsIn(Run(before + after), second.receiverId, Streaming)
            && IsIn(Run(before + [Ticked(first.receiverId, false)] + after), second.receiverId, Error)
  {
    var before, after := Joining(first, CaptureStarts), [IdleCheck] + Joining(second, CaptureFails);
    var failure := Ticked(first.receiverId, false);
    FirstStreamsAlone(first);
    StepAllConcat(NO_TARGETS, before, after);
    SecondFindsCapture(Run(before), first.receiverId, second);
    StepAllConcat(NO_TARGETS, before + [failure], after);
    StepAllMore(NO_TARGETS, before, failure);
    SecondStartsInVain(Run(before), first.receiverId, second);
  }
}
