/**
 * What becomes of one target among the others: its life from the first request to the last failure,
 * and the three attempts that a failing connection gets.
 */
module SenderOutcomes {
  import opened Options
  import opened SenderTargets
  import G = SenderGuarantees
  import I = SenderIsolation

  // ----- The life of one device -----

  /** Queued for an attempt, trying it, streaming, broken until its next tick, given up. */
  datatype Phase = Absent | Queued | Trying | Streams | Broken | GivenUp

  function PhaseOf(m: Manager, id: DeviceId): Phase {
    if id !in m.entries then Absent
    else
      match m.entries[id]
      case Pending(_, _, _, inFlight) => if inFlight then Trying else Queued
      case Active(session) => if session.snapshot.state == Streaming then Streams else Broken
      case Failed(_) => GivenUp
  }

  /** What an event means for one device. */
  datatype Happening =
    | Requested
    | Dismissed
    | Launched
    | Succeeded(captureRuns: bool)
    | FailedForNow
    | FailedForGood
    | Found(healthy: bool)
    | FrameRefused
    | CaptureLost
    | Nothing

  function Happens(m: Manager, event: Event, id: DeviceId): Happening {
    match event
    case Add(target, _) => if target.receiverId == id then Requested else Nothing
    case Drop(dropped) => if dropped == id then Dismissed else Nothing
    case Start(started, now) =>
      if started == id && id in m.entries && m.entries[id].Pending? && m.entries[id].nextAttemptAt <= now then Launched
      else Nothing
    case Reported(index, outcome, _) =>
      if index >= |m.flights| || m.flights[index].target.receiverId != id then Nothing
      else
        (match outcome
         case Connects(start) => Succeeded(m.captureOpen || start == CaptureStarts)
         case Fails(retryable) => if retryable && m.flights[index].attempt <= 2 then FailedForNow else FailedForGood)
    case Ticked(ticked, healthy) => if ticked == id then Found(healthy) else Nothing
    case Read(read) =>
      if !m.captureOpen then Nothing
      else if read.CaptureBroken? then CaptureLost
      else if read.CapturedFrame? && id in read.refused then FrameRefused
      else Nothing
    case IdleCheck => Nothing
  }

  /** The life of a device: what follows on what. Whatever is not listed leaves it where it is. */
  function NextPhase(phase: Phase, happening: Happening): Phase {
    match (happening, phase)
    case (Requested, Absent) => Queued
    case (Requested, GivenUp) => Queued
    case (Requested, Broken) => Queued
    case (Dismissed, _) => Absent
    case (Launched, Queued) => Trying
    case (Succeeded(_), Absent) => Absent
    case (Succeeded(captureRuns), _) => if captureRuns then Streams else Broken
    case (FailedForNow, Trying) => Queued
    case (FailedForGood, Absent) => Absent
    case (FailedForGood, _) => GivenUp
    case (Found(healthy), Streams) => if healthy then Streams else GivenUp
    case (Found(_), Broken) => GivenUp
    case (FrameRefused, Streams) => GivenUp
    case (FrameRefused, Broken) => GivenUp
    case (CaptureLost, Streams) => Broken
    case _ => phase
  }

  lemma ConnectedLife(m: Manager, flight: Flight, start: CaptureStart, id: DeviceId)
    requires id in m.entries && m.entries[id].Active? && m.entries[id].session.snapshot.state == Streaming ==>
               m.captureOpen
    ensures PhaseOf(Connected(m, flight, start), id)
         == if flight.target.receiverId != id then PhaseOf(m, id)
            else NextPhase(PhaseOf(m, id), Succeeded(m.captureOpen || start == CaptureStarts))
  {
  }

  lemma FailedLife(m: Manager, flight: Flight, retryable: bool, now: Instant, id: DeviceId)
    ensures PhaseOf(ConnectFailed(m, flight, retryable, now), id)
         == if flight.target.receiverId != id then PhaseOf(m, id)
            else NextPhase(PhaseOf(m, id), if retryable && flight.attempt <= 2 then FailedForNow else FailedForGood)
  {
  }

  lemma ReportedLife(m: Manager, index: nat, outcome: Outcome, now: Instant, id: DeviceId)
    requires id in m.entries ==> G.EntryOk(m, id, m.entries[id])
    ensures PhaseOf(Report(m, index, outcome, now), id)
         == NextPhase(PhaseOf(m, id), Happens(m, Reported(index, outcome, now), id))
  {
    if index < |m.flights| {
      var landed, flight := m.(flights := Without(m.flights, index)), m.flights[index];
      match outcome
      case Connects(start) => ConnectedLife(landed, flight, start, id);
      case Fails(retryable) => FailedLife(landed, flight, retryable, now, id);
    }
  }

  lemma RequestedLife(m: Manager, target: SenderTarget, now: Instant, id: DeviceId)
    requires id in m.entries ==> G.EntryOk(m, id, m.entries[id])
    ensures PhaseOf(QueueConnect(m, target, now), id) == NextPhase(PhaseOf(m, id), Happens(m, Add(target, now), id))
  {
  }

  lemma DismissedLife(m: Manager, dropped: DeviceId, id: DeviceId)
    ensures PhaseOf(Remove(m, dropped), id) == if dropped == id then Absent else PhaseOf(m, id)
  {
  }

  lemma StartedLife(m: Manager, started: DeviceId, now: Instant, id: DeviceId)
    ensures PhaseOf(Launch(m, started, now), id) == NextPhase(PhaseOf(m, id), Happens(m, Start(started, now), id))
  {
  }

  lemma TickedLife(m: Manager, ticked: DeviceId, healthy: bool, id: DeviceId)
    requires id in m.entries ==> G.EntryOk(m, id, m.entries[id])
    ensures PhaseOf(Tick(m, ticked, healthy), id)
         == if ticked == id then NextPhase(PhaseOf(m, id), Found(healthy)) else PhaseOf(m, id)
  {
    if ticked == id && id in m.entries { assert Tick(m, id, healthy).entries[id] == TickEntry(m.entries[id], healthy); }
  }

  lemma CaptureLife(m: Manager, read: CaptureRead, id: DeviceId)
    ensures PhaseOf(Capture(m, read), id) == NextPhase(PhaseOf(m, id), Happens(m, Read(read), id))
  {
  }

  /** No device notices what happens to others, and each one lives as said above. */
  lemma StepLives(m: Manager, event: Event, id: DeviceId)
    requires id in m.entries ==> G.EntryOk(m, id, m.entries[id])
    ensures PhaseOf(Step(m, event), id) == NextPhase(PhaseOf(m, id), Happens(m, event, id))
  {
    match event
    case Add(target, now) => RequestedLife(m, target, now, id);
    case Reported(index, outcome, now) => ReportedLife(m, index, outcome, now, id);
    case Read(read) => CaptureLife(m, read, id);
    case _ => OrderedLife(m, event, id);
  }

  lemma OrderedLife(m: Manager, event: Event, id: DeviceId)
    requires event.Drop? || event.Start? || event.Ticked? || event.IdleCheck?
    requires id in m.entries ==> G.EntryOk(m, id, m.entries[id])
    ensures PhaseOf(Step(m, event), id) == NextPhase(PhaseOf(m, id), Happens(m, event, id))
  {
    match event
    case Drop(dropped) => DismissedLife(m, dropped, id);
    case Start(started, now) => StartedLife(m, started, now, id);
    case Ticked(ticked, healthy) => TickedLife(m, ticked, healthy, id);
    case IdleCheck =>
  }

  lemma EntryIsOk(m: Manager, id: DeviceId)
    requires G.Inv(m)
    ensures id in m.entries ==> G.EntryOk(m, id, m.entries[id])
  {
  }

  /** What happened to the device during a run. */
  ghost function Story(events: seq<Event>, id: DeviceId): seq<Happening> {
    if events == [] then []
    else
      var earlier, last := events[..|events| - 1], events[|events| - 1];
      Story(earlier, id) + [Happens(Run(earlier), last, id)]
  }

  function Lived(story: seq<Happening>): Phase {
    if story == [] then Absent else NextPhase(Lived(story[..|story| - 1]), story[|story| - 1])
  }

  lemma {:induction false} StoryMore(events: seq<Event>, last: Event, id: DeviceId)
    ensures Story(events + [last], id) == Story(events, id) + [Happens(Run(events), last, id)]
  {
    assert (events + [last])[..|events|] == events;
  }

  lemma {:induction false} LivedMore(story: seq<Happening>, last: Happening)
    ensures Lived(story + [last]) == NextPhase(Lived(story), last)
  {
    assert (story + [last])[..|story|] == story;
  }

  lemma {:induction false} OneMoreLives(events: seq<Event>, last: Event, id: DeviceId)
    ensures PhaseOf(Run(events + [last]), id) == NextPhase(PhaseOf(Run(events), id), Happens(Run(events), last, id))
  {
    G.Reachable(events);
    EntryIsOk(Run(events), id);
    StepLives(Run(events), last, id);
    StepAllMore(NO_TARGETS, events, last);
  }

  /** In every run, under every race, each device is where its own story takes it. */
  lemma {:induction false} DevicesLiveAlone(events: seq<Event>, id: DeviceId)
    ensures PhaseOf(Run(events), id) == Lived(Story(events, id))
  {
    if events == [] {
      assert Run([]) == NO_TARGETS;
    } else {
      var earlier, last := events[..|events| - 1], events[|events| - 1];
      assert events == earlier + [last];
      DevicesLiveAlone(earlier, id);
      OneMoreLives(earlier, last, id);
      StoryMore(earlier, last, id);
      LivedMore(Story(earlier, id), Happens(Run(earlier), last, id));
    }
  }

  /** The device was requested, and not dismissed since. */
  ghost predicate IsWanted(events: seq<Event>, id: DeviceId) {
    exists i :: 0 <= i < |events| && RequestedAt(events, id, i)
  }

  ghost predicate RequestedAt(events: seq<Event>, id: DeviceId, i: nat)
    requires i < |events|
  {
    && events[i].Add? && events[i].target.receiverId == id
    && forall j | i < j < |events| :: events[j] != Drop(id)
  }

  lemma {:induction false} WantedMore(events: seq<Event>, last: Event, id: DeviceId)
    ensures IsWanted(events + [last], id)
            <==> (last.Add? && last.target.receiverId == id) || (IsWanted(events, id) && last != Drop(id))
  {
    var longer := events + [last];
    if last.Add? && last.target.receiverId == id { assert RequestedAt(longer, id, |events|); }
    if IsWanted(events, id) && last != Drop(id) {
      var i :| 0 <= i < |events| && RequestedAt(events, id, i);
      assert RequestedAt(longer, id, i);
    }
    if IsWanted(longer, id) && !(last.Add? && last.target.receiverId == id) {
      var i :| 0 <= i < |longer| && RequestedAt(longer, id, i);
      assert longer[|events|] != Drop(id);
      forall j | i < j < |events| ensures events[j] != Drop(id) { assert longer[j] != Drop(id); }
      assert RequestedAt(events, id, i);
    }
  }

  lemma StepKnows(m: Manager, event: Event, id: DeviceId)
    ensures id in Step(m, event).entries
            <==> (event.Add? && event.target.receiverId == id) || (id in m.entries && event != Drop(id))
  {
  }

  /** A device is known from its request to its dismissal, whatever becomes of its attempts. */
  lemma {:induction false} KnownExactly(events: seq<Event>, id: DeviceId)
    ensures id in Run(events).entries <==> IsWanted(events, id)
  {
    if events != [] {
      var earlier, last := events[..|events| - 1], events[|events| - 1];
      KnownExactly(earlier, id);
      assert events == earlier + [last];
      StepAllMore(NO_TARGETS, earlier, last);
      StepKnows(Run(earlier), last, id);
      WantedMore(earlier, last, id);
    }
  }

  // ----- The capture -----

  /** Some target is queued, trying, streaming or broken. */
  ghost predicate SomeoneLives(m: Manager) {
    exists id :: PhaseOf(m, id) in {Queued, Trying, Streams, Broken}
  }

  /** A known device's attempt connects, and the capture could at least be opened. */
  predicate OpensCapture(m: Manager, event: Event) {
    && event.Reported? && event.outcome.Connects? && event.outcome.capture != CaptureFails
    && event.index < |m.flights| && PhaseOf(m, m.flights[event.index].target.receiverId) != Absent
  }

  /** The capture opens with the first connection and closes when an idle check finds no living target. */
  lemma CaptureFollows(m: Manager, event: Event)
    ensures Step(m, event).captureOpen
            <==> OpensCapture(m, event) || (m.captureOpen && (event.IdleCheck? ==> SomeoneLives(m)))
  {
    if HasLiveTarget(m) {
      var id :| id in m.entries && !m.entries[id].Failed?;
      assert PhaseOf(m, id) in {Queued, Trying, Streams, Broken};
    }
  }

  // ----- A failing attempt -----

  const HALF_A_SECOND := 500_000_000

  /** Waiting for the next attempt, with the failed one reported. */
  function Waiting(target: SenderTarget, failed: nat, at: Instant): Entry {
    Pending(target, Snapshot(Error, failed, Some(at)), at, false)
  }

  /**
   * The first failure is retried half a second later, the second one and a half, and the third one,
   * or one that is not worth retrying, is final. Nobody else is affected.
   */
  lemma FailureIsRetriedExactly(m: Manager, index: nat, retryable: bool, now: Instant)
    requires G.Inv(m) && index < |m.flights|
    requires var id := m.flights[index].target.receiverId; id in m.entries && m.entries[id].Pending?
    ensures var flight, m' := m.flights[index], Report(m, index, Fails(retryable), now);
            var id, attempt := flight.target.receiverId, flight.attempt;
            && 1 <= attempt <= 3
            && m'.entries == m.entries[id :=
                 if retryable && attempt == 1 then Waiting(m.entries[id].target, 1, now + HALF_A_SECOND)
                 else if retryable && attempt == 2 then Waiting(m.entries[id].target, 2, now + 3 * HALF_A_SECOND)
                 else Failed(Snapshot(Error, attempt, None))]
  {
    assert m.flights[index] in m.flights;
  }

  /**
   * A known device whose attempt connects becomes active with that attempt's target and number, and
   * with nothing offered yet: streaming if the capture runs or starts, and in error if it does not.
   * Of the others only active ones are affected, and only by a capture that fails to start.
   */
  lemma SuccessActivatesExactly(m: Manager, index: nat, start: CaptureStart, now: Instant)
    requires index < |m.flights| && m.flights[index].target.receiverId in m.entries
    ensures var flight, m' := m.flights[index], Report(m, index, Connects(start), now);
            var id, runs := flight.target.receiverId, m.captureOpen || start == CaptureStarts;
            && m'.entries.Keys == m.entries.Keys
            && m'.entries[id]
               == Active(TargetSession(flight.target,
                                       Snapshot(if runs then Streaming else Error, flight.attempt, None), []))
            && (forall d | d in m.entries && d != id ::
                  if runs || !m.entries[d].Active? then m'.entries[d] == m.entries[d]
                  else m'.entries[d].Active? && PhaseOf(m', d) == Broken)
  {
  }

  // ----- Three attempts -----

  /** Known, with so many failed attempts, waiting for the next one, and none under way. */
  ghost predicate IsWaiting(m: Manager, id: DeviceId, failed: nat, at: Instant) {
    && PhaseOf(m, id) == Queued
    && m.entries[id].snapshot.attemptCount == failed && m.entries[id].nextAttemptAt == at
    && !G.InFlight(m.flights, id)
  }

  /** The attempt with this number is the device's only one under way. */
  ghost predicate IsTrying(m: Manager, id: DeviceId, attempt: nat) {
    PhaseOf(m, id) == Trying && OnlyFlight(m.flights, id, attempt)
  }

  ghost predicate OnlyFlight(flights: seq<Flight>, id: DeviceId, attempt: nat) {
    && G.InFlight(flights, id)
    && forall i | 0 <= i < |flights| && flights[i].target.receiverId == id :: flights[i].attempt == attempt
         && forall j | 0 <= j < |flights| && j != i :: flights[j].target.receiverId != id
  }

  lemma QuietStep(m: Manager, event: Event, id: DeviceId)
    requires !I.Concerns(m, event, id) && id in m.entries && m.entries[id].Pending?
    ensures var m' := Step(m, event);
            && id in m'.entries && m'.entries[id] == m.entries[id]
            && m'.launched[id] == m.launched[id]
  {
    match event
    case Reported(index, outcome, now) => QuietReport(m, index, outcome, now, id);
    case Read(read) => QuietRead(m, read, id);
    case _ =>
  }

  lemma QuietReport(m: Manager, index: nat, outcome: Outcome, now: Instant, id: DeviceId)
    requires index < |m.flights| ==> m.flights[index].target.receiverId != id
    requires id in m.entries && m.entries[id].Pending?
    ensures var m' := Report(m, index, outcome, now);
            id in m'.entries && m'.entries[id] == m.entries[id] && m'.launched == m.launched
  {
  }

  lemma QuietRead(m: Manager, read: CaptureRead, id: DeviceId)
    requires id in m.entries && m.entries[id].Pending? && (read.CapturedFrame? ==> id !in read.refused)
    ensures var m' := Capture(m, read);
            id in m'.entries && m'.entries[id] == m.entries[id] && m'.launched == m.launched
  {
  }

  lemma {:induction false} WithoutOther(flights: seq<Flight>, index: nat, id: DeviceId, attempt: nat)
    requires index < |flights| && flights[index].target.receiverId != id
    ensures !G.InFlight(flights, id) ==> !G.InFlight(Without(flights, index), id)
    ensures OnlyFlight(flights, id, attempt) ==> OnlyFlight(Without(flights, index), id, attempt)
  {
    var fewer := Without(flights, index);
    forall i | 0 <= i < |fewer| ensures fewer[i] == flights[if i < index then i else i + 1] {
    }
    if OnlyFlight(flights, id, attempt) { G.Retained(flights, index, id); }
  }

  lemma {:induction false} WithOther(flights: seq<Flight>, other: Flight, id: DeviceId, attempt: nat)
    requires other.target.receiverId != id
    ensures !G.InFlight(flights, id) ==> !G.InFlight(flights + [other], id)
    ensures OnlyFlight(flights, id, attempt) ==> OnlyFlight(flights + [other], id, attempt)
  {
    if OnlyFlight(flights, id, attempt) { G.Extended(flights, other, id); }
  }

  lemma QuietFlights(m: Manager, event: Event, id: DeviceId, attempt: nat)
    requires G.Core(m) && !I.Concerns(m, event, id)
    ensures !G.InFlight(m.flights, id) ==> !G.InFlight(Step(m, event).flights, id)
    ensures OnlyFlight(m.flights, id, attempt) ==> OnlyFlight(Step(m, event).flights, id, attempt)
  {
    match event
    case Start(started, now) =>
      if IsDue(m, started, now) {
        assert G.EntryOk(m, started, m.entries[started]);
        WithOther(m.flights, Launch(m, started, now).flights[|m.flights|], id, attempt);
      }
    case Reported(index, _, _) =>
      if index < |m.flights| { WithoutOther(m.flights, index, id, attempt); }
    case _ =>
  }

  /** What happens to others does not disturb a device that waits or tries. */
  lemma {:induction false} Undisturbed(m: Manager, events: seq<Event>, id: DeviceId, attempt: nat, at: Instant)
    requires G.Inv(m) && I.NoneConcerns(m, events, id)
    ensures IsWaiting(m, id, attempt, at) ==> IsWaiting(StepAll(m, events), id, attempt, at)
    ensures IsTrying(m, id, attempt) ==> IsTrying(StepAll(m, events), id, attempt)
    ensures IsWaiting(m, id, attempt, at) || IsTrying(m, id, attempt) ==>
              StepAll(m, events).launched[id] == m.launched[id]
              && StepAll(m, events).entries[id] == m.entries[id]
    decreases |events|
  {
    if events != [] {
      var earlier, last := events[..|events| - 1], events[|events| - 1];
      assert forall n | 0 <= n <= |earlier| :: events[..n] == earlier[..n];
      forall n | 0 <= n < |earlier| ensures !I.Concerns(I.Spared(m, earlier, n), earlier[n], id) {
        assert !I.Concerns(I.Spared(m, events, n), events[n], id);
      }
      Undisturbed(m, earlier, id, attempt, at);
      assert !I.Concerns(I.Spared(m, events, |earlier|), events[|earlier|], id);
      G.StepAllKeeps(m, earlier);
      assert events == earlier + [last];
      StepAllMore(m, earlier, last);
      if IsWaiting(m, id, attempt, at) || IsTrying(m, id, attempt) {
        QuietStep(StepAll(m, earlier), last, id);
        QuietFlights(StepAll(m, earlier), last, id, attempt);
      }
    }
  }

  /** One attempt: what is done about others while the device waits, its start, and its failure. */
  datatype Attempt = Attempt(waiting: seq<Event>, start: Instant, meanwhile: seq<Event>, index: nat, failedAt: Instant)

  function AttemptEvents(id: DeviceId, a: Attempt): seq<Event> {
    a.waiting + [Start(id, a.start)] + a.meanwhile + [Reported(a.index, Fails(true), a.failedAt)]
  }

  ghost function WhenStarted(m: Manager, id: DeviceId, a: Attempt): Manager {
    Launch(StepAll(m, a.waiting), id, a.start)
  }

  ghost function WhenReported(m: Manager, id: DeviceId, a: Attempt): Manager {
    StepAll(WhenStarted(m, id, a), a.meanwhile)
  }

  /** It starts at the given time or later, is the one reported, and only others are dealt with in between. */
  ghost predicate IsAttempt(m: Manager, id: DeviceId, at: Instant, a: Attempt) {
    && at <= a.start
    && I.NoneConcerns(m, a.waiting, id)
    && I.NoneConcerns(WhenStarted(m, id, a), a.meanwhile, id)
    && a.index < |WhenReported(m, id, a).flights|
    && WhenReported(m, id, a).flights[a.index].target.receiverId == id
  }

  lemma AttemptInSteps(m: Manager, id: DeviceId, a: Attempt)
    ensures StepAll(m, AttemptEvents(id, a)) == Report(WhenReported(m, id, a), a.index, Fails(true), a.failedAt)
  {
    StepAllMore(m, a.waiting, Start(id, a.start));
    StepAllConcat(m, a.waiting + [Start(id, a.start)], a.meanwhile);
    StepAllMore(m, a.waiting + [Start(id, a.start)] + a.meanwhile, Reported(a.index, Fails(true), a.failedAt));
  }

  lemma StartTries(m: Manager, id: DeviceId, failed: nat, at: Instant, now: Instant)
    requires G.Inv(m) && IsWaiting(m, id, failed, at) && at <= now
    ensures var m' := Launch(m, id, now);
            && IsTrying(m', id, failed + 1) && m'.launched[id] == m.launched[id] + 1
            && m'.entries[id].target == m.entries[id].target
  {
    assert G.EntryOk(m, id, m.entries[id]);
    var m' := Launch(m, id, now);
    assert m'.flights[|m.flights|] == Flight(m.entries[id].target, failed + 1);
    assert forall i | 0 <= i < |m.flights| :: m'.flights[i] == m.flights[i];
  }

  lemma FailureWaits(m: Manager, id: DeviceId, attempt: nat, index: nat, now: Instant)
    requires G.Inv(m) && IsTrying(m, id, attempt) && index < |m.flights| && m.flights[index].target.receiverId == id
    ensures var m' := Report(m, index, Fails(true), now);
            && m'.launched == m.launched && !G.InFlight(m'.flights, id)
            && (attempt == 1 ==> IsWaiting(m', id, 1, now + HALF_A_SECOND))
            && (attempt == 2 ==> IsWaiting(m', id, 2, now + 3 * HALF_A_SECOND))
            && (attempt == 3 ==> id in m'.entries && m'.entries[id] == Failed(Snapshot(Error, 3, None)))
  {
    FailureIsRetriedExactly(m, index, true, now);
    var fewer := Without(m.flights, index);
    forall i | 0 <= i < |fewer| ensures fewer[i] == m.flights[if i < index then i else i + 1] {
    }
  }

  lemma AttemptStarts(m: Manager, id: DeviceId, failed: nat, at: Instant, a: Attempt)
    requires G.Inv(m) && failed < 3 && IsWaiting(m, id, failed, at) && at <= a.start
    requires I.NoneConcerns(m, a.waiting, id)
    ensures var started := WhenStarted(m, id, a);
            G.Inv(started) && IsTrying(started, id, failed + 1) && started.launched[id] == m.launched[id] + 1
  {
    Undisturbed(m, a.waiting, id, failed, at);
    G.StepAllKeeps(m, a.waiting);
    StartTries(StepAll(m, a.waiting), id, failed, at, a.start);
    G.StepKeepsInv(StepAll(m, a.waiting), Start(id, a.start));
  }

  /** A device that waits gets its attempt, and if it fails waits again, or is given up after the third. */
  lemma AttemptFails(m: Manager, id: DeviceId, failed: nat, at: Instant, a: Attempt)
    requires G.Inv(m) && failed < 3 && IsWaiting(m, id, failed, at) && IsAttempt(m, id, at, a)
    ensures var m' := StepAll(m, AttemptEvents(id, a));
            && G.Inv(m') && m'.launched[id] == m.launched[id] + 1
            && (failed == 0 ==> IsWaiting(m', id, 1, a.failedAt + HALF_A_SECOND))
            && (failed == 1 ==> IsWaiting(m', id, 2, a.failedAt + 3 * HALF_A_SECOND))
            && (failed == 2 ==> id in m'.entries && m'.entries[id] == Failed(Snapshot(Error, 3, None)))
  {
    AttemptStarts(m, id, failed, at, a);
    Undisturbed(WhenStarted(m, id, a), a.meanwhile, id, failed + 1, at);
    G.StepAllKeeps(WhenStarted(m, id, a), a.meanwhile);
    FailureWaits(WhenReported(m, id, a), id, failed + 1, a.index, a.failedAt);
    AttemptInSteps(m, id, a);
    G.StepAllKeeps(m, AttemptEvents(id, a));
  }

  lemma RequestWaits(m: Manager, target: SenderTarget, now: Instant)
    requires !IsBusy(m, target.receiverId) && !G.InFlight(m.flights, target.receiverId)
    ensures IsWaiting(QueueConnect(m, target, now), target.receiverId, 0, now)
    ensures QueueConnect(m, target, now).launched == m.launched
  {
  }

  /**
   * Three attempts for a device that stays known and keeps failing: the first from its request on, the
   * second from half a second after the first failed, the third from one and a half seconds after the
   * second failed; whatever is done about other devices in between. Then it is given up.
   */
  lemma {:induction false} ThreeAttempts(
      before: seq<Event>, target: SenderTarget, now: Instant, first: Attempt, second: Attempt, third: Attempt)
    requires !IsBusy(Run(before), target.receiverId) && !G.InFlight(Run(before).flights, target.receiverId)
    requires var id, asked := target.receiverId, before + [Add(target, now)];
             && IsAttempt(Run(asked), id, now, first)
             && IsAttempt(Run(asked + AttemptEvents(id, first)), id, first.failedAt + HALF_A_SECOND, second)
             && IsAttempt(Run(asked + AttemptEvents(id, first) + AttemptEvents(id, second)), id,
                          second.failedAt + 3 * HALF_A_SECOND, third)
    ensures var id, asked := target.receiverId, before + [Add(target, now)];
            var once := asked + AttemptEvents(id, first);
            var twice := once + AttemptEvents(id, second);
            var thrice := twice + AttemptEvents(id, third);
            && Run(once).launched[id] == Run(before).launched[id] + 1
            && Run(twice).launched[id] == Run(before).launched[id] + 2
            && Run(thrice).launched[id] == Run(before).launched[id] + 3
            && id in Run(thrice).entries && Run(thrice).entries[id] == Failed(Snapshot(Error, 3, None))
  {
    var id, asked := target.receiverId, before + [Add(target, now)];
    var once := asked + AttemptEvents(id, first);
    var twice := once + AttemptEvents(id, second);
    G.Reachable(asked);
    StepAllMore(NO_TARGETS, before, Add(target, now));
    RequestWaits(Run(before), target, now);
    StepAllConcat(NO_TARGETS, asked, AttemptEvents(id, first));
    AttemptFails(Run(asked), id, 0, now, first);
    StepAllConcat(NO_TARGETS, once, AttemptEvents(id, second));
    AttemptFails(Run(once), id, 1, first.failedAt + HALF_A_SECOND, second);
    StepAllConcat(NO_TARGETS, twice, AttemptEvents(id, third));
    AttemptFails(Run(twice), id, 2, second.failedAt + 3 * HALF_A_SECOND, third);
  }
}
