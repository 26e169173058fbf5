/**
 * The sender manager as the object the program runs (crates/synchrosonic-transport/src/sender.rs):
 * a map of targets updated in place, and one loop iteration made of the phases in their order.
 */
module SenderManagers {
  import opened Options
  import opened Subsequences
  import opened NetworkWriters
  import opened SenderTargets
  import G = SenderGuarantees

  /** What one session's tick finds in its channels. */
  datatype InboundControl = HeartbeatAcked(nonce: nat) | StopRequested | ErrorReported | PeerDisconnected

  datatype NetworkEvent = AudioSent | HeartbeatSent | StopSent | WriterFailed

  datatype TickInput = TickInput(
    inbound: seq<InboundControl>, network: seq<NetworkEvent>, heartbeatDue: bool, heartbeatQueued: bool)

  /** Nothing in the channels speaks against the session. */
  predicate IsHealthy(input: TickInput) {
    && (forall c | c in input.inbound :: c.HeartbeatAcked?)
    && (forall e | e in input.network :: !e.WriterFailed?)
    && (input.heartbeatDue ==> input.heartbeatQueued)
  }

  class ManagedSession {
    var session: TargetSession

    constructor (session: TargetSession)
      ensures this.session == session
    {
      this.session := session;
    }

    method SetError()
      modifies this
      ensures session == AfterTick(old(session), false)
    {
      session := session.(snapshot := session.snapshot.(state := Error));
    }

    method DrainInbound(inbound: seq<InboundControl>)
      requires session.snapshot.state in {Streaming, Error}
      modifies this
      ensures session == AfterTick(old(session), forall c | c in inbound :: c.HeartbeatAcked?)
    {
      for i := 0 to |inbound|
        invariant session == AfterTick(old(session), forall c | c in inbound[..i] :: c.HeartbeatAcked?)
      {
        assert inbound[..i + 1] == inbound[..i] + [inbound[i]];
        if !inbound[i].HeartbeatAcked? { SetError(); }
      }
      assert inbound[..|inbound|] == inbound;
    }

    method DrainNetwork(network: seq<NetworkEvent>)
      requires session.snapshot.state in {Streaming, Error}
      modifies this
      ensures session == AfterTick(old(session), forall e | e in network :: !e.WriterFailed?)
    {
      for i := 0 to |network|
        invariant session == AfterTick(old(session), forall e | e in network[..i] :: !e.WriterFailed?)
      {
        assert network[..i + 1] == network[..i] + [network[i]];
        if network[i].WriterFailed? { SetError(); }
      }
      assert network[..|network|] == network;
    }

    /** Drain both channels, then send a heartbeat if the session still streams and one is due. */
    method Tick(input: TickInput) returns (stillStreaming: bool)
      requires session.snapshot.state in {Streaming, Error}
      modifies this
      ensures session == AfterTick(old(session), IsHealthy(input))
      ensures stillStreaming <==> session.snapshot.state == Streaming
    {
      DrainInbound(input.inbound);
      DrainNetwork(input.network);
      if session.snapshot.state == Streaming && input.heartbeatDue && !input.heartbeatQueued {
        SetError();
      }
      stillStreaming := session.snapshot.state == Streaming;
    }
  }

  // ----- Whole phases, as functions -----

  function DueTargets(m: Manager, now: Instant): set<DeviceId> {
    set id | id in m.entries && IsDue(m, id, now)
  }

  /** A target that was due is marked in flight; the others are as they were. */
  function Marked(m: Manager, due: set<DeviceId>): map<DeviceId, Entry>
  {
    map id | id in m.entries ::
      if id in due && m.entries[id].Pending? then MarkInFlight(m.entries[id]) else m.entries[id]
  }

  function Starts(ids: seq<DeviceId>, now: Instant): seq<Event> { MapSeq(id => Start(id, now), ids) }

  function LaunchAll(m: Manager, ids: seq<DeviceId>, now: Instant): Manager {
    if ids == [] then m else Launch(LaunchAll(m, ids[..|ids| - 1], now), ids[|ids| - 1], now)
  }

  lemma {:induction false} LaunchAllSteps(m: Manager, ids: seq<DeviceId>, now: Instant)
    ensures LaunchAll(m, ids, now) == StepAll(m, Starts(ids, now))
  {
    if ids != [] {
      assert Starts(ids, now)[..|ids| - 1] == Starts(ids[..|ids| - 1], now);
      LaunchAllSteps(m, ids[..|ids| - 1], now);
    }
  }

  function Members(ids: seq<DeviceId>): set<DeviceId> { set id | id in ids }

  predicate Distinct(ids: seq<DeviceId>) {
    forall i, j :: 0 <= i < j < |ids| ==> ids[i] != ids[j]
  }

  lemma LaunchMarks(m: Manager, done: set<DeviceId>, entries: map<DeviceId, Entry>, id: DeviceId, now: Instant)
    requires entries == Marked(m, done) && id !in done && IsDue(m, id, now)
    ensures IsDue(m.(entries := entries), id, now)
    ensures entries[id := MarkInFlight(entries[id])] == Marked(m, done + {id})
  {
    assert entries[id] == m.entries[id];
  }

  lemma {:induction false} LaunchAllCounts(m: Manager, ids: seq<DeviceId>, now: Instant)
    requires Distinct(ids) && forall id | id in ids :: IsDue(m, id, now)
    ensures var m' := LaunchAll(m, ids, now);
            && (forall id | id !in ids && id in m.entries :: id in m'.entries && m'.entries[id] == m.entries[id])
            && m'.launched == m.launched + multiset(ids)
            && |m'.flights| == |m.flights| + |ids|
  {
    if ids != [] {
      var earlier, last := ids[..|ids| - 1], ids[|ids| - 1];
      LaunchAllCounts(m, earlier, now);
      assert ids == earlier + [last];
      assert last in ids && last !in earlier;
      assert IsDue(LaunchAll(m, earlier, now), last, now);
    }
  }

  /** In whatever order the due targets are started, each of them gets exactly one attempt and nobody else does. */
  lemma {:induction false} LaunchAllMarks(m: Manager, ids: seq<DeviceId>, now: Instant)
    requires Distinct(ids) && forall id | id in ids :: IsDue(m, id, now)
    ensures LaunchAll(m, ids, now).entries == Marked(m, Members(ids))
  {
    if ids == [] {
      assert Marked(m, Members(ids)) == m.entries;
    } else {
      var earlier, last := ids[..|ids| - 1], ids[|ids| - 1];
      LaunchAllMarks(m, earlier, now);
      var done := Members(earlier);
      assert done + {last} == Members(ids) by { assert ids == earlier + [last]; }
      assert IsDue(m, last, now) by { assert last in ids; }
      LaunchMarks(m, done, LaunchAll(m, earlier, now).entries, last, now);
    }
  }

  datatype Arrived = Arrived(index: nat, outcome: Outcome)

  function ReportAll(m: Manager, reports: seq<Arrived>, now: Instant): Manager {
    if reports == [] then m
    else
      var last := reports[|reports| - 1];
      Report(ReportAll(m, reports[..|reports| - 1], now), last.index, last.outcome, now)
  }

  function Reports(reports: seq<Arrived>, now: Instant): seq<Event> {
    MapSeq((report: Arrived) => Reported(report.index, report.outcome, now), reports)
  }

  lemma {:induction false} ReportAllSteps(m: Manager, reports: seq<Arrived>, now: Instant)
    ensures ReportAll(m, reports, now) == StepAll(m, Reports(reports, now))
  {
    if reports != [] {
      assert Reports(reports, now)[..|reports| - 1] == Reports(reports[..|reports| - 1], now);
      ReportAllSteps(m, reports[..|reports| - 1], now);
    }
  }

  /** An active session after its tick, before the failed ones are moved. */
  function TickedInPlace(entry: Entry, healthy: bool): Entry {
    match entry
    case Active(session) => Active(AfterTick(session, healthy))
    case _ => entry
  }

  predicate StoppedStreaming(entry: Entry) {
    entry.Active? && entry.session.snapshot.state != Streaming
  }

  function TickAll(entries: map<DeviceId, Entry>, inputs: DeviceId -> TickInput): map<DeviceId, Entry> {
    map id | id in entries :: TickEntry(entries[id], IsHealthy(inputs(id)))
  }

  function Ticks(order: seq<DeviceId>, inputs: DeviceId -> TickInput): seq<Event> {
    MapSeq(id => Ticked(id, IsHealthy(inputs(id))), order)
  }

  function TickSome(
      entries: map<DeviceId, Entry>, done: set<DeviceId>, inputs: DeviceId -> TickInput): map<DeviceId, Entry>
  {
    map id | id in entries :: if id in done then TickEntry(entries[id], IsHealthy(inputs(id))) else entries[id]
  }

  lemma TickOneMore(entries: map<DeviceId, Entry>, done: set<DeviceId>, id: DeviceId, inputs: DeviceId -> TickInput)
    requires id !in done
    ensures var ticked := TickSome(entries, done, inputs);
            TickSome(entries, done + {id}, inputs)
            == if id in ticked then ticked[id := TickEntry(ticked[id], IsHealthy(inputs(id)))] else ticked
  {
  }

  lemma {:induction false} TicksOneMore(
      m: Manager, earlier: seq<DeviceId>, last: DeviceId, inputs: DeviceId -> TickInput)
    ensures StepAll(m, Ticks(earlier + [last], inputs))
        == Tick(StepAll(m, Ticks(earlier, inputs)), last, IsHealthy(inputs(last)))
  {
    assert Ticks(earlier + [last], inputs)[..|earlier|] == Ticks(earlier, inputs);
  }

  /** Ticking first and moving the failed ones later comes to ticking one target after the other. */
  lemma {:induction false} TickAllSteps(m: Manager, order: seq<DeviceId>, inputs: DeviceId -> TickInput)
    requires Distinct(order)
    ensures StepAll(m, Ticks(order, inputs)) == m.(entries := TickSome(m.entries, Members(order), inputs))
  {
    if order == [] {
      assert TickSome(m.entries, Members(order), inputs) == m.entries;
    } else {
      var earlier, last := order[..|order| - 1], order[|order| - 1];
      assert order == earlier + [last];
      TickAllSteps(m, earlier, inputs);
      TicksOneMore(m, earlier, last, inputs);
      assert Members(earlier) + {last} == Members(order);
      TickOneMore(m.entries, Members(earlier), last, inputs);
    }
  }

  /** What one turn of the loop finds. */
  datatype LoopTurn = LoopTurn(
    commands: seq<Event>, now: Instant, reports: seq<Arrived>, inputs: DeviceId -> TickInput, read: CaptureRead)

  /** The steps of one turn, given the order in which the table lists the due targets and all targets. */
  function TurnEvents(turn: LoopTurn, starts: seq<DeviceId>, ticks: seq<DeviceId>): seq<Event> {
    turn.commands + Starts(starts, turn.now) + Reports(turn.reports, turn.now) + Ticks(ticks, turn.inputs)
    + [Read(turn.read), IdleCheck]
  }

  /** A device requested as the turn begins gets its attempt in the same turn. */
  lemma {:induction false} RequestIsTriedAtOnce(
      m: Manager, before: seq<Event>, target: SenderTarget, at: Instant, starts: seq<DeviceId>, now: Instant)
    requires var asked := StepAll(m, before + [Add(target, at)]);
             && G.Inv(asked) && Distinct(starts) && Members(starts) == DueTargets(asked, now)
    requires !IsBusy(StepAll(m, before), target.receiverId) && at <= now
    ensures var m', id := StepAll(m, before + [Add(target, at)] + Starts(starts, now)), target.receiverId;
            && id in m'.entries && m'.entries[id].Pending? && m'.entries[id].inFlight
            && m'.entries[id].target == target && G.InFlight(m'.flights, id)
  {
    var asked := StepAll(m, before + [Add(target, at)]);
    StepAllMore(m, before, Add(target, at));
    StepAllConcat(m, before + [Add(target, at)], Starts(starts, now));
    LaunchAllSteps(asked, starts, now);
    DueTargetIsLaunched(asked, starts, now, target.receiverId);
  }

  predicate StreamsWith(m: Manager, id: DeviceId, offered: seq<FanoutAudioFrame>) {
    && id in m.entries && m.entries[id].Active?
    && m.entries[id].session.snapshot.state == Streaming && m.entries[id].session.offered == offered
  }

  lemma {:induction false} TickedAndOffered(
      m: Manager, ticks: seq<DeviceId>, inputs: DeviceId -> TickInput, read: CaptureRead, id: DeviceId)
    requires Distinct(ticks) && m.captureOpen && id in m.entries && m.entries[id].Active?
    requires StreamsWith(m, id, m.entries[id].session.offered) && IsHealthy(inputs(id))
    requires read.CapturedFrame? && id !in read.refused
    ensures StreamsWith(StepAll(m, Ticks(ticks, inputs) + [Read(read), IdleCheck]), id,
                        m.entries[id].session.offered + [read.frame])
  {
    TickAllSteps(m, ticks, inputs);
    StepAllConcat(m, Ticks(ticks, inputs), [Read(read), IdleCheck]);
    TwoSteps(StepAll(m, Ticks(ticks, inputs)), Read(read), IdleCheck);
  }

  /** A target that streams once the turn's reports are in is offered the frame of the same turn, behind what it had. */
  lemma {:induction false} NewcomerIsOffered(
      m: Manager, turn: LoopTurn, starts: seq<DeviceId>, ticks: seq<DeviceId>, id: DeviceId,
      offered: seq<FanoutAudioFrame>)
    requires G.Inv(m) && Distinct(ticks)
    requires StreamsWith(StepAll(m, turn.commands + Starts(starts, turn.now) + Reports(turn.reports, turn.now)), id,
                         offered)
    requires IsHealthy(turn.inputs(id)) && turn.read.CapturedFrame? && id !in turn.read.refused
    ensures StreamsWith(StepAll(m, TurnEvents(turn, starts, ticks)), id, offered + [turn.read.frame])
  {
    var events := turn.commands + Starts(starts, turn.now) + Reports(turn.reports, turn.now);
    var reported := StepAll(m, events);
    G.StepAllKeeps(m, events);
    assert G.EntryOk(reported, id, reported.entries[id]);
    TickedAndOffered(reported, ticks, turn.inputs, turn.read, id);
    StepAllConcat(m, events, Ticks(ticks, turn.inputs) + [Read(turn.read), IdleCheck]);
    Associative(events, Ticks(ticks, turn.inputs), [Read(turn.read), IdleCheck]);
  }

  method Listing(ids: set<DeviceId>) returns (order: seq<DeviceId>)
    ensures Distinct(order) && forall id :: id in order <==> id in ids
  {
    var left := ids;
    order := [];
    while left != {}
      invariant left <= ids && Distinct(order) && forall id :: id in order <==> id in ids && id !in left
      decreases left
    {
      var id :| id in left;
      order := order + [id];
      left := left - {id};
    }
  }

  /** An entry once the frame was pushed to its branch, before the refusing ones are dropped. */
  function PushedEntry(entry: Entry, frame: FanoutAudioFrame, refuses: bool): Entry {
    match entry
    case Active(session) => if refuses then Active(AfterTick(session, false)) else Offer(entry, frame)
    case _ => entry
  }

  function Pushed(
      entries: map<DeviceId, Entry>, frame: FanoutAudioFrame, refused: set<DeviceId>): map<DeviceId, Entry>
  {
    map id | id in entries :: PushedEntry(entries[id], frame, id in refused)
  }

  function Dropped(entries: map<DeviceId, Entry>, failed: set<DeviceId>): map<DeviceId, Entry> {
    map id | id in entries ::
      if id in failed && entries[id].Active? then Failed(entries[id].session.snapshot) else entries[id]
  }

  /** Pushing to all and dropping the refusing ones afterwards gives each branch its own outcome. */
  lemma FanOutInTwo(
      entries: map<DeviceId, Entry>, frame: FanoutAudioFrame, refused: set<DeviceId>, failed: set<DeviceId>)
    requires forall id :: id in failed <==> id in entries && entries[id].Active? && id in refused
    ensures Dropped(Pushed(entries, frame, refused), failed) == FanOut(entries, frame, refused)
  {
  }

  /** A due target's attempt starts as soon as pending targets are processed, in whatever order. */
  lemma {:induction false} DueTargetIsLaunched(m: Manager, order: seq<DeviceId>, now: Instant, id: DeviceId)
    requires G.Inv(m) && Distinct(order) && Members(order) == DueTargets(m, now)
    requires id in m.entries && m.entries[id].Pending? && !m.entries[id].inFlight && m.entries[id].nextAttemptAt <= now
    ensures var m' := LaunchAll(m, order, now);
            && id in m'.entries && m'.entries[id] == MarkInFlight(m.entries[id])
            && m'.launched[id] == m.launched[id] + 1
            && G.InFlight(m'.flights, id)
  {
    assert id in Members(order);
    forall due | due in order ensures IsDue(m, due, now) { assert due in Members(order); }
    LaunchAllMarks(m, order, now);
    LaunchAllCounts(m, order, now);
    OccursOnce(order, id);
    LaunchAllSteps(m, order, now);
    G.StepAllKeeps(m, Starts(order, now));
  }

  lemma {:induction false} OccursOnce(order: seq<DeviceId>, id: DeviceId)
    requires Distinct(order) && id in order
    ensures multiset(order)[id] == 1
  {
    var init, last := order[..|order| - 1], order[|order| - 1];
    assert order == init + [last];
    if id == last {
      assert id !in init;
    } else {
      OccursOnce(init, id);
    }
  }

  // ----- The object -----

  class SenderManager {
    var entries: map<DeviceId, Entry>
    var captureOpen: bool
    var flights: seq<Flight>
    ghost var record: Manager   // the observer's fields

    /** The manager's state, with the observer's record of what happened so far. */
    ghost function View(): Manager
      reads this
    {
      record.(entries := entries, captureOpen := captureOpen, flights := flights)
    }

    constructor ()
      ensures View() == NO_TARGETS
    {
      entries, captureOpen, flights := map[], false, [];
      record := NO_TARGETS;
    }

    method QueueTargetConnect(target: SenderTarget, now: Instant)
      modifies this
      ensures View() == QueueConnect(old(View()), target, now)
    {
      var id := target.receiverId;
      if id in entries && EntrySnapshot(entries[id]).state in {Connecting, Negotiating, Streaming} {
        return;
      }
      entries := entries[id := Pending(target, Snapshot(Connecting, 0, None), now, false)];
      record := record.(inserted := record.inserted + multiset{id});
    }

    method RemoveTarget(id: DeviceId)
      modifies this
      ensures View() == Remove(old(View()), id)
    {
      entries := entries - {id};
    }

    method LaunchTarget(id: DeviceId, now: Instant)
      modifies this
      ensures View() == Launch(old(View()), id, now)
    {
      if id in entries && entries[id].Pending? && !entries[id].inFlight && entries[id].nextAttemptAt <= now {
        var entry := MarkInFlight(entries[id]);
        entries := entries[id := entry];
        flights := flights + [Flight(entry.target, entry.snapshot.attemptCount)];
        record := record.(launched := record.launched + multiset{id});
      }
    }

    /** Every due target gets exactly one attempt, nobody else does. The order is the map's own. */
    method ProcessPendingTargets(now: Instant) returns (order: seq<DeviceId>)
      modifies this
      ensures View() == LaunchAll(old(View()), order, now)
      ensures Distinct(order) && Members(order) == DueTargets(old(View()), now)
      ensures entries == Marked(old(View()), DueTargets(old(View()), now))
      ensures record.launched == old(record).launched + multiset(order) && |flights| == |old(flights)| + |order|
    {
      var due := set id |
        id in entries && entries[id].Pending? && !entries[id].inFlight && entries[id].nextAttemptAt <= now;
      var left := due;
      order := [];
      while left != {}
        invariant left <= due && Distinct(order)
        invariant forall id :: id in order <==> id in due && id !in left
        invariant View() == LaunchAll(old(View()), order, now)
        decreases left
      {
        var id :| id in left;
        assert (order + [id])[..|order|] == order;
        LaunchTarget(id, now);
        order := order + [id];
        left := left - {id};
      }
      LaunchAllMarks(old(View()), order, now);
      LaunchAllCounts(old(View()), order, now);
    }

    method EnsureCaptureRunning(start: CaptureStart)
      modifies this
      ensures View() == EnsureCapture(old(View()), start)
    {
      if captureOpen { return; }
      if start == CaptureFails {
        FailAllActiveTargets();
        return;
      }
      captureOpen := true;
      if start == MirrorFails { FailAllActiveTargets(); }
    }

    method FailAllActiveTargets()
      modifies this
      ensures View() == old(View()).(entries := FailAllActive(old(entries)))
    {
      var ids := set id | id in entries && entries[id].Active?;
      while ids != {}
        invariant View() == old(View()).(entries := entries)
        invariant forall id | id in ids :: id in old(entries) && old(entries)[id].Active?
        invariant entries == map id | id in old(entries) ::
                    if id in ids then old(entries)[id] else FailActive(old(entries)[id])
        decreases ids
      {
        var id :| id in ids;
        var session := entries[id].session;
        entries := entries[id := Active(session.(snapshot := session.snapshot.(state := Error)))];
        ids := ids - {id};
      }
    }

    /** Every report that has arrived, in its order of arrival. */
    method ProcessConnectResults(reports: seq<Arrived>, now: Instant)
      modifies this
      ensures View() == ReportAll(old(View()), reports, now)
    {
      for i := 0 to |reports|
        invariant View() == ReportAll(old(View()), reports[..i], now)
      {
        assert reports[..i + 1][..i] == reports[..i];
        ProcessConnectResult(reports[i], now);
      }
      assert reports[..|reports|] == reports;
    }

    method ProcessConnectResult(report: Arrived, now: Instant)
      modifies this
      ensures View() == Report(old(View()), report.index, report.outcome, now)
    {
      if report.index >= |flights| { return; }
      var flight := flights[report.index];
      flights := flights[..report.index] + flights[report.index + 1..];
      var id := flight.target.receiverId;
      if id !in entries { return; }
      match report.outcome
      case Connects(capture) =>
        entries := entries[id := Active(TargetSession(flight.target, Snapshot(Streaming, flight.attempt, None), []))];
        record := record.(since := record.since[id := |record.captured|]);
        EnsureCaptureRunning(capture);
      case Fails(retryable) =>
        if retryable && flight.attempt < MAX_CONNECT_ATTEMPTS {
          var backoff := RetryBackoffMs(flight.attempt);
          record := record.(backoffs := record.backoffs + [backoff]);
          if entries[id].Pending? {
            var retryAt := now + backoff * 1_000_000;
            entries := entries[id := entries[id].(
              snapshot := Snapshot(Error, flight.attempt, Some(retryAt)), nextAttemptAt := retryAt, inFlight := false)];
          }
        } else {
          entries := entries[id := Failed(Snapshot(Error, flight.attempt, None))];
        }
    }

    method TickSession(id: DeviceId, input: TickInput) returns (stillStreaming: bool)
      requires id in entries && entries[id].Active? && entries[id].session.snapshot.state in {Streaming, Error}
      modifies this`entries
      ensures var ticked := AfterTick(old(entries)[id].session, IsHealthy(input));
              && entries == old(entries)[id := Active(ticked)]
              && stillStreaming == (ticked.snapshot.state == Streaming)
    {
      var session := new ManagedSession(entries[id].session);
      stillStreaming := session.Tick(input);
      entries := entries[id := Active(session.session)];
    }

    /** Ticks every active session and says which of them stopped streaming. */
    method TickSessions(inputs: DeviceId -> TickInput) returns (failed: set<DeviceId>)
      requires forall id | id in entries && entries[id].Active? ::
          entries[id].session.snapshot.state in {Streaming, Error}
      modifies this`entries
      ensures entries == map id | id in old(entries) :: TickedInPlace(old(entries)[id], IsHealthy(inputs(id)))
      ensures forall id :: id in failed <==> id in entries && StoppedStreaming(entries[id])
    {
      var ids := set id | id in entries && entries[id].Active?;
      failed := {};
      while ids != {}
        invariant forall id | id in ids :: id in old(entries) && old(entries)[id].Active?
        invariant entries == map id | id in old(entries) ::
                    if id in ids then old(entries)[id] else TickedInPlace(old(entries)[id], IsHealthy(inputs(id)))
        invariant forall id :: id in failed <==> id in entries && id !in ids && StoppedStreaming(entries[id])
        decreases ids
      {
        var id :| id in ids;
        var stillStreaming := TickSession(id, inputs(id));
        if !stillStreaming {
          failed := failed + {id};
        }
        ids := ids - {id};
      }
    }

    /** Ticks every active session, then moves those that stopped streaming to the failed ones. */
    method TickTargets(inputs: DeviceId -> TickInput)
      requires forall id | id in entries && entries[id].Active? ::
          entries[id].session.snapshot.state in {Streaming, Error}
      modifies this`entries
      ensures entries == TickAll(old(entries), inputs)
    {
      var failed := TickSessions(inputs);
      label Ticked:
      var left := failed;
      while left != {}
        invariant left <= failed
        invariant entries == map id | id in old@Ticked(entries) ::
                    if id in failed && id !in left then Failed(old@Ticked(entries)[id].session.snapshot)
                    else old@Ticked(entries)[id]
        decreases left
      {
        var id :| id in left;
        entries := entries[id := Failed(entries[id].session.snapshot)];
        left := left - {id};
      }
    }

    /** Takes at most one frame from the capture and offers it once to every active branch. */
    method CaptureAndFanOut(read: CaptureRead)
      modifies this
      ensures View() == Capture(old(View()), read)
    {
      if !captureOpen { return; }
      match read
      case NoFrame =>
      case CaptureBroken => FailAllActiveTargets();
      case CapturedFrame(frame, refused) =>
        record := record.(captured := record.captured + [frame]);
        var failed := PushFrames(frame, refused);
        DropRefused(failed);
        FanOutInTwo(old(entries), frame, refused, failed);
    }

    /** Offers the frame to every active branch; those that refuse it are set to error and named. */
    method PushFrames(frame: FanoutAudioFrame, refused: set<DeviceId>) returns (failed: set<DeviceId>)
      modifies this`entries
      ensures entries == Pushed(old(entries), frame, refused)
      ensures forall id :: id in failed <==> id in old(entries) && old(entries)[id].Active? && id in refused
    {
      var ids := set id | id in entries && entries[id].Active?;
      failed := {};
      while ids != {}
        invariant forall id | id in ids :: id in old(entries) && old(entries)[id].Active?
        invariant entries == map id | id in old(entries) ::
                    if id in ids then old(entries)[id] else PushedEntry(old(entries)[id], frame, id in refused)
        invariant forall id ::
          id in failed <==> id in old(entries) && old(entries)[id].Active? && id in refused && id !in ids
        decreases ids
      {
        var id :| id in ids;
        entries := entries[id := PushedEntry(entries[id], frame, id in refused)];
        if id in refused { failed := failed + {id}; }
        ids := ids - {id};
      }
    }

    method DropRefused(failed: set<DeviceId>)
      requires forall id | id in failed :: id in entries && entries[id].Active?
      modifies this`entries
      ensures entries == Dropped(old(entries), failed)
    {
      var left := failed;
      while left != {}
        invariant left <= failed
        invariant entries == Dropped(old(entries), failed - left)
        decreases left
      {
        var id :| id in left;
        entries := entries[id := Failed(entries[id].session.snapshot)];
        left := left - {id};
      }
      assert failed - {} == failed;
    }

    method StopCaptureIfIdle()
      modifies this
      ensures View() == StopIfIdle(old(View()))
    {
      if exists id :: id in entries && !entries[id].Failed? { return; }
      captureOpen := false;
    }

    method ProcessCommands(commands: seq<Event>)
      requires forall c | c in commands :: c.Add? || c.Drop?
      modifies this
      ensures View() == StepAll(old(View()), commands)
    {
      for i := 0 to |commands|
        invariant View() == StepAll(old(View()), commands[..i])
      {
        assert commands[i] in commands && commands[..i + 1][..i] == commands[..i];
        match commands[i]
        case Add(target, at) => QueueTargetConnect(target, at);
        case Drop(id) => RemoveTarget(id);
      }
      assert commands[..|commands|] == commands;
    }

    method LaunchPhase(now: Instant) returns (order: seq<DeviceId>)
      modifies this
      ensures View() == StepAll(old(View()), Starts(order, now))
      ensures Distinct(order) && Members(order) == DueTargets(old(View()), now)
    {
      order := ProcessPendingTargets(now);
      LaunchAllSteps(old(View()), order, now);
    }

    method ReportPhase(reports: seq<Arrived>, now: Instant)
      modifies this
      ensures View() == StepAll(old(View()), Reports(reports, now))
    {
      ProcessConnectResults(reports, now);
      ReportAllSteps(old(View()), reports, now);
    }

    method TickPhase(inputs: DeviceId -> TickInput) returns (order: seq<DeviceId>)
      requires G.Inv(View())
      modifies this
      ensures View() == StepAll(old(View()), Ticks(order, inputs))
      ensures Distinct(order) && Members(order) == entries.Keys
    {
      ActiveStates(View());
      order := Listing(entries.Keys);
      TickTargets(inputs);
      TickAllSteps(old(View()), order, inputs);
    }

    method CapturePhase(read: CaptureRead)
      modifies this
      ensures View() == StepAll(old(View()), [Read(read), IdleCheck])
      ensures entries.Keys == old(entries).Keys
      ensures captureOpen ==> HasLiveTarget(View())
    {
      CaptureAndFanOut(read);
      StopCaptureIfIdle();
      TwoSteps(old(View()), Read(read), IdleCheck);
    }

    /**
     * One turn of the manager loop. It is exactly the steps of its phases in their order: the commands,
     * one attempt for each target then due, the reports, one tick for each target, the capture and
     * the idle check. So every promise about runs is one about the loop.
     */
    method RunOnce(turn: LoopTurn) returns (starts: seq<DeviceId>, ticks: seq<DeviceId>)
      requires G.Inv(View()) && forall c | c in turn.commands :: c.Add? || c.Drop?
      modifies this
      ensures View() == StepAll(old(View()), TurnEvents(turn, starts, ticks))
      ensures Distinct(starts) && Members(starts) == DueTargets(StepAll(old(View()), turn.commands), turn.now)
      ensures Distinct(ticks) && Members(ticks) == entries.Keys
      ensures captureOpen ==> HasLiveTarget(View())
    {
      ghost var start := View();
      ProcessCommands(turn.commands);
      starts := LaunchPhase(turn.now);
      ghost var events := turn.commands + Starts(starts, turn.now);
      StepAllConcat(start, turn.commands, Starts(starts, turn.now));
      ReportPhase(turn.reports, turn.now);
      StepAllConcat(start, events, Reports(turn.reports, turn.now));
      events := events + Reports(turn.reports, turn.now);
      G.StepAllKeeps(start, events);
      ticks := TickPhase(turn.inputs);
      StepAllConcat(start, events, Ticks(ticks, turn.inputs));
      events := events + Ticks(ticks, turn.inputs);
      CapturePhase(turn.read);
      StepAllConcat(start, events, [Read(turn.read), IdleCheck]);
    }

    /**
     * The loop itself: whatever the turns bring, its state is that of a run, and between turns the
     * capture is open only for a pending or active target.
     */
    method RunLoop(turns: seq<LoopTurn>) returns (ghost events: seq<Event>)
      requires View() == NO_TARGETS
      requires forall turn | turn in turns :: forall c | c in turn.commands :: c.Add? || c.Drop?
      modifies this
      ensures View() == Run(events)
      ensures captureOpen ==> HasLiveTarget(View())
    {
      events := [];
      for i := 0 to |turns|
        invariant View() == Run(events)
        invariant captureOpen ==> HasLiveTarget(View())
      {
        G.Reachable(events);
        assert turns[i] in turns;
        var starts, ticks := RunOnce(turns[i]);
        StepAllConcat(NO_TARGETS, events, TurnEvents(turns[i], starts, ticks));
        events := events + TurnEvents(turns[i], starts, ticks);
      }
    }
  }

  lemma TwoSteps(m: Manager, first: Event, second: Event)
    ensures StepAll(m, [first, second]) == Step(Step(m, first), second)
  {
    assert [first, second][..1] == [first] && [first][..0] == [];
    assert StepAll(m, [first]) == Step(StepAll(m, [first][..0]), first);
  }

  lemma ActiveStates(m: Manager)
    requires G.Inv(m)
    ensures forall id | id in m.entries && m.entries[id].Active? ::
        m.entries[id].session.snapshot.state in {Streaming, Error}
  {
    assert forall id | id in m.entries :: G.EntryOk(m, id, m.entries[id]);
  }
}
