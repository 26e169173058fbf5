/**
 * The local playback mirror's worker thread (crates/synchrosonic-transport/src/fanout.rs): it
 * follows start and stop controls, plays the frames of its branch queue and reports events.
 */
module LocalMirrors {
  import opened Options
  import opened Subsequences
  import opened NetworkWriters

  datatype MirrorState = Disabled | Mirroring | Error

  datatype MirrorEvent =
    | Started(target: Option<string>) | Played(bytes: nat) | StateChanged(state: MirrorState) | Failed

  datatype Control = Start(target: Option<string>) | Stop | Shutdown

  /** A control with what the engine and the sink answer to it, and the frames found when clearing stale ones. */
  datatype ControlInput = ControlInput(control: Control, engineOk: bool, stopOk: bool, stale: seq<FanoutAudioFrame>)

  datatype FrameInput = FrameInput(frame: FanoutAudioFrame, writeOk: bool, stale: seq<FanoutAudioFrame>)

  /** `sinksOpened` and `sinksClosed` count sinks; `taken` and `played` list frames; both are the observer's. */
  datatype Mirror = Mirror(
    enabled: bool, hasSink: bool, running: bool, events: seq<MirrorEvent>,
    sinksOpened: nat, sinksClosed: nat, taken: seq<FanoutAudioFrame>, played: seq<FanoutAudioFrame>)

  const STOPPED_MIRROR := Mirror(false, false, true, [], 0, 0, [], [])

  function CloseSink(m: Mirror): Mirror {
    m.(hasSink := false, sinksClosed := m.sinksClosed + if m.hasSink then 1 else 0)
  }

  function OpenSink(m: Mirror, target: Option<string>): Mirror {
    m.(hasSink := true, sinksOpened := m.sinksOpened + 1, enabled := true,
       events := m.events + [Started(target), StateChanged(Mirroring)])
  }

  function ClearStale(m: Mirror, stale: seq<FanoutAudioFrame>): Mirror { m.(taken := m.taken + stale) }

  function Fail(m: Mirror): Mirror { m.(events := m.events + [Failed]) }

  /** A control taken before looking at the queue. */
  function OnControl(m: Mirror, input: ControlInput): Mirror {
    match input.control
    case Start(target) =>
      if input.engineOk then OpenSink(CloseSink(m), target)
      else Fail(ClearStale(CloseSink(m).(enabled := false), input.stale))
    case Stop =>
      var cleared := ClearStale(CloseSink(m).(enabled := false), input.stale);
      var reported := if m.hasSink && !input.stopOk then Fail(cleared) else cleared;
      reported.(events := reported.events + [StateChanged(Disabled)])
    case Shutdown => CloseSink(m).(running := false)
  }

  /** A control awaited while nothing is to be mirrored: the sink is not looked at. */
  function OnIdleControl(m: Mirror, input: ControlInput): Mirror {
    match input.control
    case Start(target) =>
      if input.engineOk then OpenSink(m, target) else Fail(ClearStale(m, input.stale))
    case Stop => m.(events := m.events + [StateChanged(Disabled)])
    case Shutdown => m.(running := false)
  }

  function OnFrame(m: Mirror, input: FrameInput): Mirror {
    var took := m.(taken := m.taken + [input.frame]);
    if !m.hasSink then Fail(ClearStale(took.(enabled := false), input.stale))
    else if !input.writeOk then Fail(CloseSink(ClearStale(took.(enabled := false), input.stale)))
    else took.(played := m.played + [input.frame], events := m.events + [Played(|input.frame.payload|)])
  }

  datatype Move = Controlled(input: ControlInput) | Awaited(input: ControlInput) | Took(frame: FrameInput)

  function Step(m: Mirror, move: Move): Mirror {
    if !m.running then m
    else
      match move
      case Controlled(input) => OnControl(m, input)
      case Awaited(input) => if m.enabled then m else OnIdleControl(m, input)
      case Took(frame) => if m.enabled then OnFrame(m, frame) else m
  }

  function Run(moves: seq<Move>): Mirror {
    if moves == [] then STOPPED_MIRROR else Step(Run(moves[..|moves| - 1]), moves[|moves| - 1])
  }

  /** What the manager makes of the events it is sent. */
  function StateFrom(events: seq<MirrorEvent>): MirrorState {
    if events == [] then Disabled
    else
      match events[|events| - 1]
      case Started(_) => Mirroring
      case StateChanged(state) => state
      case Failed => Error
      case Played(_) => StateFrom(events[..|events| - 1])
  }

  function PlayedBytes(events: seq<MirrorEvent>): nat {
    if events == [] then 0
    else PlayedBytes(events[..|events| - 1]) + if events[|events| - 1].Played? then events[|events| - 1].bytes else 0
  }

  function PayloadBytes(frames: seq<FanoutAudioFrame>): nat {
    if frames == [] then 0 else PayloadBytes(frames[..|frames| - 1]) + |frames[|frames| - 1].payload|
  }

  ghost predicate Inv(m: Mirror) {
    && (m.running ==> (m.enabled <==> m.hasSink))
    && m.sinksOpened == m.sinksClosed + (if m.hasSink then 1 else 0)
    && (!m.running ==> !m.hasSink)
    && (m.running ==> (m.enabled <==> StateFrom(m.events) == Mirroring))
    && PlayedBytes(m.events) == PayloadBytes(m.played)
    && Subsequence(m.played, m.taken)
  }

  lemma {:induction false} EventAppend(events: seq<MirrorEvent>, event: MirrorEvent)
    ensures StateFrom(events + [event])
         == match event
            case Started(_) => Mirroring
            case StateChanged(state) => state
            case Failed => Error
            case Played(_) => StateFrom(events)
    ensures PlayedBytes(events + [event]) == PlayedBytes(events) + if event.Played? then event.bytes else 0
  {
    assert (events + [event])[..|events|] == events;
  }

  lemma {:induction false} StaleAreSkipped(
      played: seq<FanoutAudioFrame>, taken: seq<FanoutAudioFrame>, stale: seq<FanoutAudioFrame>)
    requires Subsequence(played, taken)
    ensures Subsequence(played, taken + stale)
  {
    Prefix(taken + stale, |taken|);
    assert (taken + stale)[..|taken|] == taken;
    Transitive(played, taken, taken + stale);
  }

  lemma {:induction false} OpenSinkEvents(events: seq<MirrorEvent>, target: Option<string>)
    ensures var events' := events + [Started(target), StateChanged(Mirroring)];
            StateFrom(events') == Mirroring && PlayedBytes(events') == PlayedBytes(events)
  {
    EventAppend(events, Started(target));
    EventAppend(events + [Started(target)], StateChanged(Mirroring));
    assert events + [Started(target), StateChanged(Mirroring)]
        == events + [Started(target)] + [StateChanged(Mirroring)];
  }

  lemma ControlKeeps(m: Mirror, input: ControlInput)
    requires Inv(m) && m.running
    ensures Inv(OnControl(m, input))
  {
    StaleAreSkipped(m.played, m.taken, input.stale);
    EventAppend(m.events, Failed);
    match input.control
    case Start(target) => OpenSinkEvents(m.events, target);
    case Stop =>
      EventAppend(m.events, StateChanged(Disabled));
      EventAppend(m.events + [Failed], StateChanged(Disabled));
    case Shutdown =>
  }

  lemma IdleControlKeeps(m: Mirror, input: ControlInput)
    requires Inv(m) && m.running && !m.enabled
    ensures Inv(OnIdleControl(m, input))
  {
    StaleAreSkipped(m.played, m.taken, input.stale);
    EventAppend(m.events, Failed);
    match input.control
    case Start(target) => OpenSinkEvents(m.events, target);
    case Stop => EventAppend(m.events, StateChanged(Disabled));
    case Shutdown =>
  }

  lemma FrameKeeps(m: Mirror, input: FrameInput)
    requires Inv(m) && m.running && m.enabled
    ensures Inv(OnFrame(m, input))
  {
    if input.writeOk {
      EventAppend(m.events, Played(|input.frame.payload|));
      assert (m.played + [input.frame])[..|m.played|] == m.played;
      ExtendBoth(m.played, m.taken, input.frame);
    } else {
      EventAppend(m.events, Failed);
      ExtendRight(m.played, m.taken, input.frame);
      StaleAreSkipped(m.played, m.taken + [input.frame], input.stale);
    }
  }

  lemma StepKeeps(m: Mirror, move: Move)
    requires Inv(m)
    ensures Inv(Step(m, move))
  {
    if m.running {
      match move
      case Controlled(input) => ControlKeeps(m, input);
      case Awaited(input) => if !m.enabled { IdleControlKeeps(m, input); }
      case Took(frame) => if m.enabled { FrameKeeps(m, frame); }
    }
  }

  lemma {:induction false} Reachable(moves: seq<Move>)
    ensures Inv(Run(moves))
  {
    if moves != [] {
      Reachable(moves[..|moves| - 1]);
      StepKeeps(Run(moves[..|moves| - 1]), moves[|moves| - 1]);
    }
  }

  /**
   * The mirror is enabled exactly while it has a sink, and exactly while the events say that it
   * mirrors; so a frame never meets a missing sink. No sink is leaked, and what is played is in
   * order, a part of what was taken from the queue, and reported byte for byte.
   */
  lemma {:induction false} MirrorIsHonest(moves: seq<Move>)
    ensures var m := Run(moves);
            && (m.running ==> (m.enabled <==> m.hasSink) && (m.enabled <==> StateFrom(m.events) == Mirroring))
            && m.sinksOpened - m.sinksClosed == (if m.hasSink then 1 else 0)
            && (!m.running ==> m.sinksOpened == m.sinksClosed)
            && Subsequence(m.played, m.taken)
            && PlayedBytes(m.events) == PayloadBytes(m.played)
  {
    Reachable(moves);
  }

  // ----- What the mirror does when -----

  /** Not asked to mirror, mirroring, broken down, shut down. */
  datatype Phase = Off | On | Broken | Over

  datatype Happening = Begins | CannotBegin | Ends | ShutsDown | Plays | CannotPlay | Nothing

  function ControlMeans(input: ControlInput): Happening {
    match input.control
    case Start(_) => if input.engineOk then Begins else CannotBegin
    case Stop => Ends
    case Shutdown => ShutsDown
  }

  /** A control is awaited only while the mirror is not on, a frame is taken only while it is. */
  function MoveMeans(phase: Phase, move: Move): Happening {
    match move
    case Controlled(input) => ControlMeans(input)
    case Awaited(input) => if phase.On? then Nothing else ControlMeans(input)
    case Took(frame) => if !phase.On? then Nothing else if frame.writeOk then Plays else CannotPlay
  }

  function NextPhase(phase: Phase, happening: Happening): Phase {
    if phase.Over? then Over
    else
      match happening
      case Begins => On
      case CannotBegin => Broken
      case Ends => Off
      case ShutsDown => Over
      case CannotPlay => Broken
      case _ => phase
  }

  function PhaseAfter(moves: seq<Move>): Phase {
    if moves == [] then Off
    else
      var earlier := PhaseAfter(moves[..|moves| - 1]);
      NextPhase(earlier, MoveMeans(earlier, moves[|moves| - 1]))
  }

  /** The frames that came while the mirror was on and could be written. */
  function PlayedIn(moves: seq<Move>): seq<FanoutAudioFrame> {
    if moves == [] then []
    else
      var earlier, last := moves[..|moves| - 1], moves[|moves| - 1];
      if PhaseAfter(earlier).On? && MoveMeans(On, last).Plays? then PlayedIn(earlier) + [last.frame.frame]
      else PlayedIn(earlier)
  }

  /** The frames a move takes from the queue: one to play, or those that a stop or a failure makes stale. */
  function TakenBy(phase: Phase, move: Move): seq<FanoutAudioFrame> {
    match move
    case Controlled(input) => if ControlMeans(input) in {CannotBegin, Ends} then input.stale else []
    case Awaited(input) => if !phase.On? && ControlMeans(input).CannotBegin? then input.stale else []
    case Took(frame) =>
      if !phase.On? then [] else [frame.frame] + if frame.writeOk then [] else frame.stale
  }

  function TakenIn(moves: seq<Move>): seq<FanoutAudioFrame> {
    if moves == [] then []
    else
      var earlier, last := moves[..|moves| - 1], moves[|moves| - 1];
      TakenIn(earlier) + if PhaseAfter(earlier).Over? then [] else TakenBy(PhaseAfter(earlier), last)
  }

  /** How often something went wrong: a start, a write, or the stop of an open sink. */
  function TroublesIn(moves: seq<Move>): nat {
    if moves == [] then 0
    else
      var phase, last := PhaseAfter(moves[..|moves| - 1]), moves[|moves| - 1];
      var stopFails := phase.On? && last.Controlled? && last.input.control.Stop? && !last.input.stopOk;
      TroublesIn(moves[..|moves| - 1])
      + if !phase.Over? && (MoveMeans(phase, last) in {CannotBegin, CannotPlay} || stopFails) then 1 else 0
  }

  /** The targets of the starts that worked. */
  function TargetsIn(moves: seq<Move>): seq<Option<string>> {
    if moves == [] then []
    else
      var phase, last := PhaseAfter(moves[..|moves| - 1]), moves[|moves| - 1];
      TargetsIn(moves[..|moves| - 1])
      + if !phase.Over? && MoveMeans(phase, last).Begins? then [last.input.control.target] else []
  }

  function TargetsSaid(events: seq<MirrorEvent>): seq<Option<string>> {
    if events == [] then []
    else TargetsSaid(events[..|events| - 1])
         + if events[|events| - 1].Started? then [events[|events| - 1].target] else []
  }

  function FailuresSaid(events: seq<MirrorEvent>): nat {
    if events == [] then 0
    else FailuresSaid(events[..|events| - 1]) + if events[|events| - 1].Failed? then 1 else 0
  }

  ghost predicate IsIn(m: Mirror, phase: Phase) {
    match phase
    case Off => m.running && !m.enabled && !m.hasSink && StateFrom(m.events) == Disabled
    case On => m.running && m.enabled && m.hasSink && StateFrom(m.events) == Mirroring
    case Broken => m.running && !m.enabled && !m.hasSink && StateFrom(m.events) == Error
    case Over => !m.running && !m.hasSink
  }

  /** As many sinks were opened as targets are given, and their starts reported. */
  ghost predicate Opened(m: Mirror, m': Mirror, targets: seq<Option<string>>) {
    m'.sinksOpened == m.sinksOpened + |targets| && TargetsSaid(m'.events) == TargetsSaid(m.events) + targets
  }

  lemma {:induction false} FailureAppend(events: seq<MirrorEvent>, event: MirrorEvent)
    ensures FailuresSaid(events + [event]) == FailuresSaid(events) + if event.Failed? then 1 else 0
    ensures TargetsSaid(events + [event]) == TargetsSaid(events) + if event.Started? then [event.target] else []
  {
    assert (events + [event])[..|events|] == events;
  }

  lemma {:induction false} StartedAppend(events: seq<MirrorEvent>, target: Option<string>)
    ensures var events' := events + [Started(target), StateChanged(Mirroring)];
            FailuresSaid(events') == FailuresSaid(events) && TargetsSaid(events') == TargetsSaid(events) + [target]
  {
    FailureAppend(events, Started(target));
    FailureAppend(events + [Started(target)], StateChanged(Mirroring));
    assert events + [Started(target), StateChanged(Mirroring)]
        == events + [Started(target)] + [StateChanged(Mirroring)];
  }

  lemma ControlFollows(m: Mirror, phase: Phase, input: ControlInput)
    requires IsIn(m, phase) && !phase.Over?
    ensures var m' := OnControl(m, input);
            && IsIn(m', NextPhase(phase, ControlMeans(input)))
            && m'.played == m.played && m'.taken == m.taken + TakenBy(phase, Controlled(input))
            && Opened(m, m', if ControlMeans(input).Begins? then [input.control.target] else [])
            && FailuresSaid(m'.events) == FailuresSaid(m.events)
               + if ControlMeans(input).CannotBegin? || (phase.On? && input.control.Stop? && !input.stopOk) then 1
                 else 0
  {
    EventAppend(m.events, Failed);
    FailureAppend(m.events, Failed);
    match input.control
    case Start(target) =>
      OpenSinkEvents(m.events, target);
      StartedAppend(m.events, target);
    case Stop =>
      EventAppend(m.events, StateChanged(Disabled));
      FailureAppend(m.events, StateChanged(Disabled));
      EventAppend(m.events + [Failed], StateChanged(Disabled));
      FailureAppend(m.events + [Failed], StateChanged(Disabled));
    case Shutdown =>
  }

  lemma IdleControlFollows(m: Mirror, phase: Phase, input: ControlInput)
    requires IsIn(m, phase) && phase in {Off, Broken}
    ensures var m' := OnIdleControl(m, input);
            && IsIn(m', NextPhase(phase, ControlMeans(input)))
            && m'.played == m.played && m'.taken == m.taken + TakenBy(phase, Awaited(input))
            && Opened(m, m', if ControlMeans(input).Begins? then [input.control.target] else [])
            && FailuresSaid(m'.events) == FailuresSaid(m.events) + if ControlMeans(input).CannotBegin? then 1 else 0
  {
    EventAppend(m.events, Failed);
    FailureAppend(m.events, Failed);
    match input.control
    case Start(target) =>
      OpenSinkEvents(m.events, target);
      StartedAppend(m.events, target);
    case Stop =>
      EventAppend(m.events, StateChanged(Disabled));
      FailureAppend(m.events, StateChanged(Disabled));
    case Shutdown =>
  }

  lemma FrameFollows(m: Mirror, input: FrameInput)
    requires IsIn(m, On)
    ensures var m' := OnFrame(m, input);
            && IsIn(m', if input.writeOk then On else Broken)
            && m'.played == (if input.writeOk then m.played + [input.frame] else m.played)
            && m'.taken == m.taken + TakenBy(On, Took(input))
            && Opened(m, m', [])
            && FailuresSaid(m'.events) == FailuresSaid(m.events) + if input.writeOk then 0 else 1
  {
    EventAppend(m.events, Failed);
    FailureAppend(m.events, Failed);
    EventAppend(m.events, Played(|input.frame.payload|));
    FailureAppend(m.events, Played(|input.frame.payload|));
  }


  /**
   * The mirror does what it is told: it is on from every start that works to the next stop or failure,
   * it plays exactly the frames that come meanwhile and throws stale ones away, opens one sink for each
   * start and says for which target, and reports what it is doing and each failure once.
   */
  lemma {:induction false} MirrorFollows(moves: seq<Move>)
    ensures var m := Run(moves);
            && IsIn(m, PhaseAfter(moves))
            && m.played == PlayedIn(moves) && m.taken == TakenIn(moves)
            && m.sinksOpened == |TargetsIn(moves)| && TargetsSaid(m.events) == TargetsIn(moves)
            && FailuresSaid(m.events) == TroublesIn(moves)
  {
    if moves != [] {
      var earlier, last := moves[..|moves| - 1], moves[|moves| - 1];
      MirrorFollows(earlier);
      StepDoes(Run(earlier), PhaseAfter(earlier), last);
    }
  }

  /** What one move does, told from the phase it meets. */
  ghost predicate MoveDoes(m: Mirror, phase: Phase, move: Move, m': Mirror) {
    var means := MoveMeans(phase, move);
    var stopFails := phase.On? && move.Controlled? && move.input.control.Stop? && !move.input.stopOk;
    && IsIn(m', NextPhase(phase, means))
    && m'.played == (if phase.On? && means.Plays? then m.played + [move.frame.frame] else m.played)
    && m'.taken == m.taken + (if phase.Over? then [] else TakenBy(phase, move))
    && Opened(m, m', if !phase.Over? && means.Begins? then [move.input.control.target] else [])
    && FailuresSaid(m'.events) == FailuresSaid(m.events)
       + if !phase.Over? && (means in {CannotBegin, CannotPlay} || stopFails) then 1 else 0
  }

  lemma ControlledDoes(m: Mirror, phase: Phase, input: ControlInput)
    requires IsIn(m, phase) && !phase.Over?
    ensures MoveDoes(m, phase, Controlled(input), OnControl(m, input))
  {
    ControlFollows(m, phase, input);
  }

  lemma AwaitedDoes(m: Mirror, phase: Phase, input: ControlInput)
    requires IsIn(m, phase) && phase in {Off, Broken}
    ensures MoveDoes(m, phase, Awaited(input), OnIdleControl(m, input))
  {
    IdleControlFollows(m, phase, input);
  }

  lemma TookDoes(m: Mirror, input: FrameInput)
    requires IsIn(m, On)
    ensures MoveDoes(m, On, Took(input), OnFrame(m, input))
  {
    FrameFollows(m, input);
  }

  lemma StepDoes(m: Mirror, phase: Phase, move: Move)
    requires IsIn(m, phase)
    ensures MoveDoes(m, phase, move, Step(m, move))
  {
    if phase.Over? {
      assert Step(m, move) == m;
    } else {
      match move
      case Controlled(input) => ControlledDoes(m, phase, input);
      case Awaited(input) => if phase.On? { assert Step(m, move) == m; } else { AwaitedDoes(m, phase, input); }
      case Took(frame) => if phase.On? { TookDoes(m, frame); } else { assert Step(m, move) == m; }
    }
  }

  // ----- The thread -----

  /** What one turn of the loop finds: controls at once, then a control or a frame within the wait. */
  datatype TurnInput = TurnInput(controls: seq<ControlInput>, awaited: Option<ControlInput>, frame: Option<FrameInput>)

  function AfterControls(m: Mirror, controls: seq<ControlInput>): Mirror {
    if controls == [] then m
    else Step(AfterControls(m, controls[..|controls| - 1]), Controlled(controls[|controls| - 1]))
  }

  /** Controls first; then, if disabled, at most one awaited control, and otherwise at most one frame. */
  function AfterTurn(m: Mirror, input: TurnInput): Mirror {
    var ready := AfterControls(m, input.controls);
    if !ready.enabled && input.awaited.Some? then Step(ready, Awaited(input.awaited.value))
    else if ready.enabled && input.frame.Some? then Step(ready, Took(input.frame.value))
    else ready
  }

  function AfterTurns(turns: seq<TurnInput>): Mirror {
    if turns == [] then STOPPED_MIRROR else AfterTurn(AfterTurns(turns[..|turns| - 1]), turns[|turns| - 1])
  }

  lemma {:induction false} ControlsKeep(m: Mirror, controls: seq<ControlInput>)
    requires Inv(m)
    ensures Inv(AfterControls(m, controls))
  {
    if controls != [] {
      ControlsKeep(m, controls[..|controls| - 1]);
      StepKeeps(AfterControls(m, controls[..|controls| - 1]), Controlled(controls[|controls| - 1]));
    }
  }

  lemma {:induction false} TurnsKeep(turns: seq<TurnInput>)
    ensures Inv(AfterTurns(turns))
  {
    if turns != [] {
      var m, input := AfterTurns(turns[..|turns| - 1]), turns[|turns| - 1];
      TurnsKeep(turns[..|turns| - 1]);
      ControlsKeep(m, input.controls);
      var ready := AfterControls(m, input.controls);
      if input.awaited.Some? { StepKeeps(ready, Awaited(input.awaited.value)); }
      if input.frame.Some? { StepKeeps(ready, Took(input.frame.value)); }
    }
  }

  lemma {:induction false} StoppedIgnoresControls(m: Mirror, controls: seq<ControlInput>, i: nat)
    requires i <= |controls| && (i == |controls| || !AfterControls(m, controls[..i]).running)
    ensures AfterControls(m, controls) == AfterControls(m, controls[..i])
  {
    if i == |controls| {
      assert controls[..i] == controls;
    } else {
      var init := controls[..|controls| - 1];
      assert init[..i] == controls[..i];
      StoppedIgnoresControls(m, init, i);
    }
  }

  lemma {:induction false} StoppedIgnoresTurns(turns: seq<TurnInput>, i: nat)
    requires i <= |turns| && (i == |turns| || !AfterTurns(turns[..i]).running)
    ensures AfterTurns(turns) == AfterTurns(turns[..i])
  {
    if i == |turns| {
      assert turns[..i] == turns;
    } else {
      var init, last := turns[..|turns| - 1], turns[|turns| - 1];
      assert init[..i] == turns[..i];
      StoppedIgnoresTurns(init, i);
      assert last.controls[..0] == [];
      StoppedIgnoresControls(AfterTurns(init), last.controls, 0);
    }
  }

  class LocalMirrorWorker {
    var enabled: bool
    var hasSink: bool
    var running: bool
    var events: seq<MirrorEvent>   // the event channel
    ghost var record: Mirror       // the observer's fields

    ghost function View(): Mirror
      reads this
    {
      record.(enabled := enabled, hasSink := hasSink, running := running, events := events)
    }

    constructor ()
      ensures View() == STOPPED_MIRROR
    {
      enabled, hasSink, running, events := false, false, true, [];
      record := STOPPED_MIRROR;
    }

    method TakeSink()
      modifies this`hasSink, this`record
      ensures View() == CloseSink(old(View()))
    {
      if hasSink {
        record := record.(sinksClosed := record.sinksClosed + 1);
        hasSink := false;
      }
    }

    method ClearStaleFrames(stale: seq<FanoutAudioFrame>)
      modifies this`record
      ensures View() == ClearStale(old(View()), stale)
    {
      record := record.(taken := record.taken + stale);
    }

    method StartSink(target: Option<string>)
      modifies this
      ensures View() == OpenSink(old(View()), target)
    {
      hasSink := true;
      record := record.(sinksOpened := record.sinksOpened + 1);
      enabled := true;
      events := events + [Started(target), StateChanged(Mirroring)];
    }

    method HandleControl(input: ControlInput)
      modifies this
      ensures View() == OnControl(old(View()), input)
    {
      match input.control
      case Start(target) =>
        TakeSink();
        if input.engineOk {
          StartSink(target);
        } else {
          enabled := false;
          ClearStaleFrames(input.stale);
          events := events + [Failed];
        }
      case Stop =>
        enabled := false;
        ClearStaleFrames(input.stale);
        var wasOpen := hasSink;
        TakeSink();
        if wasOpen && !input.stopOk { events := events + [Failed]; }
        events := events + [StateChanged(Disabled)];
      case Shutdown =>
        TakeSink();
        running := false;
    }

    method HandleIdleControl(input: ControlInput)
      modifies this
      ensures View() == OnIdleControl(old(View()), input)
    {
      match input.control
      case Start(target) =>
        if input.engineOk {
          StartSink(target);
        } else {
          ClearStaleFrames(input.stale);
          events := events + [Failed];
        }
      case Stop => events := events + [StateChanged(Disabled)];
      case Shutdown => running := false;
    }

    method PlayFrame(input: FrameInput)
      modifies this
      ensures View() == OnFrame(old(View()), input)
    {
      record := record.(taken := record.taken + [input.frame]);
      if !hasSink {
        enabled := false;
        ClearStaleFrames(input.stale);
        events := events + [Failed];
      } else if !input.writeOk {
        enabled := false;
        ClearStaleFrames(input.stale);
        TakeSink();
        events := events + [Failed];
      } else {
        record := record.(played := record.played + [input.frame]);
        events := events + [Played(|input.frame.payload|)];
      }
    }

    method HandleControls(controls: seq<ControlInput>)
      modifies this
      ensures View() == AfterControls(old(View()), controls)
    {
      var i := 0;
      while i < |controls| && running
        invariant 0 <= i <= |controls| && View() == AfterControls(old(View()), controls[..i])
      {
        assert controls[..i + 1][..i] == controls[..i];
        HandleControl(controls[i]);
        i := i + 1;
      }
      StoppedIgnoresControls(old(View()), controls, i);
    }

    method Turn(input: TurnInput)
      modifies this
      ensures View() == AfterTurn(old(View()), input)
    {
      HandleControls(input.controls);
      if !running { return; }
      if !enabled {
        if input.awaited.Some? { HandleIdleControl(input.awaited.value); }
      } else if input.frame.Some? {
        PlayFrame(input.frame.value);
      }
    }

    /** The thread does exactly its turns, and keeps what MirrorIsHonest says of runs. */
    method WorkerLoop(turns: seq<TurnInput>)
      requires View() == STOPPED_MIRROR
      modifies this
      ensures View() == AfterTurns(turns) && Inv(View())
    {
      var i := 0;
      while i < |turns| && running
        invariant 0 <= i <= |turns| && View() == AfterTurns(turns[..i])
      {
        assert turns[..i + 1][..i] == turns[..i];
        Turn(turns[i]);
        i := i + 1;
      }
      StoppedIgnoresTurns(turns, i);
      TurnsKeep(turns);
    }
  }
}
