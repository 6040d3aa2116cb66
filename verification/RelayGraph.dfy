/** The resumable relay: begin -> complete -> (begin | next | finalize), with a
    checkpoint after every node. Nodes turn one saved state into the next; the
    engine that runs them is a loop. */
module RelayGraph {
  import opened RelayTypes
  import opened RelayLoop
  import opened Options

  datatype Pending = Pending(stageIdx: nat, attempt: nat, seat: string, pool: string)

  datatype StopReason = NotStopped | StopFailed | StopCompleted | StopRejected | StopEmpty

  /** The working state a checkpoint holds. */
  datatype GState = GState(stages: seq<Stage>, records: seq<Record>, trace: seq<Attempt>, index: nat, attempt: nat,
                           attempted: seq<string>, lastFailedPool: string, pending: Option<Pending>, q: QState,
                           callsMade: nat, continueOnReject: bool, stopReason: StopReason)

  /** The node that runs next. */
  datatype Node = Begin | Complete | Next | Finalize | End

  datatype RelayError = NoSeat(role: string, candidates: seq<string>, reset: Option<real>) | SeatError(detail: string)

  /** A node either saves a new state or raises, saving nothing. */
  datatype StepResult = Moved(node: Node, s: GState, w: World) | Raised(error: RelayError, w: World)

  function Initial(stages: seq<Stage>, continueOnReject: bool): GState {
    GState(stages, [], [], 0, 0, [], "", None, NO_QUARANTINE, 0, continueOnReject, NotStopped)
  }

  function Names(attempted: seq<string>): set<string> {
    set a | a in attempted
  }

  // ---- nodes ----------------------------------------------------------

  function BeginAttempt(env: Env, s: GState, w: World): StepResult
    requires s.index < |s.stages| && StagesKnown(env, s.stages)
  {
    var stage := s.stages[s.index];
    var (chosen, t) := Select(env, stage.candidates, s.q, Names(s.attempted), s.lastFailedPool, w.ticks);
    SelectIsUntried(env, stage.candidates, s.q, Names(s.attempted), s.lastFailedPool, w.ticks);
    match chosen
    case None =>
      var (reset, t') := NextReset(env, s.q, stage.candidates, t);
      Raised(NoSeat(stage.role, stage.candidates, reset), World(t', w.calls))
    case Some(name) =>
      Moved(Complete,
            s.(attempt := s.attempt + 1, callsMade := s.callsMade + 1,
               pending := Some(Pending(s.index + 1, s.attempt + 1, name, Pool(env.seats[name])))),
            World(t, w.calls))
  }

  /** The provider call a complete node is about to make. */
  function PendingCall(s: GState): Call
    requires s.pending.Some? && s.index < |s.stages|
  {
    Call(s.index + 1, s.stages[s.index].role, s.pending.value.seat, s.records)
  }

  /** The state saved once the pending call came back with `outcome`. */
  function Settled(env: Env, s: GState, outcome: Outcome, now: real): GState
    requires s.pending.Some? && s.index < |s.stages| && s.pending.value.seat in env.seats
  {
    var p := s.pending.value;
    var role := s.stages[s.index].role;
    match outcome
    case Answer(verdict, response) =>
      s.(records := s.records + [Record(role, p.seat, env.seats[p.seat].model, verdict, response)],
         trace := s.trace + [Attempt(s.index + 1, role, p.seat, p.attempt, Pool(env.seats[p.seat]), MarkOk, "")],
         pending := None)
    case Fatal(detail) =>
      s.(attempted := s.attempted + [p.seat],
         trace := s.trace + [Attempt(s.index + 1, role, p.seat, p.attempt, p.pool, MarkFailed, detail)],
         pending := None, stopReason := StopFailed)
    case Retryable(detail) =>
      s.(attempted := s.attempted + [p.seat],
         trace := s.trace + [Attempt(s.index + 1, role, p.seat, p.attempt, p.pool, MarkQuarantined, detail)],
         q := Registered(s.q, p.pool, now), lastFailedPool := p.pool, pending := None)
  }

  function Route(s: GState): Node {
    if s.stopReason == StopFailed then Finalize
    else if |s.records| <= s.index then Begin
    else if s.records[|s.records| - 1].verdict == REJECT && !s.continueOnReject && |s.records| < |s.stages|
    then Finalize
    else if |s.records| < |s.stages| then Next
    else Finalize
  }

  function CompleteAttempt(env: Env, s: GState, w: World): StepResult
    requires s.pending.Some? && s.index < |s.stages| && s.pending.value.seat in env.seats
  {
    var call := PendingCall(s);
    var outcome := env.provider(|w.calls|, call);
    var s' := Settled(env, s, outcome, env.clock(w.ticks));
    Moved(Route(s'), s', World(if outcome.Retryable? then w.ticks + 1 else w.ticks, w.calls + [call]))
  }

  function NextStage(s: GState): GState {
    s.(index := s.index + 1, attempt := 0, attempted := [], lastFailedPool := "", pending := None)
  }

  function FinalizeRun(s: GState, w: World): StepResult
    requires s.stopReason == StopFailed ==> s.trace != []
  {
    if s.stopReason == StopFailed then Raised(SeatError(s.trace[|s.trace| - 1].detail), w)
    else if s.records == [] then Moved(End, s.(stopReason := StopEmpty), w)
    else if s.records[|s.records| - 1].verdict == REJECT && !s.continueOnReject && |s.records| < |s.stages| then
      Moved(End, s.(stopReason := StopRejected), w)
    else Moved(End, s.(stopReason := StopCompleted), w)
  }

  // ---- what every checkpoint satisfies ------------------------------------

  /** Attempts are numbered 1, 2, 3, ... within a stage, and stages come in order. */
  ghost predicate Numbered(trace: seq<Attempt>) {
    forall j | 0 <= j < |trace| ::
      if j > 0 && trace[j - 1].stageIdx == trace[j].stageIdx then trace[j].attempt == trace[j - 1].attempt + 1
      else trace[j].attempt == 1 && (j > 0 ==> trace[j - 1].stageIdx < trace[j].stageIdx)
  }

  /** The number of the last traced attempt of stage `idx`, 0 before the first. */
  function LastAttempt(trace: seq<Attempt>, idx: nat): nat {
    if trace != [] && trace[|trace| - 1].stageIdx == idx then trace[|trace| - 1].attempt else 0
  }

  /** The traced attempts that brought a record, in order. */
  function Successes(trace: seq<Attempt>): seq<Attempt> {
    if trace == [] then []
    else
      var last := trace[|trace| - 1];
      Successes(trace[..|trace| - 1]) + (if last.outcome == MarkOk then [last] else [])
  }

  ghost predicate RecordFits(stage: Stage, record: Record) {
    record.role == stage.role && record.seatName in stage.candidates
  }

  /** Successful trace lines and records tell the same story. */
  ghost predicate TraceMatchesRecords(trace: seq<Attempt>, records: seq<Record>) {
    var ok := Successes(trace);
    && |ok| == |records|
    && forall i | 0 <= i < |ok| ::
         ok[i].stageIdx == i + 1 && ok[i].seatName == records[i].seatName && ok[i].role == records[i].role
  }

  ghost predicate PendingFits(env: Env, s: GState)
    requires s.index < |s.stages|
  {
    s.pending.Some? ==>
      var p := s.pending.value;
      && p.stageIdx == s.index + 1 && p.attempt == s.attempt
      && p.seat in s.stages[s.index].candidates && p.seat !in s.attempted
      && p.seat in env.seats && p.pool == Pool(env.seats[p.seat])
  }

  /** The last record stops the relay before its last stage. */
  predicate RejectStops(s: GState) {
    s.records != [] && s.records[|s.records| - 1].verdict == REJECT && !s.continueOnReject && |s.records| < |s.stages|
  }

  ghost predicate NodeFits(node: Node, s: GState) {
    match node
    case Begin => |s.records| == s.index && s.stopReason == NotStopped
    case Complete => |s.records| == s.index && s.stopReason == NotStopped
    case Next => |s.records| == s.index + 1 < |s.stages| && s.stopReason == NotStopped && !RejectStops(s)
    case Finalize =>
      || (s.stopReason == NotStopped && |s.records| == s.index + 1 && (RejectStops(s) || |s.records| == |s.stages|))
      || (s.stopReason == StopFailed && |s.records| == s.index && s.trace != []
          && s.trace[|s.trace| - 1].outcome == MarkFailed)
    case End =>
      && |s.records| == s.index + 1
      && s.stopReason == (if RejectStops(s) then StopRejected else StopCompleted)
      && (s.stopReason == StopCompleted ==> |s.records| == |s.stages|)
  }

  /** Where the run stands: stage, records, pending marker and next node agree. */
  ghost predicate PlaceOk(env: Env, node: Node, s: GState) {
    && s.index < |s.stages| && StagesKnown(env, s.stages)
    && |s.records| <= s.index + 1
    && (forall i | 0 <= i < |s.records| :: RecordFits(s.stages[i], s.records[i]))
    && (node == Complete <==> s.pending.Some?)
    && PendingFits(env, s)
    && NodeFits(node, s)
  }

  /** The books: the trace, the attempt counter and the call counter agree. */
  ghost predicate BooksOk(s: GState) {
    && Numbered(s.trace)
    && (forall j | 0 <= j < |s.trace| :: 1 <= s.trace[j].stageIdx <= s.index + 1)
    && s.attempt == LastAttempt(s.trace, s.index + 1) + (if s.pending.Some? then 1 else 0)
    && s.callsMade == |s.trace| + (if s.pending.Some? then 1 else 0)
    && TraceMatchesRecords(s.trace, s.records)
  }

  ghost predicate CheckpointOk(env: Env, node: Node, s: GState) {
    PlaceOk(env, node, s) && BooksOk(s)
  }

  lemma InitialIsOk(env: Env, stages: seq<Stage>, continueOnReject: bool)
    requires stages != [] && StagesKnown(env, stages)
    ensures CheckpointOk(env, Begin, Initial(stages, continueOnReject))
  {
  }

  /** One node, whichever it is. */
  function Step(env: Env, node: Node, s: GState, w: World): StepResult
    requires CheckpointOk(env, node, s) && node != End
  {
    match node
    case Begin => BeginAttempt(env, s, w)
    case Complete => CompleteAttempt(env, s, w)
    case Next => Moved(Begin, NextStage(s), w)
    case Finalize => FinalizeRun(s, w)
  }

  lemma NumberedAppend(trace: seq<Attempt>, a: Attempt)
    requires Numbered(trace) && a.attempt == LastAttempt(trace, a.stageIdx) + 1
    requires forall j | 0 <= j < |trace| :: trace[j].stageIdx <= a.stageIdx
    ensures Numbered(trace + [a]) && LastAttempt(trace + [a], a.stageIdx) == a.attempt
  {
  }

  lemma SuccessesAppend(trace: seq<Attempt>, a: Attempt)
    ensures Successes(trace + [a]) == Successes(trace) + (if a.outcome == MarkOk then [a] else [])
  {
  }

  lemma SettledKeepsPlace(env: Env, s: GState, outcome: Outcome, now: real)
    requires PlaceOk(env, Complete, s)
    ensures var s' := Settled(env, s, outcome, now); PlaceOk(env, Route(s'), s')
  {
  }

  /** A success adds one trace line and one record that tell the same story. */
  lemma MatchSuccess(trace: seq<Attempt>, records: seq<Record>, a: Attempt, r: Record)
    requires TraceMatchesRecords(trace, records) && a.outcome == MarkOk
    requires a.stageIdx == |records| + 1 && a.seatName == r.seatName && a.role == r.role
    ensures TraceMatchesRecords(trace + [a], records + [r])
  {
  }

  lemma MatchFailure(trace: seq<Attempt>, records: seq<Record>, a: Attempt)
    requires TraceMatchesRecords(trace, records) && a.outcome != MarkOk
    ensures TraceMatchesRecords(trace + [a], records)
  {
  }

  /** The books after the pending call became one more trace line. */
  lemma BooksWithLine(s: GState, s': GState, a: Attempt)
    requires s.pending.Some? && BooksOk(s) && a.stageIdx == s.index + 1 && a.attempt == s.attempt
    requires s'.trace == s.trace + [a] && s'.pending.None? && s'.index == s.index && s'.attempt == s.attempt
    requires s'.callsMade == s.callsMade && TraceMatchesRecords(s'.trace, s'.records)
    ensures BooksOk(s')
  {
  }

  lemma SettledKeepsBooks(env: Env, s: GState, outcome: Outcome, now: real)
    requires PlaceOk(env, Complete, s) && BooksOk(s)
    ensures BooksOk(Settled(env, s, outcome, now))
  {
    var s' := Settled(env, s, outcome, now);
    var a := s'.trace[|s.trace|];
    assert s'.trace == s.trace + [a];
    if outcome.Answer? {
      MatchSuccess(s.trace, s.records, a, s'.records[|s.records|]);
    } else {
      MatchFailure(s.trace, s.records, a);
    }
    BooksWithLine(s, s', a);
  }

  lemma BeginKeepsCheckpoint(env: Env, s: GState, w: World)
    requires CheckpointOk(env, Begin, s)
    ensures var r := BeginAttempt(env, s, w); r.Moved? ==> r.node == Complete && CheckpointOk(env, Complete, r.s)
  {
    var stage := s.stages[s.index];
    SelectIsUntried(env, stage.candidates, s.q, Names(s.attempted), s.lastFailedPool, w.ticks);
    var (chosen, _) := Select(env, stage.candidates, s.q, Names(s.attempted), s.lastFailedPool, w.ticks);
    if chosen.Some? {
      assert chosen.value in stage.candidates && chosen.value !in Names(s.attempted);
      assert StageKnown(env, stage);
    }
  }

  lemma NextKeepsCheckpoint(env: Env, s: GState)
    requires CheckpointOk(env, Next, s)
    ensures CheckpointOk(env, Begin, NextStage(s))
  {
  }

  /** Every node keeps the checkpoint invariant. */
  lemma StepKeepsCheckpoint(env: Env, node: Node, s: GState, w: World)
    requires CheckpointOk(env, node, s) && node != End
    ensures var r := Step(env, node, s, w); r.Moved? ==> CheckpointOk(env, r.node, r.s)
  {
    match node
    case Begin => BeginKeepsCheckpoint(env, s, w);
    case Complete =>
      SettledKeepsPlace(env, s, env.provider(|w.calls|, PendingCall(s)), env.clock(w.ticks));
      SettledKeepsBooks(env, s, env.provider(|w.calls|, PendingCall(s)), env.clock(w.ticks));
    case Next => NextKeepsCheckpoint(env, s);
    case Finalize => 
  }

  // ---- the engine loop ----------------------------------------------------

  function Rank(node: Node): nat {
    match node case Begin => 4 case Complete => 3 case Next => 2 case Finalize => 1 case End => 0
  }

  ghost function Left(s: GState): nat
    requires s.index < |s.stages|
  {
    |Untried(s.stages[s.index], Names(s.attempted))|
  }

  /** Stages left, then candidates left, then the node: each step makes it smaller. */
  lemma StepMakesProgress(env: Env, node: Node, s: GState, w: World)
    requires CheckpointOk(env, node, s) && node != End
    ensures var r := Step(env, node, s, w);
            r.Moved? ==>
              && r.s.stages == s.stages && r.s.index < |s.stages|
              && (r.s.index == s.index + 1
                  || (r.s.index == s.index && Left(r.s) < Left(s))
                  || (r.s.index == s.index && Left(r.s) == Left(s) && Rank(r.node) < Rank(node)))
  {
    if node == Complete {
      var p := s.pending.value;
      FewerUntried(s.stages[s.index], Names(s.attempted), p.seat);
      assert Names(s.attempted + [p.seat]) == Names(s.attempted) + {p.seat};
    }
  }

  /** How an engine run ends: the last saved node and state, and the error if a node raised. */
  datatype GraphRun = GraphRun(error: Option<RelayError>, node: Node, s: GState, w: World)

  function RunGraph(env: Env, node: Node, s: GState, w: World): GraphRun
    requires CheckpointOk(env, node, s)
    decreases |s.stages| - s.index, Left(s), Rank(node)
  {
    if node == End then GraphRun(None, End, s, w)
    else
      StepKeepsCheckpoint(env, node, s, w);
      StepMakesProgress(env, node, s, w);
      match Step(env, node, s, w)
      case Raised(error, w') => GraphRun(Some(error), node, s, w')
      case Moved(node', s', w') => RunGraph(env, node', s', w')
  }

  method CompleteNode(host: Host, s: GState) returns (node: Node, update: GState)
    requires CheckpointOk(host.env, Complete, s)
    modifies host
    ensures Moved(node, update, host.World()) == CompleteAttempt(host.env, s, old(host.World()))
  {
    var p := s.pending.value;
    var role := s.stages[s.index].role;
    var quarantine := new RelayQuarantine.FromSnapshot(s.q);
    update := s;
    var outcome := host.Invoke(PendingCall(s));
    match outcome {
      case Answer(verdict, response) =>
        var record := Record(role, p.seat, host.env.seats[p.seat].model, verdict, response);
        update := update.(records := s.records + [record]);
        var pool := Pool(host.env.seats[p.seat]);
        update := update.(trace := s.trace + [Attempt(s.index + 1, role, p.seat, p.attempt, pool, MarkOk, "")]);
        update := update.(pending := None);
      case Fatal(detail) =>
        update := update.(attempted := s.attempted + [p.seat]);
        update := update.(trace :=
          s.trace + [Attempt(s.index + 1, role, p.seat, p.attempt, p.pool, MarkFailed, detail)]);
        update := update.(pending := None);
        update := update.(stopReason := StopFailed);
      case Retryable(detail) =>
        update := update.(attempted := s.attempted + [p.seat]);
        quarantine.Register(host, p.pool);
        var snapshot := quarantine.Snapshot();
        update := update.(q := snapshot);
        update := update.(lastFailedPool := p.pool);
        update := update.(pending := None);
        update := update.(trace :=
          s.trace + [Attempt(s.index + 1, role, p.seat, p.attempt, p.pool, MarkQuarantined, detail)]);
    }
    node := Route(update);
  }

  method BeginNode(host: Host, s: GState) returns (r: StepResult)
    requires CheckpointOk(host.env, Begin, s)
    modifies host
    ensures r == BeginAttempt(host.env, s, old(host.World())) && r.w == host.World()
  {
    var stage := s.stages[s.index];
    var quarantine := new RelayQuarantine.FromSnapshot(s.q);
    SelectIsUntried(host.env, stage.candidates, s.q, Names(s.attempted), s.lastFailedPool, host.ticks);
    var chosen := SelectStageCandidate(host, stage, quarantine, Names(s.attempted), s.lastFailedPool);
    if chosen.None? {
      var reset := quarantine.NextResetOf(host, stage.candidates);
      r := Raised(NoSeat(stage.role, stage.candidates, reset), World(host.ticks, host.calls));
    } else {
      var pending := Pending(s.index + 1, s.attempt + 1, chosen.value, Pool(host.env.seats[chosen.value]));
      r := Moved(Complete, s.(attempt := s.attempt + 1, callsMade := s.callsMade + 1, pending := Some(pending)),
                 World(host.ticks, host.calls));
    }
  }

  /** The session's saved checkpoint, advanced node by node. */
  class Session {
    var node: Node
    var state: GState

    constructor (stages: seq<Stage>, continueOnReject: bool)
      ensures node == Begin && state == Initial(stages, continueOnReject)
    {
      node, state := Begin, Initial(stages, continueOnReject);
    }

    /** Runs nodes until the end or an error; each finished node is saved. */
    method Invoke(host: Host) returns (error: Option<RelayError>)
      requires CheckpointOk(host.env, node, state)
      modifies this, host
      ensures CheckpointOk(host.env, node, state)
      ensures GraphRun(error, node, state, host.World()) == RunGraph(host.env, old(node), old(state), old(host.World()))
    {
      error := None;
      while node != End
        invariant CheckpointOk(host.env, node, state)
        invariant RunGraph(host.env, node, state, host.World())
               == RunGraph(host.env, old(node), old(state), old(host.World()))
        decreases |state.stages| - state.index, Left(state), Rank(node)
      {
        StepKeepsCheckpoint(host.env, node, state, host.World());
        StepMakesProgress(host.env, node, state, host.World());
        match node {
          case Begin =>
            var r := BeginNode(host, state);
            if r.Raised? {
              return Some(r.error);
            }
            node, state := r.node, r.s;
          case Complete =>
            var node', update := CompleteNode(host, state);
            node, state := node', update;
          case Next =>
            node, state := Begin, NextStage(state);
          case Finalize =>
            var r := FinalizeRun(state, World(host.ticks, host.calls));
            if r.Raised? {
              return Some(r.error);
            }
            node, state := r.node, r.s;
        }
      }
    }
  }
}
