/** A crash-free graph run and the ephemeral loop do the same thing. */
module RelayRefinement {
  import opened RelayTypes
  import opened RelayLoop
  import opened RelayGraph
  import opened Options

  /** The loop's view of a checkpoint that is about to begin an attempt. */
  function LoopView(s: GState, w: World): LoopState {
    LoopState(s.q, w, Names(s.attempted), s.lastFailedPool, s.attempt, s.trace)
  }

  /** The turn of the loop a checkpoint is about to take. */
  function TurnOf(env: Env, s: GState, w: World): Turn
    requires CheckpointOk(env, Begin, s)
  {
    StageTurn(env, s.index + 1, s.stages[s.index], s.records, LoopView(s, w))
  }

  /** The stage loop from a checkpoint on. */
  function StageOf(env: Env, s: GState, w: World): StageRun
    requires CheckpointOk(env, Begin, s)
  {
    RunStage(env, s.index + 1, s.stages[s.index], s.records, LoopView(s, w))
  }

  /** The trace without the loop's final "refused" line, which the graph leaves to the raised error. */
  function WithoutRefusal(trace: seq<Attempt>): seq<Attempt> {
    if trace != [] && trace[|trace| - 1].outcome == MarkRefused then trace[..|trace| - 1] else trace
  }

  /** `s` with the fields a loop state determines. */
  ghost predicate Follows(s: GState, from: GState, l: LoopState) {
    && s.stages == from.stages && s.index == from.index && s.continueOnReject == from.continueOnReject
    && s.q == l.q && s.attempt == l.attempt && Names(s.attempted) == l.attempted
  }

  /** The two steps begin, complete of one attempt. */
  function AfterAttempt(env: Env, s: GState, w: World): GraphRun
    requires CheckpointOk(env, Begin, s)
  {
    StepKeepsCheckpoint(env, Begin, s, w);
    var b := BeginAttempt(env, s, w);
    if b.Raised? then GraphRun(Some(b.error), Begin, s, b.w)
    else
      var c := CompleteAttempt(env, b.s, b.w);
      GraphRun(None, c.node, c.s, c.w)
  }

  /** An attempt that leaves the stage open brings the graph back to `begin`. */
  ghost predicate TriesAgain(env: Env, s: GState, l: LoopState, g: GraphRun) {
    && g.error.None? && g.node == Begin && CheckpointOk(env, Begin, g.s)
    && Follows(g.s, s, l) && LoopView(g.s, g.w) == l && g.s.records == s.records
  }

  /** An attempt that ends the stage ends it in the graph as it does in the loop. */
  ghost predicate EndsAlike(env: Env, s: GState, run: StageRun, g: GraphRun) {
    match run.end
    case Refused(role, candidates, reset) =>
      && g == GraphRun(Some(NoSeat(role, candidates, reset)), Begin, s, run.l.w)
      && s.trace == WithoutRefusal(run.l.trace) && s.q == run.l.q
    case SeatFailed(detail) =>
      && g == GraphRun(None, Finalize, g.s, run.l.w) && CheckpointOk(env, Finalize, g.s)
      && g.s.stopReason == StopFailed && g.s.trace == run.l.trace && g.s.trace[|g.s.trace| - 1].detail == detail
      && Follows(g.s, s, run.l) && g.s.records == s.records
    case Done(record) =>
      && g == GraphRun(None, Route(g.s), g.s, run.l.w) && CheckpointOk(env, Route(g.s), g.s)
      && g.s.stopReason == NotStopped && g.s.trace == run.l.trace
      && Follows(g.s, s, run.l) && g.s.records == s.records + [record]
  }

  /** Only a refusal leaves a refusal line. */
  ghost predicate LineFits(run: StageRun) {
    run.l.trace != [] && (run.end.Refused? <==> run.l.trace[|run.l.trace| - 1].outcome == MarkRefused)
  }

  lemma RefusalIsATurn(env: Env, s: GState, w: World)
    requires CheckpointOk(env, Begin, s) && BeginAttempt(env, s, w).Raised?
    ensures var turn := TurnOf(env, s, w);
            turn.Ends? && EndsAlike(env, s, turn.run, AfterAttempt(env, s, w)) && LineFits(turn.run)
  {
  }

  /** A completed attempt and a turn of the loop that called a provider. */
  ghost predicate SettledLike(s: GState, c: StepResult, turn: Turn)
    requires c.Moved?
  {
    match turn
    case Again(l) =>
      && c.w == l.w && LoopView(c.s, c.w) == l && c.s.records == s.records && Follows(c.s, s, l)
      && c.s.stopReason == NotStopped
    case Ends(run) =>
      && c.w == run.l.w && Follows(c.s, s, run.l) && c.s.trace == run.l.trace && !run.end.Refused? && LineFits(run)
      && (run.end.Done? ==> c.s.records == s.records + [run.end.record] && c.s.stopReason == NotStopped)
      && (run.end.SeatFailed? ==>
            c.s.records == s.records && c.s.stopReason == StopFailed
            && c.s.trace[|c.s.trace| - 1].detail == run.end.detail)
  }

  /** The loop's turn, once its provider call is the graph's pending call. */
  /** The loop's turn with `seat` chosen, and the completion of `b`, which has that seat's call pending. */
  lemma CallSettles(env: Env, s: GState, b: GState, w: World, t: nat, seat: string)
    requires s.index < |s.stages| && StageKnown(env, s.stages[s.index]) && s.stopReason == NotStopped
    requires Select(env, s.stages[s.index].candidates, s.q, Names(s.attempted), s.lastFailedPool, w.ticks)
          == (Some(seat), t)
    requires seat in env.seats && b.pending == Some(Pending(s.index + 1, s.attempt + 1, seat, Pool(env.seats[seat])))
    requires b == s.(attempt := s.attempt + 1, callsMade := b.callsMade, pending := b.pending)
    ensures SettledLike(s, CompleteAttempt(env, b, World(t, w.calls)),
                        StageTurn(env, s.index + 1, s.stages[s.index], s.records, LoopView(s, w)))
  {
    assert Names(s.attempted + [seat]) == Names(s.attempted) + {seat};
  }

  lemma SettledIsATurn(env: Env, s: GState, b: GState, w: World, t: nat, seat: string)
    requires CheckpointOk(env, Begin, s) && CheckpointOk(env, Complete, b)
    requires Select(env, s.stages[s.index].candidates, s.q, Names(s.attempted), s.lastFailedPool, w.ticks)
          == (Some(seat), t)
    requires BeginAttempt(env, s, w) == Moved(Complete, b, World(t, w.calls))
    ensures SettledLike(s, CompleteAttempt(env, b, World(t, w.calls)), TurnOf(env, s, w))
  {
    CallSettles(env, s, b, w, t, seat);
  }

  /** One attempt in the graph is one turn of the loop. */
  lemma AttemptIsATurn(env: Env, s: GState, w: World)
    requires CheckpointOk(env, Begin, s)
    ensures var turn := TurnOf(env, s, w);
            var g := AfterAttempt(env, s, w);
            match turn
            case Again(l) => TriesAgain(env, s, l, g)
            case Ends(run) => EndsAlike(env, s, run, g) && LineFits(run)
  {
    var b := BeginAttempt(env, s, w);
    if b.Raised? {
      RefusalIsATurn(env, s, w);
    } else {
      StepKeepsCheckpoint(env, Begin, s, w);
      StepKeepsCheckpoint(env, Complete, b.s, b.w);
      var (chosen, t) := Select(env, s.stages[s.index].candidates, s.q, Names(s.attempted), s.lastFailedPool, w.ticks);
      SettledIsATurn(env, s, b.s, w, t, chosen.value);
      var c := CompleteAttempt(env, b.s, b.w);
      assert AfterAttempt(env, s, w) == GraphRun(None, c.node, c.s, c.w);
      assert CheckpointOk(env, c.node, c.s) && c.node == Route(c.s);
    }
  }

  lemma RunThroughAttempt(env: Env, s: GState, w: World)
    requires CheckpointOk(env, Begin, s)
    ensures var g := AfterAttempt(env, s, w);
            && (g.error.None? ==> CheckpointOk(env, g.node, g.s))
            && RunGraph(env, Begin, s, w) == if g.error.None? then RunGraph(env, g.node, g.s, g.w) else g
  {
    StepKeepsCheckpoint(env, Begin, s, w);
    StepMakesProgress(env, Begin, s, w);
    var b := BeginAttempt(env, s, w);
    if b.Moved? {
      StepKeepsCheckpoint(env, Complete, b.s, b.w);
      StepMakesProgress(env, Complete, b.s, b.w);
    }
  }

  /** The graph, run from `begin`, went through the stage the way the loop did. */
  ghost predicate StageAlike(env: Env, s: GState, run: StageRun, g: GraphRun, s': GState) {
    match run.end
    case Refused(role, candidates, reset) =>
      && g == GraphRun(Some(NoSeat(role, candidates, reset)), Begin, s', run.l.w)
      && s'.records == s.records && s'.q == run.l.q && s'.trace == WithoutRefusal(run.l.trace)
    case SeatFailed(detail) =>
      && g == GraphRun(Some(SeatError(detail)), Finalize, s', run.l.w) && s'.stopReason == StopFailed
      && s'.records == s.records && s'.q == run.l.q && s'.trace == run.l.trace
    case Done(record) =>
      && CheckpointOk(env, Route(s'), s') && g == RunGraph(env, Route(s'), s', run.l.w)
      && s'.stopReason == NotStopped && Follows(s', s, run.l)
      && s'.records == s.records + [record] && s'.trace == run.l.trace
  }

  /** An attempt that ends the stage: the graph's run from here is what follows the attempt. */
  lemma StageEnds(env: Env, s: GState, w: World, run: StageRun)
    requires CheckpointOk(env, Begin, s)
    requires TurnOf(env, s, w) == Ends(run)
    ensures StageAlike(env, s, run, RunGraph(env, Begin, s, w), AfterAttempt(env, s, w).s) && LineFits(run)
  {
    var g := AfterAttempt(env, s, w);
    AttemptIsATurn(env, s, w);
    RunThroughAttempt(env, s, w);
    if run.end.SeatFailed? {
    }
  }

  /** What the rest of the stage does, it does for the stage as a whole. */
  lemma StageGoesOn(env: Env, s: GState, l: LoopState, g: GraphRun, run: StageRun, end: GraphRun, s': GState)
    requires TriesAgain(env, s, l, g) && StageAlike(env, g.s, run, end, s')
    ensures StageAlike(env, s, run, end, s')
  {
  }

  /** An attempt that does not end the stage: both sides go on from the same point, with one candidate less. */
  lemma AnotherAttempt(env: Env, s: GState, w: World, l: LoopState)
    requires CheckpointOk(env, Begin, s)
    requires TurnOf(env, s, w) == Again(l)
    ensures var g := AfterAttempt(env, s, w);
            && TriesAgain(env, s, l, g) && Left(g.s) < Left(s)
            && RunGraph(env, Begin, s, w) == RunGraph(env, Begin, g.s, g.w)
            && StageOf(env, s, w) == StageOf(env, g.s, g.w)
  {
    AttemptIsATurn(env, s, w);
    RunThroughAttempt(env, s, w);
    TurnUsesACandidate(env, s.index + 1, s.stages[s.index], s.records, LoopView(s, w));
  }

  /** A stage of the graph, all its fallbacks included, ends the way the stage loop ends. */
  lemma {:induction false} StageSimulates(env: Env, s: GState, w: World) returns (s': GState)
    requires CheckpointOk(env, Begin, s)
    ensures StageAlike(env, s, StageOf(env, s, w), RunGraph(env, Begin, s, w), s') && LineFits(StageOf(env, s, w))
    decreases Left(s)
  {
    var turn := TurnOf(env, s, w);
    var g := AfterAttempt(env, s, w);
    if turn.Again? {
      AnotherAttempt(env, s, w, turn.l);
      s' := StageSimulates(env, g.s, g.w);
      StageGoesOn(env, s, turn.l, g, StageOf(env, s, w), RunGraph(env, Begin, s, w), s');
    } else {
      s' := g.s;
      StageEnds(env, s, w, turn.run);
      assert StageOf(env, s, w) == turn.run;
    }
  }

  /** The graph run ends like the loop run: same calls with the same prompts, same clock
      readings, same records, same quarantine table, same attempts, same stop. */
  ghost predicate SameRun(loop: RelayRun, g: GraphRun) {
    && g.w == loop.w && g.s.records == loop.records && g.s.q == loop.q && g.s.trace == WithoutRefusal(loop.trace)
    && match loop.end
       case Completed => g.error.None? && g.node == End && g.s.stopReason == StopCompleted
       case Rejected => g.error.None? && g.node == End && g.s.stopReason == StopRejected
       case Stopped(Refused(role, candidates, reset)) =>
         g.error == Some(NoSeat(role, candidates, reset)) && g.s.stopReason == NotStopped
       case Stopped(SeatFailed(detail)) => g.error == Some(SeatError(detail)) && g.s.stopReason == StopFailed
       case Stopped(Done(_)) => false
  }

  /** The loop behind a finished stage. */
  function RestOfLoop(env: Env, s: GState, w: World): RelayRun
    requires s.index < |s.stages| && StagesKnown(env, s.stages)
  {
    if Route(s) == Finalize && RejectStops(s) then RelayRun(Rejected, s.records, s.q, w, s.trace)
    else RunStages(env, s.stages, s.index + 1, s.continueOnReject, s.records, s.q, w, s.trace)
  }

  lemma LoopAfterStage(env: Env, s: GState, w: World, run: StageRun, s': GState)
    requires CheckpointOk(env, Begin, s) && s.attempted == [] && s.lastFailedPool == "" && s.attempt == 0
    requires run == StageOf(env, s, w) && run.end.Done?
    requires CheckpointOk(env, Route(s'), s') && s'.stopReason == NotStopped && Follows(s', s, run.l)
    requires s'.records == s.records + [run.end.record] && s'.trace == run.l.trace
    ensures RunStages(env, s.stages, s.index, s.continueOnReject, s.records, s.q, w, s.trace)
         == RestOfLoop(env, s', run.l.w)
  {
    assert LoopView(s, w) == Start(s.q, w, s.trace);
    assert |s'.records| == s.index + 1;
  }

  lemma StageDone(env: Env, s: GState, w: World)
    requires CheckpointOk(env, Finalize, s) && s.stopReason == NotStopped && Route(s) == Finalize
    requires s.trace != [] && s.trace[|s.trace| - 1].outcome != MarkRefused
    ensures SameRun(RestOfLoop(env, s, w), RunGraph(env, Finalize, s, w))
  {
  }

  /** A stage that brings no record ends both runs. */
  lemma StopsAlike(env: Env, s: GState, w: World, run: StageRun, s': GState)
    requires CheckpointOk(env, Begin, s) && s.attempted == [] && s.lastFailedPool == "" && s.attempt == 0
    requires run == StageOf(env, s, w) && !run.end.Done?
    requires StageAlike(env, s, run, RunGraph(env, Begin, s, w), s') && LineFits(run)
    ensures SameRun(RunStages(env, s.stages, s.index, s.continueOnReject, s.records, s.q, w, s.trace),
                    RunGraph(env, Begin, s, w))
  {
    assert LoopView(s, w) == Start(s.q, w, s.trace);
    assert RunStages(env, s.stages, s.index, s.continueOnReject, s.records, s.q, w, s.trace)
        == RelayRun(Stopped(run.end), s.records, run.l.q, run.l.w, run.l.trace);
    if run.end.Refused? {
      RefusedGraphIsNotStopped(env, s, w);
    }
  }

  ghost predicate StageEntry(env: Env, s: GState) {
    CheckpointOk(env, Begin, s) && s.attempted == [] && s.lastFailedPool == "" && s.attempt == 0
  }

  function LoopFrom(env: Env, s: GState, w: World): RelayRun
    requires s.index <= |s.stages| && StagesKnown(env, s.stages)
  {
    RunStages(env, s.stages, s.index, s.continueOnReject, s.records, s.q, w, s.trace)
  }

  /** Behind a finished stage that is not the last of the run, both sides enter the next. */
  lemma NextStageBegins(env: Env, s: GState, w: World)
    requires CheckpointOk(env, Next, s) && Route(s) == Next
    ensures StageEntry(env, NextStage(s))
    ensures RestOfLoop(env, s, w) == LoopFrom(env, NextStage(s), w)
    ensures RunGraph(env, Next, s, w) == RunGraph(env, Begin, NextStage(s), w)
  {
  }

  /** A stage that brings a record leaves both sides behind it. */
  lemma DoneOnBothSides(env: Env, s: GState, w: World, run: StageRun, s': GState)
    requires StageEntry(env, s) && run == StageOf(env, s, w) && run.end.Done?
    requires StageAlike(env, s, run, RunGraph(env, Begin, s, w), s') && LineFits(run)
    ensures CheckpointOk(env, Route(s'), s') && s'.stopReason == NotStopped
    ensures s'.stages == s.stages && s'.index == s.index
    ensures s'.trace != [] && s'.trace[|s'.trace| - 1].outcome != MarkRefused
    ensures LoopFrom(env, s, w) == RestOfLoop(env, s', run.l.w)
    ensures RunGraph(env, Begin, s, w) == RunGraph(env, Route(s'), s', run.l.w)
  {
    LoopAfterStage(env, s, w, run, s');
  }

  /** One stage on both sides: either both runs are over and alike, or both go on with the next stage. */
  lemma StageOnBothSides(env: Env, s: GState, w: World) returns (more: bool, s': GState, w': World)
    requires StageEntry(env, s)
    ensures !more ==> SameRun(LoopFrom(env, s, w), RunGraph(env, Begin, s, w))
    ensures more ==> StageEntry(env, s') && s'.stages == s.stages && s'.index == s.index + 1
    ensures more ==> LoopFrom(env, s, w) == LoopFrom(env, s', w')
    ensures more ==> RunGraph(env, Begin, s, w) == RunGraph(env, Begin, s', w')
  {
    var run := StageOf(env, s, w);
    var done := StageSimulates(env, s, w);
    more, s', w' := run.end.Done? && Route(done) == Next, NextStage(done), run.l.w;
    if !run.end.Done? {
      StopsAlike(env, s, w, run, done);
    } else {
      DoneOnBothSides(env, s, w, run, done);
      if more {
        NextStageBegins(env, done, w');
      } else {
        StageDone(env, done, w');
      }
    }
  }

  lemma {:induction false} StagesSimulate(env: Env, s: GState, w: World)
    requires StageEntry(env, s)
    ensures SameRun(LoopFrom(env, s, w), RunGraph(env, Begin, s, w))
    decreases |s.stages| - s.index
  {
    var more, s', w' := StageOnBothSides(env, s, w);
    if more {
      StagesSimulate(env, s', w');
    }
  }

  /** A refusal at `begin` leaves the last saved checkpoint open. */
  lemma {:induction false} RefusedGraphIsNotStopped(env: Env, s: GState, w: World)
    requires CheckpointOk(env, Begin, s)
    ensures var g := RunGraph(env, Begin, s, w); g.node == Begin ==> g.s.stopReason == NotStopped
  {
    RunGraphKeepsCheckpoint(env, Begin, s, w);
  }

  lemma {:induction false} RunGraphKeepsCheckpoint(env: Env, node: Node, s: GState, w: World)
    requires CheckpointOk(env, node, s)
    ensures var g := RunGraph(env, node, s, w); CheckpointOk(env, g.node, g.s)
    decreases |s.stages| - s.index, Left(s), Rank(node)
  {
    if node != End {
      StepKeepsCheckpoint(env, node, s, w);
      StepMakesProgress(env, node, s, w);
      var r := Step(env, node, s, w);
      if r.Moved? {
        RunGraphKeepsCheckpoint(env, r.node, r.s, r.w);
      }
    }
  }

  /** For every stage list, clock and provider, from any point in the world's history. */
  lemma GraphRefinesLoop(env: Env, stages: seq<Stage>, continueOnReject: bool, w: World)
    requires stages != [] && StagesKnown(env, stages)
    ensures CheckpointOk(env, Begin, Initial(stages, continueOnReject))
    ensures SameRun(Ephemeral(env, stages, continueOnReject, w),
                    RunGraph(env, Begin, Initial(stages, continueOnReject), w))
  {
    InitialIsOk(env, stages, continueOnReject);
    StagesSimulate(env, Initial(stages, continueOnReject), w);
  }

  /** The same for the two programs: run on machines that are in the same state, they end alike. */
  method RunBoth(loopHost: Host, graphHost: Host, stages: seq<Stage>, continueOnReject: bool)
    returns (loopEnd: RelayEnd, records: seq<Record>, trace: seq<Attempt>, session: Session, error: Option<RelayError>)
    requires loopHost != graphHost && loopHost.env == graphHost.env && loopHost.World() == graphHost.World()
    requires stages != [] && StagesKnown(loopHost.env, stages)
    modifies loopHost, graphHost
    ensures loopHost.World() == graphHost.World()
    ensures session.state.records == records && session.state.trace == WithoutRefusal(trace)
    ensures loopEnd == Completed <==> error.None? && session.state.stopReason == StopCompleted
    ensures loopEnd == Rejected <==> error.None? && session.state.stopReason == StopRejected
    ensures loopEnd.Stopped? <==> error.Some?
  {
    GraphRefinesLoop(loopHost.env, stages, continueOnReject, loopHost.World());
    loopEnd, records, trace := RelayEphemeral(loopHost, stages, continueOnReject);
    session := new Session(stages, continueOnReject);
    error := session.Invoke(graphHost);
  }
}
