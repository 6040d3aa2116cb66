/** The ephemeral relay: one stage at a time, walking declared fallbacks. The
    loops are methods; each is proved to compute a recursive function, which is
    the reference the resumable graph is compared with. */
module RelayLoop {
  import opened RelayTypes
  import opened Options

  /** How one stage ends. */
  datatype StageEnd =
    | Done(record: Record)
    | Refused(role: string, candidates: seq<string>, reset: Option<real>)
    | SeatFailed(detail: string)

  /** Everything a stage loop changes. */
  datatype LoopState = LoopState(q: QState, w: World, attempted: set<string>, failedPool: string, attempt: nat,
                                 trace: seq<Attempt>)

  datatype StageRun = StageRun(end: StageEnd, l: LoopState)

  /** One turn of the stage loop: it ends the stage or tries again. */
  datatype Turn = Ends(run: StageRun) | Again(l: LoopState)

  /** The turn once `name` is chosen, at clock reading `t`. */
  function CallTurn(env: Env, idx: nat, stage: Stage, records: seq<Record>, l: LoopState, name: string, t: nat): Turn
    requires name in env.seats
  {
    var pool := Pool(env.seats[name]);
    var attempt := l.attempt + 1;
    var call := Call(idx, stage.role, name, records);
    var w := World(t, l.w.calls + [call]);
    match env.provider(|l.w.calls|, call)
    case Answer(verdict, response) =>
      Ends(StageRun(Done(Record(stage.role, name, env.seats[name].model, verdict, response)),
                    l.(w := w, attempt := attempt,
                       trace := l.trace + [Attempt(idx, stage.role, name, attempt, pool, MarkOk, "")])))
    case Fatal(detail) =>
      Ends(StageRun(SeatFailed(detail),
                    l.(w := w, attempt := attempt, attempted := l.attempted + {name},
                       trace := l.trace + [Attempt(idx, stage.role, name, attempt, pool, MarkFailed, detail)])))
    case Retryable(detail) =>
      Again(LoopState(Registered(l.q, pool, env.clock(t)), World(t + 1, w.calls), l.attempted + {name}, pool, attempt,
                      l.trace + [Attempt(idx, stage.role, name, attempt, pool, MarkQuarantined, detail)]))
  }

  function StageTurn(env: Env, idx: nat, stage: Stage, records: seq<Record>, l: LoopState): Turn
    requires StageKnown(env, stage)
  {
    var (chosen, t) := Select(env, stage.candidates, l.q, l.attempted, l.failedPool, l.w.ticks);
    SelectIsUntried(env, stage.candidates, l.q, l.attempted, l.failedPool, l.w.ticks);
    if chosen.None? then
      var (reset, t') := NextReset(env, l.q, stage.candidates, t);
      Ends(StageRun(Refused(stage.role, stage.candidates, reset),
                    l.(w := World(t', l.w.calls),
                       trace := l.trace
                                + [Attempt(idx, stage.role, "", l.attempt, "", MarkRefused, "no seat available")])))
    else CallTurn(env, idx, stage, records, l, chosen.value, t)
  }

  lemma TurnUsesACandidate(env: Env, idx: nat, stage: Stage, records: seq<Record>, l: LoopState)
    requires StageKnown(env, stage)
    ensures var turn := StageTurn(env, idx, stage, records, l);
            turn.Again? ==> |Untried(stage, turn.l.attempted)| < |Untried(stage, l.attempted)|
  {
    var turn := StageTurn(env, idx, stage, records, l);
    if turn.Again? {
      var (chosen, _) := Select(env, stage.candidates, l.q, l.attempted, l.failedPool, l.w.ticks);
      SelectIsUntried(env, stage.candidates, l.q, l.attempted, l.failedPool, l.w.ticks);
      FewerUntried(stage, l.attempted, chosen.value);
    }
  }

  function RunStage(env: Env, idx: nat, stage: Stage, records: seq<Record>, l: LoopState): StageRun
    requires StageKnown(env, stage)
    decreases |Untried(stage, l.attempted)|
  {
    TurnUsesACandidate(env, idx, stage, records, l);
    match StageTurn(env, idx, stage, records, l)
    case Ends(run) => run
    case Again(l') => RunStage(env, idx, stage, records, l')
  }

  lemma FewerUntried(stage: Stage, attempted: set<string>, name: string)
    requires name in stage.candidates && name !in attempted
    ensures |Untried(stage, attempted + {name})| < |Untried(stage, attempted)|
  {
    assert Untried(stage, attempted) == Untried(stage, attempted + {name}) + {name};
  }

  /** How a whole relay ends. */
  datatype RelayEnd = Completed | Rejected | Stopped(why: StageEnd)

  datatype RelayRun = RelayRun(end: RelayEnd, records: seq<Record>, q: QState, w: World, trace: seq<Attempt>)

  function Start(q: QState, w: World, trace: seq<Attempt>): LoopState {
    LoopState(q, w, {}, "", 0, trace)
  }

  /** Stages from position i on. */
  function RunStages(env: Env, stages: seq<Stage>, i: nat, continueOnReject: bool, records: seq<Record>, q: QState,
                     w: World, trace: seq<Attempt>): RelayRun
    requires i <= |stages| && StagesKnown(env, stages)
    decreases |stages| - i
  {
    if i == |stages| then RelayRun(Completed, records, q, w, trace)
    else
      var run := RunStage(env, i + 1, stages[i], records, Start(q, w, trace));
      if !run.end.Done? then RelayRun(Stopped(run.end), records, run.l.q, run.l.w, run.l.trace)
      else
        var all := records + [run.end.record];
        if run.end.record.verdict == REJECT && !continueOnReject && i + 1 < |stages| then
          RelayRun(Rejected, all, run.l.q, run.l.w, run.l.trace)
        else RunStages(env, stages, i + 1, continueOnReject, all, run.l.q, run.l.w, run.l.trace)
  }

  function Ephemeral(env: Env, stages: seq<Stage>, continueOnReject: bool, w: World): RelayRun
    requires StagesKnown(env, stages)
  {
    RunStages(env, stages, 0, continueOnReject, [], NO_QUARANTINE, w, [])
  }

  /** The machine the code runs on: it reads the clock and calls providers. */
  class Host {
    const env: Env
    var ticks: nat
    var calls: seq<Call>

    ghost function World(): World
      reads this
    {
      RelayTypes.World(ticks, calls)
    }

    constructor (env: Env)
      ensures this.env == env && World() == RelayTypes.World(0, [])
    {
      this.env := env;
      ticks, calls := 0, [];
    }

    method Time() returns (now: real)
      modifies this`ticks
      ensures now == env.clock(old(ticks)) && ticks == old(ticks) + 1
    {
      now := env.clock(ticks);
      ticks := ticks + 1;
    }

    method Invoke(call: Call) returns (outcome: Outcome)
      modifies this`calls
      ensures outcome == env.provider(|old(calls)|, call) && calls == old(calls) + [call]
    {
      outcome := env.provider(|calls|, call);
      calls := calls + [call];
    }
  }

  /** Short, then extended, quarantine of a quota pool. */
  class RelayQuarantine {
    var until: map<string, real>
    var failures: map<string, nat>

    ghost function Contents(): QState
      reads this
    {
      QState(until, failures)
    }

    constructor ()
      ensures Contents() == NO_QUARANTINE
    {
      until, failures := map[], map[];
    }

    constructor FromSnapshot(q: QState)
      ensures Contents() == q
    {
      until, failures := q.until, q.failures;
    }

    method Snapshot() returns (q: QState)
      ensures q == Contents()
    {
      q := QState(until, failures);
    }

    method IsBlocked(host: Host, pool: string) returns (blocked: bool)
      modifies host`ticks
      ensures blocked == Blocked(Contents(), pool, host.env.clock(old(host.ticks)))
      ensures host.ticks == old(host.ticks) + 1
    {
      var now := host.Time();
      blocked := (if pool in until then until[pool] else 0.0) > now;
    }

    method Register(host: Host, pool: string)
      modifies this, host`ticks
      ensures Contents() == Registered(old(Contents()), pool, host.env.clock(old(host.ticks)))
      ensures host.ticks == old(host.ticks) + 1
    {
      var now := host.Time();
      var count := (if pool in failures then failures[pool] else 0) + 1;
      failures := failures[pool := count];
      var duration := if count >= 2 then EXTENDED_QUARANTINE else SHORT_QUARANTINE;
      until := until[pool := now + duration];
    }

    method NextResetOf(host: Host, candidates: seq<string>) returns (reset: Option<real>)
      requires forall c <- candidates :: c in host.env.seats
      modifies host`ticks
      ensures (reset, host.ticks) == NextReset(host.env, Contents(), candidates, old(host.ticks))
    {
      ghost var q, tick := Contents(), host.ticks;
      reset := None;
      assert candidates[0..] == candidates;
      for i := 0 to |candidates|
        invariant host.ticks == tick + i && Contents() == q
        invariant Nearer(reset, NextReset(host.env, q, candidates[i..], tick + i).0)
               == NextReset(host.env, q, candidates, tick).0
      {
        ghost var before, left := reset, candidates[i..];
        assert left[0] == candidates[i] && left[1..] == candidates[i + 1..];
        assert candidates[i] in candidates;
        var pool := Pool(host.env.seats[candidates[i]]);
        var now := host.Time();
        if pool in until && until[pool] > now && (reset.None? || until[pool] < reset.value) {
          reset := Some(until[pool]);
        }
        NearerReset(host.env, q, left, tick + i, before, reset);
      }
    }
  }

  method SelectStageCandidate(host: Host, stage: Stage, quarantine: RelayQuarantine, attempted: set<string>,
                              failedPool: string) returns (chosen: Option<string>)
    requires StageKnown(host.env, stage)
    modifies host`ticks
    ensures (chosen, host.ticks)
            == Select(host.env, stage.candidates, quarantine.Contents(), attempted, failedPool, old(host.ticks))
  {
    for i := 0 to |stage.candidates|
      invariant Select(host.env, stage.candidates[i..], quarantine.Contents(), attempted, failedPool, host.ticks)
             == Select(host.env, stage.candidates, quarantine.Contents(), attempted, failedPool, old(host.ticks))
    {
      assert stage.candidates[i..][1..] == stage.candidates[i + 1..];
      var candidate := stage.candidates[i];
      if candidate in attempted {
        continue;
      }
      var pool := Pool(host.env.seats[candidate]);
      if failedPool != "" && pool == failedPool {
        continue;
      }
      var blocked := quarantine.IsBlocked(host, pool);
      if blocked {
        continue;
      }
      return Some(candidate);
    }
    return None;
  }

  /** One provider call and what the stage makes of its outcome: its end, or another try. */
  method CallSeat(host: Host, idx: nat, stage: Stage, quarantine: RelayQuarantine, records: seq<Record>, name: string,
                  attempt: nat, trace0: seq<Attempt>, ghost l: LoopState)
    returns (end: Option<StageEnd>, trace: seq<Attempt>)
    requires name in host.env.seats && quarantine.Contents() == l.q && host.calls == l.w.calls
    requires attempt == l.attempt + 1 && trace0 == l.trace
    modifies host, quarantine
    ensures match CallTurn(host.env, idx, stage, records, l, name, old(host.ticks))
            case Ends(run) =>
              && end == Some(run.end) && trace == run.l.trace
              && quarantine.Contents() == run.l.q && host.World() == run.l.w
            case Again(next) =>
              && end.None? && trace == next.trace && quarantine.Contents() == next.q && host.World() == next.w
  {
    var pool := Pool(host.env.seats[name]);
    var outcome := host.Invoke(Call(idx, stage.role, name, records));
    match outcome
    case Answer(verdict, response) =>
      trace := trace0 + [Attempt(idx, stage.role, name, attempt, pool, MarkOk, "")];
      end := Some(Done(Record(stage.role, name, host.env.seats[name].model, verdict, response)));
    case Fatal(detail) =>
      trace := trace0 + [Attempt(idx, stage.role, name, attempt, pool, MarkFailed, detail)];
      end := Some(SeatFailed(detail));
    case Retryable(detail) =>
      trace := trace0 + [Attempt(idx, stage.role, name, attempt, pool, MarkQuarantined, detail)];
      end := None;
      quarantine.Register(host, pool);
  }

  method RunRelayStage(host: Host, idx: nat, stage: Stage, records: seq<Record>, quarantine: RelayQuarantine,
                       trace0: seq<Attempt>) returns (end: StageEnd, trace: seq<Attempt>)
    requires StageKnown(host.env, stage)
    modifies host, quarantine
    ensures var run := RunStage(host.env, idx, stage, records,
                                Start(old(quarantine.Contents()), old(host.World()), trace0));
            && end == run.end && trace == run.l.trace
            && quarantine.Contents() == run.l.q && host.World() == run.l.w
  {
    var attempted: set<string> := {};
    var lastFailedPool := "";
    var attempt: nat := 0;
    trace := trace0;
    ghost var start := Start(quarantine.Contents(), host.World(), trace0);
    while true
      invariant RunStage(host.env, idx, stage, records, start)
             == RunStage(host.env, idx, stage, records,
                         LoopState(quarantine.Contents(), host.World(), attempted, lastFailedPool, attempt, trace))
      decreases |Untried(stage, attempted)|
    {
      ghost var l := LoopState(quarantine.Contents(), host.World(), attempted, lastFailedPool, attempt, trace);
      ghost var turn := StageTurn(host.env, idx, stage, records, l);
      TurnUsesACandidate(host.env, idx, stage, records, l);
      SelectIsUntried(host.env, stage.candidates, l.q, l.attempted, l.failedPool, l.w.ticks);
      var chosen := SelectStageCandidate(host, stage, quarantine, attempted, lastFailedPool);
      if chosen.None? {
        trace := trace + [Attempt(idx, stage.role, "", attempt, "", MarkRefused, "no seat available")];
        var reset := quarantine.NextResetOf(host, stage.candidates);
        end := Refused(stage.role, stage.candidates, reset);
        assert turn.Ends? && turn.run.end == end && turn.run.l.trace == trace;
        return;
      }
      var name := chosen.value;
      attempt := attempt + 1;
      var over;
      over, trace := CallSeat(host, idx, stage, quarantine, records, name, attempt, trace, l);
      if over.Some? { return over.value, trace; }
      attempted, lastFailedPool := attempted + {name}, Pool(host.env.seats[name]);
    }
  }

  method RelayEphemeral(host: Host, stages: seq<Stage>, continueOnReject: bool)
    returns (end: RelayEnd, records: seq<Record>, trace: seq<Attempt>)
    requires StagesKnown(host.env, stages)
    modifies host
    ensures var run := Ephemeral(host.env, stages, continueOnReject, old(host.World()));
            end == run.end && records == run.records && trace == run.trace && host.World() == run.w
  {
    var quarantine := new RelayQuarantine();
    records, trace := [], [];
    for i := 0 to |stages|
      invariant fresh(quarantine)
      invariant RunStages(host.env, stages, i, continueOnReject, records, quarantine.Contents(), host.World(), trace)
             == Ephemeral(host.env, stages, continueOnReject, old(host.World()))
    {
      var stageEnd: StageEnd;
      stageEnd, trace := RunRelayStage(host, i + 1, stages[i], records, quarantine, trace);
      if !stageEnd.Done? {
        return Stopped(stageEnd), records, trace;
      }
      records := records + [stageEnd.record];
      if stageEnd.record.verdict == REJECT && !continueOnReject && i + 1 < |stages| {
        return Rejected, records, trace;
      }
    }
    end := Completed;
  }
}
