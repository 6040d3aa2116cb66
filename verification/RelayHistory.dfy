/** Crashes and resumes: what holds over every history of node executions,
    process deaths at any point, and resume attempts with or without the
    uncertain-rerun override. */
module RelayHistory {
  import opened RelayTypes
  import opened RelayLoop
  import opened RelayGraph
  import opened Options

  datatype Event =
    | RunNode                             // the live process executes the next node and saves it
    | CrashBefore(clockReads: nat)        // it dies outside a provider call; nothing is saved
    | CrashAfterCall(clockReads: nat)     // it dies after the provider was called, before the save
    | Resume(allowUncertainRerun: bool)   // a caller resumes the session

  /** The saved checkpoint, whether a process is driving it, and the real world with its call log. */
  datatype Sys = Sys(alive: bool, node: Node, s: GState, w: World)

  ghost predicate SysOk(env: Env, sys: Sys) {
    CheckpointOk(env, sys.node, sys.s)
  }

  /** An invoked-but-uncompleted attempt with no record for its stage. */
  function UncertainPending(s: GState): Option<Pending> {
    if s.pending.Some? && |s.records| < s.pending.value.stageIdx then s.pending else None
  }

  /** What resuming decides before any seat runs. */
  datatype Verdict = RefuseFailed(detail: string) | AlreadyOver | RefuseUncertain | GoOn(s: GState)

  function AcceptRerun(s: GState, p: Pending): GState
    requires s.index < |s.stages|
  {
    s.(callsMade := s.callsMade + 1, attempt := s.attempt + 1, pending := Some(p.(attempt := s.attempt + 1)),
       trace := s.trace + [Attempt(p.stageIdx, s.stages[s.index].role, p.seat, p.attempt, p.pool, MarkUncertain,
                                   "rerun accepted")])
  }

  function RebuildRemaining(s: GState, allowUncertainRerun: bool): Verdict
    requires s.index < |s.stages| && (s.stopReason == StopFailed ==> s.trace != [])
  {
    if s.stopReason == StopFailed then RefuseFailed(s.trace[|s.trace| - 1].detail)
    else if s.stopReason == StopCompleted || s.stopReason == StopRejected then AlreadyOver
    else
      var uncertain := UncertainPending(s);
      if uncertain.Some? && !allowUncertainRerun then RefuseUncertain
      else if uncertain.Some? then GoOn(AcceptRerun(s, uncertain.value))
      else GoOn(s)
  }

  /** The live process executes one node. */
  function DoNode(env: Env, sys: Sys): Sys
    requires SysOk(env, sys) && sys.alive && sys.node != End
  {
    match Step(env, sys.node, sys.s, sys.w)
    case Moved(node, s, w) => Sys(true, node, s, w)
    case Raised(_, w) => sys.(alive := false, w := w)
  }

  /** A caller resumes a session nobody is driving. */
  function DoResume(sys: Sys, allow: bool): Sys
    requires sys.s.index < |sys.s.stages| && (sys.s.stopReason == StopFailed ==> sys.s.trace != [])
  {
    match RebuildRemaining(sys.s, allow)
    case GoOn(s) => sys.(alive := true, s := s)
    case _ => sys.(alive := false)
  }

  function Do(env: Env, sys: Sys, ev: Event): Sys
    requires SysOk(env, sys)
  {
    match ev
    case RunNode => if !sys.alive || sys.node == End then sys else DoNode(env, sys)
    case CrashBefore(n) =>
      if !sys.alive then sys else sys.(alive := false, w := World(sys.w.ticks + n, sys.w.calls))
    case CrashAfterCall(n) =>
      if !sys.alive || sys.node != Complete then sys
      else sys.(alive := false, w := World(sys.w.ticks + n, sys.w.calls + [PendingCall(sys.s)]))
    case Resume(allow) =>
      if sys.alive && sys.node != End then sys  // the session lock is held: the caller is told it is busy
      else DoResume(sys, allow)
  }

  lemma AcceptKeepsBooks(s: GState, p: Pending)
    requires s.index < |s.stages| && BooksOk(s) && s.pending == Some(p)
    requires p.stageIdx == s.index + 1 && p.attempt == s.attempt
    ensures BooksOk(AcceptRerun(s, p))
  {
    var s' := AcceptRerun(s, p);
    var a := s'.trace[|s.trace|];
    assert s'.trace == s.trace + [a];
    NumberedAppend(s.trace, a);
    SuccessesAppend(s.trace, a);
    assert TraceMatchesRecords(s.trace, s.records);
  }

  lemma AcceptKeepsCheckpoint(env: Env, s: GState)
    requires CheckpointOk(env, Complete, s) && UncertainPending(s).Some?
    ensures CheckpointOk(env, Complete, AcceptRerun(s, UncertainPending(s).value))
  {
    AcceptKeepsBooks(s, s.pending.value);
  }

  /** Crashes, resumes and accepted reruns keep the checkpoint invariant too. */
  lemma DoKeepsCheckpoint(env: Env, sys: Sys, ev: Event)
    requires SysOk(env, sys)
    ensures SysOk(env, Do(env, sys, ev))
  {
    match ev
    case RunNode =>
      if sys.alive && sys.node != End {
        StepKeepsCheckpoint(env, sys.node, sys.s, sys.w);
      }
    case CrashBefore(_) =>
    case CrashAfterCall(_) =>
    case Resume(_) =>
      if UncertainPending(sys.s).Some? {
        AcceptKeepsCheckpoint(env, sys.s);
      }
  }

  function After(env: Env, sys: Sys, events: seq<Event>): Sys
    requires SysOk(env, sys)
    decreases |events|
  {
    if events == [] then sys
    else
      DoKeepsCheckpoint(env, sys, events[0]);
      After(env, Do(env, sys, events[0]), events[1..])
  }

  function Fresh(stages: seq<Stage>, continueOnReject: bool): Sys {
    Sys(true, Begin, Initial(stages, continueOnReject), World(0, []))
  }

  // ---- the call log -----------------------------------------------------

  /** Attempts whose outcome was saved: every trace line but the accepted doubts. */
  function SettledCount(trace: seq<Attempt>): nat {
    if trace == [] then 0
    else SettledCount(trace[..|trace| - 1]) + (if trace[|trace| - 1].outcome == MarkUncertain then 0 else 1)
  }

  /** Whether the process is inside `complete` with its call still to be made. */
  predicate CallAhead(sys: Sys) {
    sys.alive && sys.node == Complete
  }

  /** Real calls lie between the attempts with a saved outcome and the calls reserved. */
  ghost predicate Budgeted(sys: Sys) {
    SettledCount(sys.s.trace) <= |sys.w.calls| <= sys.s.callsMade - (if CallAhead(sys) then 1 else 0)
  }

  lemma SettledCountAppend(trace: seq<Attempt>, a: Attempt)
    ensures SettledCount(trace + [a]) == SettledCount(trace) + (if a.outcome == MarkUncertain then 0 else 1)
  {
    assert (trace + [a])[..|trace|] == trace;
  }

  lemma NodeKeepsBudget(env: Env, sys: Sys)
    requires SysOk(env, sys) && Budgeted(sys) && sys.alive && sys.node != End
    ensures Budgeted(Do(env, sys, RunNode))
  {
    if sys.node == Complete {
      var s' := Settled(env, sys.s, env.provider(|sys.w.calls|, PendingCall(sys.s)), env.clock(sys.w.ticks));
      SettledCountAppend(sys.s.trace, s'.trace[|sys.s.trace|]);
      assert s'.trace == sys.s.trace + [s'.trace[|sys.s.trace|]];
      assert Route(s') != Complete;
    }
  }

  lemma ResumeKeepsBudget(sys: Sys, allow: bool)
    requires sys.s.index < |sys.s.stages| && (sys.s.stopReason == StopFailed ==> sys.s.trace != [])
    requires Budgeted(sys) && !CallAhead(sys) && (sys.node == Complete <==> sys.s.pending.Some?)
    requires sys.s.pending.Some? ==> UncertainPending(sys.s).Some?
    ensures Budgeted(DoResume(sys, allow))
  {
    var uncertain := UncertainPending(sys.s);
    if uncertain.Some? {
      var s' := AcceptRerun(sys.s, uncertain.value);
      SettledCountAppend(sys.s.trace, s'.trace[|sys.s.trace|]);
    }
  }

  lemma DoKeepsBudget(env: Env, sys: Sys, ev: Event)
    requires SysOk(env, sys) && Budgeted(sys)
    ensures Budgeted(Do(env, sys, ev))
  {
    match ev
    case RunNode => if sys.alive && sys.node != End { NodeKeepsBudget(env, sys); }
    case CrashBefore(_) =>
    case CrashAfterCall(_) =>
    case Resume(allow) => if !sys.alive || sys.node == End { ResumeKeepsBudget(sys, allow); }
  }

  ghost predicate NoRepeat(w: World) {
    forall i, j | 0 <= i < j < |w.calls| ::
      !(w.calls[i].stageIdx == w.calls[j].stageIdx && w.calls[i].seat == w.calls[j].seat)
  }

  /** While no rerun was accepted: calls of the open stage are marked tried, or are the
      pending call of a process that died. */
  ghost predicate Accounted(sys: Sys) {
    && NoRepeat(sys.w)
    && forall i | 0 <= i < |sys.w.calls| ::
         var c := sys.w.calls[i];
         && c.stageIdx <= sys.s.index + 1
         && (c.stageIdx == sys.s.index + 1 && |sys.s.records| == sys.s.index ==>
               c.seat in sys.s.attempted
               || (sys.s.pending.Some? && c.seat == sys.s.pending.value.seat && !sys.alive))
  }

  lemma ResumeKeepsAccounts(sys: Sys)
    requires sys.s.index < |sys.s.stages| && (sys.s.stopReason == StopFailed ==> sys.s.trace != [])
    requires Accounted(sys) && (sys.s.pending.Some? ==> UncertainPending(sys.s).Some?)
    ensures Accounted(DoResume(sys, false))
  {
  }

  lemma DoKeepsAccounts(env: Env, sys: Sys, ev: Event)
    requires SysOk(env, sys) && Accounted(sys)
    requires ev.Resume? ==> !ev.allowUncertainRerun
    ensures Accounted(Do(env, sys, ev))
  {
    match ev
    case RunNode =>
    case CrashBefore(_) =>
    case CrashAfterCall(_) =>
    case Resume(_) => if !sys.alive || sys.node == End { ResumeKeepsAccounts(sys); }
  }

  // ---- theorems over every history ----------------------------------------

  ghost predicate NoOverride(events: seq<Event>) {
    forall i | 0 <= i < |events| :: events[i].Resume? ==> !events[i].allowUncertainRerun
  }

  lemma {:induction false} HistoryKeepsCheckpoint(env: Env, sys: Sys, events: seq<Event>)
    requires SysOk(env, sys)
    ensures SysOk(env, After(env, sys, events))
    decreases |events|
  {
    if events != [] {
      DoKeepsCheckpoint(env, sys, events[0]);
      HistoryKeepsCheckpoint(env, Do(env, sys, events[0]), events[1..]);
    }
  }

  lemma {:induction false} HistoryKeepsBudget(env: Env, sys: Sys, events: seq<Event>)
    requires SysOk(env, sys) && Budgeted(sys)
    ensures Budgeted(After(env, sys, events))
    decreases |events|
  {
    if events != [] {
      DoKeepsCheckpoint(env, sys, events[0]);
      DoKeepsBudget(env, sys, events[0]);
      HistoryKeepsBudget(env, Do(env, sys, events[0]), events[1..]);
    }
  }

  lemma {:induction false} HistoryKeepsAccounts(env: Env, sys: Sys, events: seq<Event>)
    requires SysOk(env, sys) && Accounted(sys) && NoOverride(events)
    ensures Accounted(After(env, sys, events))
    decreases |events|
  {
    if events != [] {
      DoKeepsCheckpoint(env, sys, events[0]);
      DoKeepsAccounts(env, sys, events[0]);
      HistoryKeepsAccounts(env, Do(env, sys, events[0]), events[1..]);
    }
  }

  /** Whatever is crashed and resumed, every checkpoint is well formed. */
  lemma EveryCheckpointIsOk(env: Env, stages: seq<Stage>, continueOnReject: bool, events: seq<Event>)
    requires stages != [] && StagesKnown(env, stages)
    ensures SysOk(env, Fresh(stages, continueOnReject))
    ensures var sys := After(env, Fresh(stages, continueOnReject), events); CheckpointOk(env, sys.node, sys.s)
  {
    InitialIsOk(env, stages, continueOnReject);
    HistoryKeepsCheckpoint(env, Fresh(stages, continueOnReject), events);
  }

  /** Without the override no seat is really called twice for the same stage. */
  lemma NeverCalledTwice(env: Env, stages: seq<Stage>, continueOnReject: bool, events: seq<Event>)
    requires stages != [] && StagesKnown(env, stages) && NoOverride(events)
    ensures SysOk(env, Fresh(stages, continueOnReject))
    ensures NoRepeat(After(env, Fresh(stages, continueOnReject), events).w)
  {
    InitialIsOk(env, stages, continueOnReject);
    HistoryKeepsAccounts(env, Fresh(stages, continueOnReject), events);
  }

  /** With or without it, real calls never exceed the calls reserved in the checkpoint, and
      every attempt with a saved outcome was a real call. */
  lemma CallsWithinBudget(env: Env, stages: seq<Stage>, continueOnReject: bool, events: seq<Event>)
    requires stages != [] && StagesKnown(env, stages)
    ensures SysOk(env, Fresh(stages, continueOnReject))
    ensures var sys := After(env, Fresh(stages, continueOnReject), events);
            SettledCount(sys.s.trace) <= |sys.w.calls| <= sys.s.callsMade
  {
    InitialIsOk(env, stages, continueOnReject);
    HistoryKeepsBudget(env, Fresh(stages, continueOnReject), events);
  }

  lemma OverStays(env: Env, sys: Sys, ev: Event)
    requires SysOk(env, sys) && sys.s.stopReason != NotStopped
    ensures var sys' := Do(env, sys, ev); sys'.w.calls == sys.w.calls && sys'.s == sys.s
  {
    assert sys.node == Finalize || sys.node == End;
    match ev
    case RunNode =>
    case CrashBefore(_) =>
    case CrashAfterCall(_) =>
    case Resume(_) =>
  }

  /** Once a checkpoint says failed, completed or rejected, no later event calls a seat or
      changes the saved state. */
  lemma {:induction false} OverMeansOver(env: Env, sys: Sys, events: seq<Event>)
    requires SysOk(env, sys) && sys.s.stopReason != NotStopped
    ensures var sys' := After(env, sys, events); sys'.w.calls == sys.w.calls && sys'.s == sys.s
    decreases |events|
  {
    if events != [] {
      DoKeepsCheckpoint(env, sys, events[0]);
      OverStays(env, sys, events[0]);
      OverMeansOver(env, Do(env, sys, events[0]), events[1..]);
    }
  }

  /** A doubt is never resolved silently: while a called-but-unsaved attempt is pending and the
      process is dead, no event without the override calls a seat or changes the saved state. */
  lemma {:induction false} DoubtIsNotSilent(env: Env, sys: Sys, events: seq<Event>)
    requires SysOk(env, sys) && !sys.alive && sys.s.pending.Some? && NoOverride(events)
    ensures After(env, sys, events) == sys
    decreases |events|
  {
    if events != [] {
      assert Do(env, sys, events[0]) == sys;
      DoubtIsNotSilent(env, sys, events[1..]);
    }
  }

  /** A crash outside a provider call costs nothing: resuming without the override puts the run
      back where it was, with only time gone by. */
  lemma CrashOutsideACallIsHarmless(env: Env, sys: Sys, clockReads: nat)
    requires SysOk(env, sys) && sys.alive && sys.s.pending.None? && sys.s.stopReason == NotStopped
    ensures After(env, sys, [CrashBefore(clockReads), Resume(false)])
         == sys.(w := World(sys.w.ticks + clockReads, sys.w.calls))
  {
    var dead := Do(env, sys, CrashBefore(clockReads));
    var resumed := sys.(w := World(sys.w.ticks + clockReads, sys.w.calls));
    assert Do(env, dead, Resume(false)) == resumed;
    var events := [CrashBefore(clockReads), Resume(false)];
    assert events[1..] == [Resume(false)] && events[1..][1..] == [];
    assert After(env, resumed, []) == resumed;
    assert After(env, dead, [Resume(false)]) == resumed;
  }

  /** The saved session, driven by the same events. */
  class KeptSession {
    var alive: bool
    var node: Node
    var state: GState

    /** The decision, and the booking of an accepted rerun. */
    method Reload(ghost w: World, allowUncertainRerun: bool) returns (verdict: Verdict)
      requires state.index < |state.stages| && (state.stopReason == StopFailed ==> state.trace != [])
      requires !alive || node == End
      modifies this
      ensures verdict == RebuildRemaining(old(state), allowUncertainRerun)
      ensures Sys(alive, node, state, w) == DoResume(Sys(old(alive), old(node), old(state), w), allowUncertainRerun)
    {
      alive := false;
      if state.stopReason == StopFailed {
        return RefuseFailed(state.trace[|state.trace| - 1].detail);
      }
      if state.stopReason == StopCompleted || state.stopReason == StopRejected {
        return AlreadyOver;
      }
      var uncertain := UncertainPending(state);
      if uncertain.Some? && !allowUncertainRerun {
        return RefuseUncertain;
      }
      if uncertain.Some? {
        state := AcceptRerun(state, uncertain.value);
      }
      alive := true;
      return GoOn(state);
    }

    /** Reload the checkpoint and decide whether a run may go on. */
    method Rebuild(ghost env: Env, ghost w: World, allowUncertainRerun: bool) returns (verdict: Verdict)
      requires CheckpointOk(env, node, state) && (!alive || node == End)
      modifies this
      ensures CheckpointOk(env, node, state)
      ensures verdict == RebuildRemaining(old(state), allowUncertainRerun)
      ensures Sys(alive, node, state, w) == DoResume(Sys(old(alive), old(node), old(state), w), allowUncertainRerun)
    {
      ghost var was := Sys(alive, node, state, w);
      DoKeepsCheckpoint(env, was, Resume(allowUncertainRerun));
      verdict := Reload(w, allowUncertainRerun);
    }
  }
}
