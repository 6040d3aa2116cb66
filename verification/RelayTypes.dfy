/** Values shared by the ephemeral relay loop and the resumable relay graph:
    seats, stages, records, attempts, the quarantine table, and the world a run
    talks to (a clock that is read, providers that are called). */
module RelayTypes {
  import opened Options

  /** A seat as declared: only the fields the relay reads. */
  datatype Seat = Seat(cli: string, model: string, quotaPool: string)

  /** The part of a model name before the first slash. */
  function ModelPrefix(model: string): string {
    if model == "" || model[0] == '/' then "" else [model[0]] + ModelPrefix(model[1..])
  }

  /** The quota pool: declared, or derived from the CLI and the model prefix. */
  function Pool(seat: Seat): string {
    if seat.quotaPool != "" then seat.quotaPool
    else if seat.cli == "opencode" then ModelPrefix(seat.model)
    else seat.cli + ":" + ModelPrefix(seat.model)
  }

  datatype Stage = Stage(role: string, candidates: seq<string>)

  datatype Record = Record(role: string, seatName: string, model: string, verdict: string, response: string)

  datatype Mark = MarkOk | MarkQuarantined | MarkFailed | MarkRefused | MarkUncertain

  /** One line of the attempt trace. */
  datatype Attempt = Attempt(stageIdx: nat, role: string, seatName: string, attempt: nat, pool: string,
                             outcome: Mark, detail: string)

  /** One real provider call: everything the prompt is built from. */
  datatype Call = Call(stageIdx: nat, role: string, seat: string, previous: seq<Record>)

  /** What a provider call comes back with. */
  datatype Outcome = Answer(verdict: string, response: string) | Retryable(detail: string) | Fatal(detail: string)

  /** Per-pool quarantine: deadline and failure count. */
  datatype QState = QState(until: map<string, real>, failures: map<string, nat>)

  const NO_QUARANTINE := QState(map[], map[])
  const SHORT_QUARANTINE := 300.0
  const EXTENDED_QUARANTINE := 900.0
  const REJECT := "REJECT"

  /** The seats, the readings the clock will give, and the answer the n-th
      provider call will get. */
  datatype Env = Env(seats: map<string, Seat>, clock: nat -> real, provider: (nat, Call) -> Outcome)

  /** How often the clock was read so far, and the provider calls made so far. */
  datatype World = World(ticks: nat, calls: seq<Call>)

  ghost predicate StageKnown(env: Env, stage: Stage) {
    forall c <- stage.candidates :: c in env.seats
  }

  ghost predicate StagesKnown(env: Env, stages: seq<Stage>) {
    forall i | 0 <= i < |stages| :: StageKnown(env, stages[i])
  }

  predicate Blocked(q: QState, pool: string, now: real) {
    (if pool in q.until then q.until[pool] else 0.0) > now
  }

  function Registered(q: QState, pool: string, now: real): QState {
    var failures := (if pool in q.failures then q.failures[pool] else 0) + 1;
    var duration := if failures >= 2 then EXTENDED_QUARANTINE else SHORT_QUARANTINE;
    QState(q.until[pool := now + duration], q.failures[pool := failures])
  }

  /** The nearest deadline among the candidates' pools that is still in the
      future; the clock is read once per candidate. */
  function NextReset(env: Env, q: QState, candidates: seq<string>, tick: nat): (r: (Option<real>, nat))
    requires forall c <- candidates :: c in env.seats
    ensures r.1 == tick + |candidates|
  {
    if candidates == [] then (None, tick)
    else
      var pool := Pool(env.seats[candidates[0]]);
      var (rest, t) := NextReset(env, q, candidates[1..], tick + 1);
      if pool in q.until && Blocked(q, pool, env.clock(tick)) then
        (if rest.Some? && rest.value < q.until[pool] then rest else Some(q.until[pool]), t)
      else (rest, t)
  }

  /** The nearer of two deadlines that may be missing. */
  function Nearer(a: Option<real>, b: Option<real>): Option<real> {
    if a.None? then b else if b.None? || a.value <= b.value then a else b
  }

  lemma NearerReset(env: Env, q: QState, candidates: seq<string>, tick: nat, found: Option<real>, found': Option<real>)
    requires candidates != [] && forall c <- candidates :: c in env.seats
    requires var pool := Pool(env.seats[candidates[0]]);
             found' == if pool in q.until && q.until[pool] > env.clock(tick)
                          && (found.None? || q.until[pool] < found.value)
                       then Some(q.until[pool]) else found
    ensures Nearer(found, NextReset(env, q, candidates, tick).0)
         == Nearer(found', NextReset(env, q, candidates[1..], tick + 1).0)
  {
  }

  /** A retryable failure of a seat of this pool. */
  datatype Failure = Failure(pool: string, at: real)

  /** The table after these failures, oldest first. */
  function AfterFailures(failures: seq<Failure>): QState {
    if failures == [] then NO_QUARANTINE
    else
      var last := failures[|failures| - 1];
      Registered(AfterFailures(failures[..|failures| - 1]), last.pool, last.at)
  }

  /** When a pool failed. */
  function FailuresOf(failures: seq<Failure>, pool: string): seq<real> {
    if failures == [] then []
    else
      var last := failures[|failures| - 1];
      FailuresOf(failures[..|failures| - 1], pool) + (if last.pool == pool then [last.at] else [])
  }

  /** How long the latest failure of a pool keeps it out: longer when it is not its first. */
  function OutUntil(times: seq<real>): real {
    if times == [] then 0.0
    else times[|times| - 1] + (if |times| == 1 then SHORT_QUARANTINE else EXTENDED_QUARANTINE)
  }

  /** Whatever failed in between: a pool is blocked exactly until its own latest failure has worn off. */
  lemma {:induction false} BlockedByLastFailure(failures: seq<Failure>, pool: string, now: real)
    ensures Blocked(AfterFailures(failures), pool, now) <==> now < OutUntil(FailuresOf(failures, pool))
    ensures var q := AfterFailures(failures);
            (if pool in q.failures then q.failures[pool] else 0) == |FailuresOf(failures, pool)|
  {
    if failures != [] { BlockedByLastFailure(failures[..|failures| - 1], pool, now); }
  }

  /** The pool of the i-th candidate was still blocked when it was looked at. */
  predicate Ahead(env: Env, q: QState, candidates: seq<string>, tick: nat, i: nat)
    requires i < |candidates| && candidates[i] in env.seats
  {
    var pool := Pool(env.seats[candidates[i]]);
    pool in q.until && q.until[pool] > env.clock(tick + i)
  }

  lemma AheadOfRest(env: Env, q: QState, candidates: seq<string>, tick: nat)
    requires candidates != [] && forall c <- candidates :: c in env.seats
    ensures forall i | 0 < i < |candidates| ::
              Ahead(env, q, candidates, tick, i) == Ahead(env, q, candidates[1..], tick + 1, i - 1)
  {
    forall i | 0 < i < |candidates|
      ensures Ahead(env, q, candidates, tick, i) == Ahead(env, q, candidates[1..], tick + 1, i - 1)
    {
      assert candidates[i] == candidates[1..][i - 1];
    }
  }

  /** The nearest reset is the smallest deadline among the pools still blocked; none is named exactly when
      no pool is. */
  lemma {:induction false} NextResetIsNearest(env: Env, q: QState, candidates: seq<string>, tick: nat)
    requires forall c <- candidates :: c in env.seats
    ensures var r := NextReset(env, q, candidates, tick).0;
            && (r.None? <==> forall i | 0 <= i < |candidates| :: !Ahead(env, q, candidates, tick, i))
            && (r.Some? ==>
                  && (exists i | 0 <= i < |candidates| ::
                        Ahead(env, q, candidates, tick, i) && q.until[Pool(env.seats[candidates[i]])] == r.value)
                  && (forall i | 0 <= i < |candidates| && Ahead(env, q, candidates, tick, i) ::
                        r.value <= q.until[Pool(env.seats[candidates[i]])]))
  {
    if candidates != [] {
      var rest := candidates[1..];
      var r := NextReset(env, q, rest, tick + 1).0;
      NextResetIsNearest(env, q, rest, tick + 1);
      AheadOfRest(env, q, candidates, tick);
      if r.Some? {
        var i :| 0 <= i < |rest| && Ahead(env, q, rest, tick + 1, i) && q.until[Pool(env.seats[rest[i]])] == r.value;
        assert Ahead(env, q, candidates, tick, i + 1) && candidates[i + 1] == rest[i];
      }
      if Ahead(env, q, candidates, tick, 0) { assert candidates[0] in candidates; }
    }
  }

  /** The next candidate to try and the clock position after choosing it. */
  function Select(env: Env, candidates: seq<string>, q: QState, attempted: set<string>, failedPool: string,
                  tick: nat): (Option<string>, nat)
    requires forall c <- candidates :: c in env.seats
  {
    if candidates == [] then (None, tick)
    else
      var c := candidates[0];
      var pool := Pool(env.seats[c]);
      if c in attempted || (failedPool != "" && pool == failedPool) then
        Select(env, candidates[1..], q, attempted, failedPool, tick)
      else if Blocked(q, pool, env.clock(tick)) then
        Select(env, candidates[1..], q, attempted, failedPool, tick + 1)
      else (Some(c), tick + 1)
  }

  /** A candidate the stage may still try: not tried, not in the pool that just failed. */
  ghost predicate Open(env: Env, c: string, attempted: set<string>, failedPool: string)
    requires c in env.seats
  {
    c !in attempted && !(failedPool != "" && Pool(env.seats[c]) == failedPool)
  }

  /** Candidate c was passed over when it was looked at with the clock at `tick`. */
  ghost predicate PassedOver(env: Env, c: string, q: QState, attempted: set<string>, failedPool: string, tick: nat)
    requires c in env.seats
  {
    !Open(env, c, attempted, failedPool) || Blocked(q, Pool(env.seats[c]), env.clock(tick))
  }

  /** Selection takes the FIRST open candidate whose pool was not quarantined
      at the moment it was looked at (position k), and refuses exactly when
      every candidate is passed over: candidates are looked at in declaration
      order, one clock reading for each open one. */
  lemma {:induction false} SelectTakesFirstFree(env: Env, candidates: seq<string>, q: QState, attempted: set<string>,
                                                failedPool: string, tick: nat) returns (k: nat, looks: seq<nat>)
    requires forall c <- candidates :: c in env.seats
    ensures k <= |candidates| == |looks|
    ensures forall i | 0 <= i < |looks| :: tick <= looks[i]
    ensures forall i, j | 0 <= i < j < |looks| ::
              Open(env, candidates[i], attempted, failedPool) ==> looks[i] < looks[j]
    ensures forall i | 0 <= i < k :: PassedOver(env, candidates[i], q, attempted, failedPool, looks[i])
    ensures k < |candidates| ==> !PassedOver(env, candidates[k], q, attempted, failedPool, looks[k])
    ensures Select(env, candidates, q, attempted, failedPool, tick).0
         == if k < |candidates| then Some(candidates[k]) else None
  {
    if candidates == [] {
      k, looks := 0, [];
    } else {
      var open := Open(env, candidates[0], attempted, failedPool);
      k, looks := SelectTakesFirstFree(env, candidates[1..], q, attempted, failedPool, if open then tick + 1 else tick);
      looks := [tick] + looks;
      k := if PassedOver(env, candidates[0], q, attempted, failedPool, tick) then k + 1 else 0;
    }
  }

  /** What callers need of it: the chosen seat is declared and untried. */
  lemma SelectIsUntried(env: Env, candidates: seq<string>, q: QState, attempted: set<string>, failedPool: string,
                        tick: nat)
    requires forall c <- candidates :: c in env.seats
    ensures var (chosen, t) := Select(env, candidates, q, attempted, failedPool, tick);
            && t >= tick
            && (chosen.Some? ==> chosen.value in candidates && chosen.value !in attempted)
  {
  }

  /** The candidates of a stage that no attempt used yet. */
  ghost function Untried(stage: Stage, attempted: set<string>): set<string> {
    set c | c in stage.candidates && c !in attempted
  }
}
