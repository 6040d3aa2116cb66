/** One stdio backend behind the HTTP bridge: request ids of the bridge's own, one answer for every caller.
    The channel's methods are the sections under its lock; callers, readers, timeouts, exits and restarts
    interleave them in any order. */
module BridgeChannel {
  import opened Options

  /** A JSON value used as an id. */
  datatype Id = IntId(n: int) | BoolId(b: bool) | RealId(x: real) | TextId(s: string) | NullId | NoKey

  /** Python's key equality between a message's id and an integer key; arrays and objects are no keys. */
  predicate Matches(id: Id, key: nat) {
    match id
    case IntId(n) => n == key
    case BoolId(b) => key == if b then 1 else 0
    case RealId(x) => x == key as real
    case _ => false
  }

  datatype Message = Message(id: Id, body: string)

  type Caller = nat
  type Backend = nat

  datatype Table = Table(pending: map<nat, Caller>, nextId: nat)

  /** Registers a caller under a new id. */
  function Enqueued(t: Table, c: Caller): Table {
    Table(t.pending[t.nextId + 1 := c], t.nextId + 1)
  }

  function Without(t: Table, id: nat): Table {
    t.(pending := t.pending - {id})
  }

  /** The waiting id a message names. */
  function Key(t: Table, id: Id): (r: Option<nat>)
    ensures r.Some? ==> r.value in t.pending && Matches(id, r.value)
    ensures r.None? ==> forall k | k in t.pending :: !Matches(id, k)
  {
    match id
    case IntId(n) => if n >= 0 && n in t.pending then Some(n) else None
    case BoolId(b) => var k := if b then 1 else 0; if k in t.pending then Some(k) else None
    case RealId(x) => if x >= 0.0 && x.Floor as real == x && x.Floor in t.pending then Some(x.Floor) else None
    case _ => None
  }

  class Channel {
    var pending: map<nat, Caller>
    var nextId: nat
    var closed: bool
    var proc: Option<Backend>

    ghost function Contents(): Table
      reads this
    {
      Table(pending, nextId)
    }

    constructor ()
      ensures Contents() == Table(map[], 0) && !closed && proc.None?
    {
      pending, nextId, closed, proc := map[], 0, false, None;
    }

    /** The locked section of send_request: the id the request goes out under. */
    method Enqueue(c: Caller) returns (id: nat)
      modifies this`pending, this`nextId
      ensures Contents() == Enqueued(old(Contents()), c) && id == old(nextId) + 1
    {
      nextId := nextId + 1;
      id := nextId;
      pending := pending[id := c];
    }

    /** The reader's locked section: whoever waits for that id. */
    method Take(id: Id) returns (c: Option<Caller>)
      modifies this`pending
      ensures var k := Key(old(Contents()), id);
              if k.Some? then c == Some(old(pending)[k.value]) && Contents() == Without(old(Contents()), k.value)
              else c.None? && Contents() == old(Contents())
    {
      var k := Key(Table(pending, nextId), id);
      c := None;
      if k.Some? {
        c := Some(pending[k.value]);
        pending := pending - {k.value};
      }
    }

    /** Empties the table, unless a newer backend owns it. */
    method FailPending(p: Backend) returns (taken: map<nat, Caller>)
      modifies this`pending
      ensures if proc.Some? && proc.value != p then taken == map[] && Contents() == old(Contents())
              else taken == old(pending) && Contents() == old(Contents()).(pending := map[])
    {
      taken := map[];
      if proc.Some? && proc.value != p { return; }
      taken, pending := pending, map[];
    }

    method Forget(id: nat)
      modifies this`pending
      ensures Contents() == Without(old(Contents()), id)
    {
      pending := pending - {id};
    }
  }

  // ---- callers, readers and backends --------------------------------------------------------

  datatype Answer = TimedOut(id: Id) | BackendExited(id: Id) | FromBackend(id: Id, message: Message)

  /** What is put into a waiting caller's slot. */
  datatype Delivery = ExitNotice | Reply(message: Message)

  /** One call: it has its own id (`own`), is given the bridge's (`id`), waits, gets one answer. */
  datatype Call =
    | Entered(own: Id)
    | FoundDead(own: Id, p: Backend)         // its waiters are about to be told
    | Restarting(own: Id)                    // about to start a backend
    | Ready(own: Id)                         // has a backend to write to
    | Refused(own: Id)                       // the channel was closed, or no backend could be started
    | Waiting(own: Id, id: nat, slot: Option<Delivery>)
    | GaveUp(own: Id, id: nat)               // its wait ran out; its entry is still in the table
    | Answered(own: Id, id: nat, answer: Answer)

  /** `readers` are the reader threads still running, `alive` the backends still running, `given` the ids
      in the order they went out. */
  datatype Sys = Sys(table: Table, closed: bool, proc: Option<Backend>, calls: map<Caller, Call>,
                     readers: set<Backend>, alive: set<Backend>, nextBackend: nat, given: seq<Caller>)

  const START := Sys(Table(map[], 0), false, None, map[], {}, {}, 0, [])

  datatype Event =
    | Enter(c: Caller, own: Id) | Check(c: Caller) | TellWaiters(c: Caller) | Start(c: Caller, started: bool)
    | Send(c: Caller)
    | Wake(c: Caller) | GiveUp(c: Caller) | ForgetOwn(c: Caller)
    | ReadMessage(p: Backend, m: Message) | ReaderEnds(p: Backend)
    | Exit(p: Backend) | Close

  function Told(calls: map<Caller, Call>, c: Caller, d: Delivery): map<Caller, Call> {
    if c in calls && calls[c].Waiting? && calls[c].slot.None? then calls[c := calls[c].(slot := Some(d))] else calls
  }

  /** Everyone in the table hears that the backend is gone. */
  function AllTold(calls: map<Caller, Call>, pending: map<nat, Caller>): map<Caller, Call> {
    map c | c in calls ::
      if calls[c].Waiting? && calls[c].slot.None? && calls[c].id in pending && pending[calls[c].id] == c
      then calls[c].(slot := Some(ExitNotice)) else calls[c]
  }

  function Failed(sys: Sys, p: Backend): Sys {
    if sys.proc.Some? && sys.proc.value != p then sys
    else sys.(table := sys.table.(pending := map[]), calls := AllTold(sys.calls, sys.table.pending))
  }

  function Reported(own: Id, d: Delivery): Answer {
    match d case ExitNotice => BackendExited(own) case Reply(m) => FromBackend(own, m)
  }

  function Do(sys: Sys, ev: Event): Sys {
    match ev
    case Enter(c, own) => if c in sys.calls then sys else sys.(calls := sys.calls[c := Entered(own)])
    case Check(c) =>
      if c in sys.calls && sys.calls[c].Entered? then
        var own := sys.calls[c].own;
        if sys.closed then sys.(calls := sys.calls[c := Refused(own)])
        else if sys.proc.Some? && sys.proc.value in sys.alive then sys.(calls := sys.calls[c := Ready(own)])
        else if sys.proc.Some? then sys.(calls := sys.calls[c := FoundDead(own, sys.proc.value)])
        else sys.(calls := sys.calls[c := Restarting(own)])
      else sys
    case TellWaiters(c) =>
      if c in sys.calls && sys.calls[c].FoundDead? then
        Failed(sys.(calls := sys.calls[c := Restarting(sys.calls[c].own)]), sys.calls[c].p)
      else sys
    case Start(c, started) =>
      if c in sys.calls && sys.calls[c].Restarting? then
        if !started then sys.(calls := sys.calls[c := Refused(sys.calls[c].own)]) else
        var p := sys.nextBackend;
        sys.(calls := sys.calls[c := Ready(sys.calls[c].own)], proc := Some(p), readers := sys.readers + {p},
             alive := sys.alive + {p}, nextBackend := p + 1)
      else sys
    case Send(c) =>
      if c in sys.calls && sys.calls[c].Ready? then
        sys.(table := Enqueued(sys.table, c), given := sys.given + [c],
             calls := sys.calls[c := Waiting(sys.calls[c].own, sys.table.nextId + 1, None)])
      else sys
    case Wake(c) =>
      if c in sys.calls && sys.calls[c].Waiting? && sys.calls[c].slot.Some? then
        var Waiting(own, id, slot) := sys.calls[c];
        sys.(calls := sys.calls[c := Answered(own, id, Reported(own, slot.value))])
      else sys
    case GiveUp(c) =>
      if c in sys.calls && sys.calls[c].Waiting? then
        sys.(calls := sys.calls[c := GaveUp(sys.calls[c].own, sys.calls[c].id)])
      else sys
    case ForgetOwn(c) =>
      if c in sys.calls && sys.calls[c].GaveUp? then
        var GaveUp(own, id) := sys.calls[c];
        sys.(table := Without(sys.table, id), calls := sys.calls[c := Answered(own, id, TimedOut(own))])
      else sys
    case ReadMessage(p, m) =>
      if p !in sys.readers then sys
      else if m.id == NoKey then sys.(readers := sys.readers - {p})
      else
        var k := Key(sys.table, m.id);
        if k.None? then sys
        else sys.(table := Without(sys.table, k.value), calls := Told(sys.calls, sys.table.pending[k.value], Reply(m)))
    case ReaderEnds(p) =>
      if p in sys.readers then Failed(sys.(readers := sys.readers - {p}), p) else sys
    case Exit(p) => sys.(alive := sys.alive - {p})
    case Close =>
      sys.(closed := true, proc := None, alive := if sys.proc.Some? then sys.alive - {sys.proc.value} else sys.alive)
  }

  function After(sys: Sys, events: seq<Event>): Sys
    decreases |events|
  {
    if events == [] then sys else After(Do(sys, events[0]), events[1..])
  }

  /** The channel object holds what the system says. */
  ghost predicate Shows(channel: Channel, sys: Sys)
    reads channel
  {
    channel.Contents() == sys.table && channel.closed == sys.closed && channel.proc == sys.proc
  }

  /** A reader's turn on the object: the message is given to whoever waits for it. */
  method ReadOn(channel: Channel, sys: Sys, p: Backend, m: Message) returns (sys': Sys)
    requires Shows(channel, sys) && p in sys.readers && m.id != NoKey
    modifies channel
    ensures sys' == Do(sys, ReadMessage(p, m)) && Shows(channel, sys')
  {
    sys' := sys;
    var waiting := channel.Take(m.id);
    if waiting.Some? {
      sys' := sys.(table := Table(channel.pending, channel.nextId), calls := Told(sys.calls, waiting.value, Reply(m)));
    }
  }

  /** The end of a backend on the object: whoever waits is told, unless a newer backend owns the table. */
  method FailOn(channel: Channel, sys: Sys, p: Backend) returns (sys': Sys)
    requires Shows(channel, sys)
    modifies channel
    ensures sys' == Failed(sys, p) && Shows(channel, sys')
  {
    var taken := channel.FailPending(p);
    sys' := sys.(table := Table(channel.pending, channel.nextId), calls := AllTold(sys.calls, taken));
    NobodyTold(sys.calls);
  }

  lemma NobodyTold(calls: map<Caller, Call>)
    ensures AllTold(calls, map[]) == calls
  {
  }

  /** One event on a channel object. */
  method Act(channel: Channel, sys: Sys, ev: Event) returns (sys': Sys)
    requires Shows(channel, sys)
    modifies channel
    ensures sys' == Do(sys, ev) && Shows(channel, sys')
  {
    sys' := Do(sys, ev);
    if sys' == sys { return; }
    match ev {
      case Send(c) =>
        var id := channel.Enqueue(c);
        sys' := sys.(table := Table(channel.pending, channel.nextId), given := sys.given + [c],
                     calls := sys.calls[c := Waiting(sys.calls[c].own, id, None)]);
      case ForgetOwn(c) =>
        channel.Forget(sys.calls[c].id);
      case ReadMessage(p, m) =>
        if m.id != NoKey { sys' := ReadOn(channel, sys, p, m); }
      case TellWaiters(c) =>
        sys' := FailOn(channel, sys.(calls := sys.calls[c := Restarting(sys.calls[c].own)]), sys.calls[c].p);
      case ReaderEnds(p) =>
        sys' := FailOn(channel, sys.(readers := sys.readers - {p}), p);
      case Start(_, _) =>
        channel.proc := sys'.proc;
      case Close =>
        channel.closed, channel.proc := true, None;
      case _ =>
    }
  }

  /** A channel object under any interleaving of callers, readers, backends and timeouts. */
  method Drive(events: seq<Event>) returns (channel: Channel, sys: Sys)
    ensures fresh(channel) && sys == After(START, events) && Shows(channel, sys)
  {
    channel := new Channel();
    sys := START;
    assert events[0..] == events;
    for i := 0 to |events|
      invariant fresh(channel) && Shows(channel, sys)
      invariant After(sys, events[i..]) == After(START, events)
    {
      assert events[i..][1..] == events[i + 1..];
      sys := Act(channel, sys, events[i]);
    }
  }

  // ---- what every reachable state satisfies ------------------------------------------------------

  /** What a caller was told came under the id it was given. */
  ghost predicate DeliveryOk(id: nat, d: Delivery) {
    d.Reply? ==> Matches(d.message.id, id)
  }

  predicate HasId(call: Call) {
    call.Waiting? || call.GaveUp? || call.Answered?
  }

  ghost predicate CallOk(sys: Sys, c: Caller, call: Call) {
    && (HasId(call) ==> 1 <= call.id <= |sys.given| && sys.given[call.id - 1] == c)
    && (call.Waiting? && call.slot.Some? ==> DeliveryOk(call.id, call.slot.value))
    && (call.Waiting? && call.slot.None? ==> call.id in sys.table.pending && sys.table.pending[call.id] == c)
    && (call.Answered? ==>
          && call.answer.id == call.own
          && (call.answer.FromBackend? ==> Matches(call.answer.message.id, call.id)))
  }

  ghost predicate SysOk(sys: Sys) {
    && sys.table.nextId == |sys.given|
    && (forall k | k in sys.table.pending :: 1 <= k <= |sys.given| && sys.given[k - 1] == sys.table.pending[k])
    && (forall c | c in sys.calls :: CallOk(sys, c, sys.calls[c]))
    // A caller that was given an id has that id for good.
    && (forall i | 0 <= i < |sys.given| ::
          && sys.given[i] in sys.calls
          && HasId(sys.calls[sys.given[i]]) && sys.calls[sys.given[i]].id == i + 1)
  }

  /** A call that moves on without touching the table or the ids. */
  lemma MoveKeeps(sys: Sys, c: Caller, call: Call)
    requires SysOk(sys) && CallOk(sys, c, call)
    requires c in sys.calls ==> HasId(sys.calls[c]) == HasId(call)
    requires c in sys.calls && HasId(call) ==> call.id == sys.calls[c].id
    requires c !in sys.calls ==> !HasId(call)
    ensures SysOk(sys.(calls := sys.calls[c := call]))
  {
  }

  /** Backends come and go beside the table. */
  lemma BackendsKeep(sys: Sys, closed: bool, proc: Option<Backend>, readers: set<Backend>, alive: set<Backend>,
                     next: nat)
    requires SysOk(sys)
    ensures SysOk(sys.(closed := closed, proc := proc, readers := readers, alive := alive, nextBackend := next))
  {
  }

  lemma FailKeeps(sys: Sys, p: Backend)
    requires SysOk(sys)
    ensures SysOk(Failed(sys, p))
  {
    var after := Failed(sys, p);
    forall c | c in after.calls ensures CallOk(after, c, after.calls[c]) {
      assert CallOk(sys, c, sys.calls[c]);
    }
  }

  /** A message reaches the one caller that waits under its id. */
  lemma ReplyKeeps(sys: Sys, k: nat, m: Message)
    requires SysOk(sys) && k in sys.table.pending && Matches(m.id, k)
    ensures SysOk(sys.(table := Without(sys.table, k), calls := Told(sys.calls, sys.table.pending[k], Reply(m))))
  {
    var c := sys.table.pending[k];
    assert sys.given[k - 1] == c && CallOk(sys, c, sys.calls[c]);
    var after := sys.(table := Without(sys.table, k), calls := Told(sys.calls, c, Reply(m)));
    forall d | d in after.calls ensures CallOk(after, d, after.calls[d]) {
      assert CallOk(sys, d, sys.calls[d]);
      if d != c && HasId(sys.calls[d]) { assert sys.calls[d].id != k; }
    }
  }

  lemma SendKeeps(sys: Sys, c: Caller)
    requires SysOk(sys)
    ensures SysOk(Do(sys, Send(c)))
  {
    var after := Do(sys, Send(c));
    if after != sys {
      forall d | d in after.calls ensures CallOk(after, d, after.calls[d]) {
        assert CallOk(sys, d, sys.calls[d]);
      }
    }
  }

  lemma ReadKeeps(sys: Sys, p: Backend, m: Message)
    requires SysOk(sys)
    ensures SysOk(Do(sys, ReadMessage(p, m)))
  {
    BackendsKeep(sys, sys.closed, sys.proc, sys.readers - {p}, sys.alive, sys.nextBackend);
    var k := Key(sys.table, m.id);
    if k.Some? { ReplyKeeps(sys, k.value, m); }
  }

  lemma ForgetKeeps(sys: Sys, c: Caller)
    requires SysOk(sys)
    ensures SysOk(Do(sys, ForgetOwn(c)))
  {
    var after := Do(sys, ForgetOwn(c));
    if after != sys {
      assert CallOk(sys, c, sys.calls[c]);
      var k := sys.calls[c].id;
      forall d | d in after.calls ensures CallOk(after, d, after.calls[d]) {
        assert CallOk(sys, d, sys.calls[d]);
        if d != c && HasId(sys.calls[d]) { assert sys.calls[d].id != k; }
      }
    }
  }

  lemma TellKeeps(sys: Sys, c: Caller)
    requires SysOk(sys)
    ensures SysOk(Do(sys, TellWaiters(c)))
  {
    if c in sys.calls && sys.calls[c].FoundDead? {
      var call := Restarting(sys.calls[c].own);
      MoveKeeps(sys, c, call);
      FailKeeps(sys.(calls := sys.calls[c := call]), sys.calls[c].p);
    }
  }

  lemma StartKeeps(sys: Sys, c: Caller, started: bool)
    requires SysOk(sys)
    ensures SysOk(Do(sys, Start(c, started)))
  {
  }

  /** A caller that enters, checks, wakes or gives up moves on its own. */
  lemma OwnMoveKeeps(sys: Sys, ev: Event)
    requires SysOk(sys) && (ev.Enter? || ev.Check? || ev.Wake? || ev.GiveUp?)
    ensures SysOk(Do(sys, ev))
  {
    var after := Do(sys, ev);
    if after != sys {
      if ev.c in sys.calls { assert CallOk(sys, ev.c, sys.calls[ev.c]); }
      MoveKeeps(sys, ev.c, after.calls[ev.c]);
    }
  }

  lemma EventKeeps(sys: Sys, ev: Event)
    requires SysOk(sys)
    ensures SysOk(Do(sys, ev))
  {
    match ev
    case TellWaiters(c) => TellKeeps(sys, c);
    case Start(c, started) => StartKeeps(sys, c, started);
    case Send(c) => SendKeeps(sys, c);
    case ForgetOwn(c) => ForgetKeeps(sys, c);
    case ReadMessage(p, m) => ReadKeeps(sys, p, m);
    case ReaderEnds(p) =>
      if p in sys.readers {
        BackendsKeep(sys, sys.closed, sys.proc, sys.readers - {p}, sys.alive, sys.nextBackend);
        FailKeeps(sys.(readers := sys.readers - {p}), p);
      }
    case Exit(p) => BackendsKeep(sys, sys.closed, sys.proc, sys.readers, sys.alive - {p}, sys.nextBackend);
    case Close => BackendsKeep(sys, true, None, sys.readers, Do(sys, Close).alive, sys.nextBackend);
    case _ => OwnMoveKeeps(sys, ev);
  }

  lemma {:induction false} AlwaysOk(sys: Sys, events: seq<Event>)
    requires SysOk(sys)
    ensures SysOk(After(sys, events))
    decreases |events|
  {
    if events != [] {
      EventKeeps(sys, events[0]);
      AlwaysOk(Do(sys, events[0]), events[1..]);
    }
  }

  // ---- the guarantees ------------------------------------------------------------------------------

  /** Under any interleaving: two calls never have the same id, and no call is given a second one. */
  lemma IdsAreNeverReused(events: seq<Event>, c: Caller, d: Caller)
    requires var sys := After(START, events);
             c in sys.calls && d in sys.calls && HasId(sys.calls[c]) && HasId(sys.calls[d]) && c != d
    ensures var sys := After(START, events);
            && sys.calls[c].id != sys.calls[d].id
            && 1 <= sys.calls[c].id <= |sys.given| && sys.given[sys.calls[c].id - 1] == c
  {
    AlwaysOk(START, events);
    var sys := After(START, events);
    assert CallOk(sys, c, sys.calls[c]) && CallOk(sys, d, sys.calls[d]);
  }

  /** The caller's answer carries its own id, and is made by the bridge, or is a backend message whose id
      is the one this call was given, and no other call's. */
  lemma AnswersBelong(events: seq<Event>, c: Caller, d: Caller)
    requires var sys := After(START, events); c in sys.calls && sys.calls[c].Answered?
    ensures var sys := After(START, events);
            var call := sys.calls[c];
            && call.answer.id == call.own
            && (call.answer.FromBackend? ==>
                  && Matches(call.answer.message.id, call.id)
                  && (d in sys.calls && HasId(sys.calls[d]) && d != c ==>
                        !Matches(call.answer.message.id, sys.calls[d].id)))
  {
    AlwaysOk(START, events);
    var sys := After(START, events);
    assert CallOk(sys, c, sys.calls[c]);
    if d in sys.calls && HasId(sys.calls[d]) && d != c {
      IdsAreNeverReused(events, c, d);
    }
  }

  /** One answer: once given it never changes. */
  lemma {:induction false} AnswersAreFinal(sys: Sys, events: seq<Event>, c: Caller)
    requires c in sys.calls && sys.calls[c].Answered?
    ensures c in After(sys, events).calls && After(sys, events).calls[c] == sys.calls[c]
    decreases |events|
  {
    if events != [] {
      AnswersAreFinal(Do(sys, events[0]), events[1..], c);
    }
  }

  lemma ReadFor(sys: Sys, p: Backend, m: Message, c: Caller)
    requires SysOk(sys) && p in sys.readers && c in sys.calls && sys.calls[c].Waiting? && sys.calls[c].slot.None?
    ensures var calls := Do(sys, ReadMessage(p, m)).calls;
            if Matches(m.id, sys.calls[c].id) then calls == sys.calls[c := sys.calls[c].(slot := Some(Reply(m)))]
            else c in calls && calls[c] == sys.calls[c]
  {
    assert CallOk(sys, c, sys.calls[c]);
  }

  /** A message read from a live reader reaches a waiting caller exactly when its id is the caller's as a
      Python key; nobody else's slot changes. Waking then answers with that message, under the caller's own id. */
  lemma MessageReaches(events: seq<Event>, p: Backend, m: Message, c: Caller)
    requires var sys := After(START, events);
             p in sys.readers && c in sys.calls && sys.calls[c].Waiting? && sys.calls[c].slot.None?
    ensures var sys := After(START, events);
            var read := Do(sys, ReadMessage(p, m));
            var Waiting(own, id, _) := sys.calls[c];
            && read.calls[c] == Waiting(own, id, if Matches(m.id, id) then Some(Reply(m)) else None)
            && (Matches(m.id, id) ==>
                  && (forall d | d in sys.calls && d != c :: read.calls[d] == sys.calls[d])
                  && Do(read, Wake(c)).calls[c] == Answered(own, id, FromBackend(own, m)))
  {
    AlwaysOk(START, events);
    ReadFor(After(START, events), p, m, c);
  }

  /** What may become of a call whose slot was filled: its answer is what the slot holds, or its own timeout. */
  predicate Holds(call: Call, own: Id, id: nat, d: Delivery) {
    || call == Waiting(own, id, Some(d)) || call == GaveUp(own, id)
    || call == Answered(own, id, Reported(own, d)) || call == Answered(own, id, TimedOut(own))
  }

  lemma HoldsOn(sys: Sys, ev: Event, c: Caller, own: Id, id: nat, d: Delivery)
    requires c in sys.calls && Holds(sys.calls[c], own, id, d)
    ensures c in Do(sys, ev).calls && Holds(Do(sys, ev).calls[c], own, id, d)
    ensures ev != GiveUp(c) && sys.calls[c] == Waiting(own, id, Some(d)) ==>
              Do(sys, ev).calls[c] in {Waiting(own, id, Some(d)), Answered(own, id, Reported(own, d))}
  {
  }

  /** A delivery is never overwritten, whatever happens until the caller wakes. */
  lemma {:induction false} DeliveredStays(sys: Sys, events: seq<Event>, c: Caller, own: Id, id: nat, d: Delivery)
    requires c in sys.calls && Holds(sys.calls[c], own, id, d)
    ensures c in After(sys, events).calls && Holds(After(sys, events).calls[c], own, id, d)
    ensures GiveUp(c) !in events && sys.calls[c] == Waiting(own, id, Some(d)) ==>
              After(sys, events).calls[c] in {Waiting(own, id, Some(d)), Answered(own, id, Reported(own, d))}
    decreases |events|
  {
    if events != [] {
      var next, rest := Do(sys, events[0]), events[1..];
      HoldsOn(sys, events[0], c, own, id, d);
      DeliveredStays(next, rest, c, own, id, d);
      if GiveUp(c) !in events {
        assert events[0] in events && forall e | e in rest :: e in events;
        if next.calls[c].Answered? { AnswersAreFinal(next, rest, c); }
      }
    }
  }

  /** Reader threads belong to backends that were started; a reader that ended does not come back. */
  ghost predicate ReadersOk(sys: Sys) {
    forall p | p in sys.readers :: p < sys.nextBackend
  }

  lemma {:induction false} ReadersAreOld(sys: Sys, events: seq<Event>)
    requires ReadersOk(sys)
    ensures ReadersOk(After(sys, events))
    decreases |events|
  {
    if events != [] { ReadersAreOld(Do(sys, events[0]), events[1..]); }
  }

  lemma {:induction false} EndedStaysEnded(sys: Sys, events: seq<Event>, p: Backend)
    requires p !in sys.readers && p < sys.nextBackend
    ensures p !in After(sys, events).readers
    decreases |events|
  {
    if events != [] { EndedStaysEnded(Do(sys, events[0]), events[1..], p); }
  }

  /** A message ends its reader exactly when its id is an array or an object. Then nobody is told, and no
      message of that backend is ever read again, nor its end noticed. */
  lemma KeylessEndsReader(events: seq<Event>, p: Backend, m: Message, more: seq<Event>)
    requires p in After(START, events).readers
    ensures var sys := After(START, events);
            var read := Do(sys, ReadMessage(p, m));
            && (p !in read.readers <==> m.id == NoKey)
            && (m.id == NoKey ==>
                  && read.calls == sys.calls && read.table == sys.table
                  && forall n: Message :: var later := After(read, more);
                       Do(later, ReadMessage(p, n)) == later && Do(later, ReaderEnds(p)) == later)
  {
    ReadersAreOld(START, events);
    if m.id == NoKey { EndedStaysEnded(Do(After(START, events), ReadMessage(p, m)), more, p); }
  }

  /** One caller, one backend, one request under id 1. */
  function OneRequest(): seq<Event> {
    [Enter(7, TextId("own")), Check(7), Start(7, true), Send(7)]
  }

  lemma OneRequestWaits()
    ensures var sys := After(START, OneRequest());
            0 in sys.readers && 7 in sys.calls && sys.calls[7] == Waiting(TextId("own"), 1, None)
  {
    var e := OneRequest();
    assert e[1..] == [Check(7), Start(7, true), Send(7)] && e[1..][1..] == [Start(7, true), Send(7)];
    assert e[1..][1..][1..] == [Send(7)] && e[1..][1..][1..][1..] == [];
    var one := Do(START, e[0]);
    var two := Do(one, Check(7));
    var three := Do(two, Start(7, true));
    var four := Do(three, Send(7));
    assert two.calls[7] == Restarting(TextId("own")) && three.calls[7] == Ready(TextId("own"));
    assert After(START, e) == After(one, e[1..]) == After(two, e[1..][1..]) == After(three, e[1..][1..][1..]) == four;
  }

  /** A reply with id true, which no request has, answers the request with id 1; one with id [] leaves it waiting. */
  lemma TrueIsOne()
    ensures var sys, m := After(START, OneRequest()), Message(BoolId(true), "");
            Do(Do(sys, ReadMessage(0, m)), Wake(7)).calls[7]
            == Answered(TextId("own"), 1, FromBackend(TextId("own"), m))
    ensures var sys, m := After(START, OneRequest()), Message(NoKey, "");
            var read := Do(sys, ReadMessage(0, m));
            read.readers == {} && read.calls[7] == Waiting(TextId("own"), 1, None)
  {
    OneRequestWaits();
    MessageReaches(OneRequest(), 0, Message(BoolId(true), ""), 7);
    MessageReaches(OneRequest(), 0, Message(NoKey, ""), 7);
    OneReader();
  }

  lemma OneReader()
    ensures After(START, OneRequest()).readers == {0}
  {
    var e := OneRequest();
    assert e[1..] == [Check(7), Start(7, true), Send(7)] && e[1..][1..] == [Start(7, true), Send(7)];
    assert e[1..][1..][1..] == [Send(7)] && e[1..][1..][1..][1..] == [];
    var three := Do(Do(Do(START, e[0]), Check(7)), Start(7, true));
    assert three.readers == {0};
    assert After(START, e) == After(three, e[1..][1..][1..]) == Do(three, Send(7));
  }

  /** When the current backend's output ends, everyone who waits is told at once. */
  lemma ExitTellsAll(events: seq<Event>, p: Backend, c: Caller)
    requires var sys := After(START, events);
             p in sys.readers && (sys.proc == Some(p) || sys.proc.None?) && c in sys.calls && sys.calls[c].Waiting?
    ensures var after := Do(After(START, events), ReaderEnds(p));
            after.table.pending == map[] && after.calls[c].Waiting? && after.calls[c].slot.Some?
  {
    AlwaysOk(START, events);
    assert CallOk(After(START, events), c, After(START, events).calls[c]);
  }
}
