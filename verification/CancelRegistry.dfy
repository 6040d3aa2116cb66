/** The registry of running seat processes and its cancellation epoch. The registry's methods are the
    sections under its lock; runs and cancellations interleave them in any order. */
module CancelRegistry {
  import opened Options

  /** A process: which one it is, and the address its object has while somebody holds it. */
  datatype Proc = Proc(uid: nat, addr: nat)

  /** The registry key: the time, and the address of the process object. */
  datatype Token = Token(time: nat, addr: nat)

  datatype Reg = Reg(live: map<Token, Proc>, epoch: nat)

  /** A process is admitted unless its run read the epoch before a cancellation. */
  function Admit(reg: Reg, token: Token, proc: Proc, expected: Option<nat>): (Reg, bool) {
    if expected.Some? && expected.value != reg.epoch then (reg, false)
    else (reg.(live := reg.live[token := proc]), true)
  }

  function Drop(reg: Reg, tokens: set<Token>): Reg {
    reg.(live := reg.live - tokens)
  }

  class Registry {
    var live: map<Token, Proc>
    var epoch: nat

    ghost function Contents(): Reg
      reads this
    {
      Reg(live, epoch)
    }

    constructor ()
      ensures Contents() == Reg(map[], 0)
    {
      live, epoch := map[], 0;
    }

    method Epoch() returns (e: nat)
      ensures e == Contents().epoch
    {
      e := epoch;
    }

    /** Registers the process; when it answers false the caller stops the process. */
    method Register(token: Token, proc: Proc, expected: Option<nat>) returns (admitted: bool)
      modifies this
      ensures (Contents(), admitted) == Admit(old(Contents()), token, proc, expected)
    {
      var cancelled := expected.Some? && expected.value != epoch;
      if !cancelled { live := live[token := proc]; }
      admitted := !cancelled;
    }

    method Release(token: Token)
      modifies this
      ensures Contents() == Drop(old(Contents()), {token})
    {
      live := live - {token};
    }

    /** The first locked section of a cancellation; the caller then asks all tracked processes to stop. */
    method BeginCancel() returns (tracked: map<Token, Proc>)
      modifies this
      ensures Contents() == old(Contents()).(epoch := old(epoch) + 1) && tracked == live
    {
      epoch := epoch + 1;
      tracked := live;
    }

    method EndCancel(tracked: map<Token, Proc>)
      modifies this
      ensures Contents() == Drop(old(Contents()), tracked.Keys)
    {
      var left := tracked.Keys;
      while left != {}
        invariant left <= tracked.Keys
        invariant Contents() == Drop(old(Contents()), tracked.Keys - left)
        decreases |left|
      {
        var token :| token in left;
        live := live - {token};
        left := left - {token};
      }
    }
  }

  // ---- runs and cancellations --------------------------------------------------------------

  /** One seat run: it reads the epoch, spawns, registers, cleans up, releases. */
  datatype Run =
    | Prepared(epoch: nat)
    | Spawned(epoch: nat, proc: Proc)
    | Refusing(epoch: nat, proc: Proc)            // not admitted; the stop is about to be asked
    | Running(epoch: nat, proc: Proc, token: Token)
    | Cleaned(epoch: nat, proc: Proc, token: Token)
    | Over(epoch: nat, proc: Proc)

  /** One cancellation: the epoch it made, what it tracked, whom it asked. */
  datatype Cancel = Cancel(epoch: nat, tracked: map<Token, Proc>, asked: set<Token>, ended: bool)

  /** `asked` and `exited` hold the processes that were asked to stop, and that ended by themselves. */
  datatype Sys = Sys(reg: Reg, runs: map<nat, Run>, cancels: seq<Cancel>, asked: set<nat>, exited: set<nat>,
                     nextUid: nat, now: nat)

  const START := Sys(Reg(map[], 0), map[], [], {}, {}, 0, 0)

  datatype Event =
    | ReadEpoch(run: nat) | Spawn(run: nat, addr: nat) | Register(run: nat) | StopRefused(run: nat)
    | Exit(uid: nat) | Cleanup(run: nat) | Release(run: nat)
    | CancelBegin | CancelAsk(cancel: nat, token: Token) | CancelEnd(cancel: nat)
    | Tick(time: nat)

  /** Runs that still hold their process object. */
  predicate Holds(run: Run) {
    !run.Prepared? && !run.Over?
  }

  /** No object anybody holds has that address. */
  predicate Free(sys: Sys, addr: nat) {
    && (forall r | r in sys.runs :: Holds(sys.runs[r]) ==> sys.runs[r].proc.addr != addr)
    && (forall t | t in sys.reg.live :: sys.reg.live[t].addr != addr)
    && (forall i | 0 <= i < |sys.cancels| ::
          !sys.cancels[i].ended ==> forall t | t in sys.cancels[i].tracked :: sys.cancels[i].tracked[t].addr != addr)
  }

  /** One event; one that cannot happen now changes nothing. */
  function Do(sys: Sys, ev: Event): Sys {
    match ev
    case ReadEpoch(r) => if r in sys.runs then sys else sys.(runs := sys.runs[r := Prepared(sys.reg.epoch)])
    case Spawn(r, addr) =>
      if r in sys.runs && sys.runs[r].Prepared? && Free(sys, addr) then
        sys.(runs := sys.runs[r := Spawned(sys.runs[r].epoch, Proc(sys.nextUid, addr))], nextUid := sys.nextUid + 1)
      else sys
    case Register(r) =>
      if r in sys.runs && sys.runs[r].Spawned? then
        var Spawned(e, proc) := sys.runs[r];
        var token := Token(sys.now, proc.addr);
        var (reg, admitted) := Admit(sys.reg, token, proc, Some(e));
        sys.(reg := reg, runs := sys.runs[r := if admitted then Running(e, proc, token) else Refusing(e, proc)])
      else sys
    case StopRefused(r) =>
      if r in sys.runs && sys.runs[r].Refusing? then
        var Refusing(e, proc) := sys.runs[r];
        sys.(runs := sys.runs[r := Over(e, proc)], asked := sys.asked + {proc.uid})
      else sys
    case Exit(uid) => if uid < sys.nextUid then sys.(exited := sys.exited + {uid}) else sys
    case Cleanup(r) =>
      if r in sys.runs && sys.runs[r].Running? then
        var Running(e, proc, token) := sys.runs[r];
        sys.(runs := sys.runs[r := Cleaned(e, proc, token)],
             asked := if proc.uid in sys.exited then sys.asked else sys.asked + {proc.uid})
      else sys
    case Release(r) =>
      if r in sys.runs && sys.runs[r].Cleaned? then
        var Cleaned(e, proc, token) := sys.runs[r];
        sys.(runs := sys.runs[r := Over(e, proc)], reg := Drop(sys.reg, {token}))
      else sys
    case CancelBegin =>
      var epoch := sys.reg.epoch + 1;
      sys.(reg := sys.reg.(epoch := epoch), cancels := sys.cancels + [Cancel(epoch, sys.reg.live, {}, false)])
    case CancelAsk(i, token) =>
      if i < |sys.cancels| && !sys.cancels[i].ended && token in sys.cancels[i].tracked then
        var c := sys.cancels[i];
        sys.(cancels := sys.cancels[i := c.(asked := c.asked + {token})], asked := sys.asked + {c.tracked[token].uid})
      else sys
    case CancelEnd(i) =>
      if i < |sys.cancels| && !sys.cancels[i].ended && sys.cancels[i].tracked.Keys <= sys.cancels[i].asked then
        sys.(cancels := sys.cancels[i := sys.cancels[i].(ended := true)],
             reg := Drop(sys.reg, sys.cancels[i].tracked.Keys))
      else sys
    case Tick(t) => if t > sys.now then sys.(now := t) else sys
  }

  function After(sys: Sys, events: seq<Event>): Sys
    decreases |events|
  {
    if events == [] then sys else After(Do(sys, events[0]), events[1..])
  }

  /** One event on a registry object: its locked section, and what the caller makes of the answer. */
  method Act(registry: Registry, sys: Sys, ev: Event) returns (sys': Sys)
    requires registry.Contents() == sys.reg
    modifies registry
    ensures sys' == Do(sys, ev) && registry.Contents() == sys'.reg
  {
    sys' := Do(sys, ev);
    if sys' == sys { return; }
    match ev {
      case ReadEpoch(r) =>
        var epoch := registry.Epoch();
        sys' := sys.(runs := sys.runs[r := Prepared(epoch)]);
      case Register(r) =>
        var Spawned(e, proc) := sys.runs[r];
        var token := Token(sys.now, proc.addr);
        var admitted := registry.Register(token, proc, Some(e));
        sys' := sys.(reg := Reg(registry.live, registry.epoch),
                     runs := sys.runs[r := if admitted then Running(e, proc, token) else Refusing(e, proc)]);
      case Release(r) =>
        registry.Release(sys.runs[r].token);
      case CancelBegin =>
        var tracked := registry.BeginCancel();
        sys' := sys.(reg := Reg(registry.live, registry.epoch),
                     cancels := sys.cancels + [Cancel(registry.epoch, tracked, {}, false)]);
      case CancelEnd(i) =>
        registry.EndCancel(sys.cancels[i].tracked);
      case _ =>
    }
  }

  /** A registry object under any interleaving of runs and cancellations. */
  method Drive(events: seq<Event>) returns (registry: Registry, sys: Sys)
    ensures fresh(registry) && sys == After(START, events) && registry.Contents() == sys.reg
  {
    registry := new Registry();
    sys := START;
    assert events[0..] == events;
    for i := 0 to |events|
      invariant fresh(registry) && registry.Contents() == sys.reg
      invariant After(sys, events[i..]) == After(START, events)
    {
      assert events[i..][1..] == events[i + 1..];
      sys := Act(registry, sys, events[i]);
    }
  }

  // ---- what every reachable state satisfies ---------------------------------------------------

  /** Objects that are held have an address of their own; a token has its process's address. */
  ghost predicate AddressesOk(sys: Sys) {
    && (forall r, r' | r in sys.runs && r' in sys.runs && r != r' && Holds(sys.runs[r]) && Holds(sys.runs[r']) ::
          sys.runs[r].proc.addr != sys.runs[r'].proc.addr)
    && (forall r | r in sys.runs && (sys.runs[r].Running? || sys.runs[r].Cleaned?) ::
          sys.runs[r].token.addr == sys.runs[r].proc.addr)
  }

  /** An entry with the address of a held process is that process. */
  ghost predicate EntryOk(sys: Sys, token: Token, proc: Proc) {
    && token.addr == proc.addr
    && forall r | r in sys.runs && Holds(sys.runs[r]) && sys.runs[r].proc.addr == proc.addr :: sys.runs[r].proc == proc
  }

  ghost predicate EntriesOk(sys: Sys) {
    && (forall t | t in sys.reg.live :: EntryOk(sys, t, sys.reg.live[t]))
    && (forall i, t | 0 <= i < |sys.cancels| && !sys.cancels[i].ended && t in sys.cancels[i].tracked ::
          EntryOk(sys, t, sys.cancels[i].tracked[t]))
  }

  ghost predicate CancelsOk(sys: Sys) {
    forall i | 0 <= i < |sys.cancels| ::
      && sys.cancels[i].epoch <= sys.reg.epoch
      && forall t | t in sys.cancels[i].asked ::
           t in sys.cancels[i].tracked && sys.cancels[i].tracked[t].uid in sys.asked
  }

  predicate Asked(sys: Sys, proc: Proc) {
    proc.uid in sys.asked
  }

  predicate In(live: map<Token, Proc>, token: Token, proc: Proc) {
    token in live && live[token] == proc
  }

  /** A registered process is in the registry or was asked to stop; an earlier epoch's process is tracked
      by every later cancellation until it is asked. */
  ghost predicate RunOk(sys: Sys, run: Run) {
    match run
    case Prepared(e) => e <= sys.reg.epoch
    case Spawned(e, _) => e <= sys.reg.epoch
    case Refusing(e, _) => e < sys.reg.epoch
    case Running(e, proc, token) =>
      && e <= sys.reg.epoch
      && (In(sys.reg.live, token, proc) || Asked(sys, proc))
      && forall i | 0 <= i < |sys.cancels| && e < sys.cancels[i].epoch ::
           Asked(sys, proc) || (!sys.cancels[i].ended && In(sys.cancels[i].tracked, token, proc))
    case Cleaned(_, proc, _) => Asked(sys, proc) || proc.uid in sys.exited
    case Over(_, proc) => Asked(sys, proc) || proc.uid in sys.exited
  }

  ghost predicate RunsOk(sys: Sys) {
    forall r | r in sys.runs :: RunOk(sys, sys.runs[r])
  }

  ghost predicate SysOk(sys: Sys) {
    AddressesOk(sys) && EntriesOk(sys) && CancelsOk(sys) && RunsOk(sys)
  }

  lemma SpawnKeeps(sys: Sys, r: nat, addr: nat)
    requires SysOk(sys)
    ensures SysOk(Do(sys, Spawn(r, addr)))
  {
  }

  /** Asking more processes to stop, more of them ending, and time passing break nothing. */
  lemma MoreAskedKeeps(sys: Sys, asked: set<nat>, exited: set<nat>, now: nat)
    requires SysOk(sys) && sys.asked <= asked && sys.exited <= exited
    ensures SysOk(sys.(asked := asked, exited := exited, now := now))
  {
  }

  /** A run that moves on with the same process, or lets it go. */
  lemma RunMovesKeeps(sys: Sys, r: nat, run: Run)
    requires SysOk(sys) && r in sys.runs && Holds(sys.runs[r])
    requires !run.Prepared? && run.proc == sys.runs[r].proc && RunOk(sys, run)
    requires run.Running? || run.Cleaned? ==> run.token.addr == run.proc.addr
    ensures SysOk(sys.(runs := sys.runs[r := run]))
  {
  }

  /** A process whose token names its address enters the registry. */
  lemma EntryKeeps(sys: Sys, r: nat, token: Token)
    requires SysOk(sys) && r in sys.runs && sys.runs[r].Spawned? && token.addr == sys.runs[r].proc.addr
    ensures SysOk(sys.(reg := sys.reg.(live := sys.reg.live[token := sys.runs[r].proc])))
  {
    var after := sys.(reg := sys.reg.(live := sys.reg.live[token := sys.runs[r].proc]));
    forall t | t in after.reg.live ensures EntryOk(after, t, after.reg.live[t]) {
      if t != token { assert EntryOk(sys, t, sys.reg.live[t]); }
    }
    forall q | q in after.runs ensures RunOk(after, after.runs[q]) {
      assert RunOk(sys, sys.runs[q]);
    }
  }

  lemma RegisterKeeps(sys: Sys, r: nat)
    requires SysOk(sys)
    ensures SysOk(Do(sys, Register(r)))
  {
    if r in sys.runs && sys.runs[r].Spawned? {
      var Spawned(e, proc) := sys.runs[r];
      var token := Token(sys.now, proc.addr);
      assert RunOk(sys, sys.runs[r]);
      if e < sys.reg.epoch {
        RunMovesKeeps(sys, r, Refusing(e, proc));
      } else {
        EntryKeeps(sys, r, token);
        RunMovesKeeps(sys.(reg := sys.reg.(live := sys.reg.live[token := proc])), r, Running(e, proc, token));
      }
    }
  }

  /** Tokens may be dropped when every running process they name was asked. */
  lemma DropKeeps(sys: Sys, tokens: set<Token>)
    requires SysOk(sys)
    requires forall r | r in sys.runs && sys.runs[r].Running? && sys.runs[r].token in tokens ::
               Asked(sys, sys.runs[r].proc)
    ensures SysOk(sys.(reg := Drop(sys.reg, tokens)))
  {
  }

  lemma CancelBeginKeeps(sys: Sys)
    requires SysOk(sys)
    ensures SysOk(Do(sys, CancelBegin))
  {
  }

  /** What a cancellation takes out of the registry, it tracked itself. */
  lemma DroppedWasTracked(sys: Sys, i: nat, r: nat)
    requires SysOk(sys) && i < |sys.cancels| && !sys.cancels[i].ended
    requires r in sys.runs && sys.runs[r].Running? && sys.runs[r].token in sys.cancels[i].tracked
    ensures sys.cancels[i].tracked[sys.runs[r].token] == sys.runs[r].proc
  {
  }

  /** A released token is no other running process's token. */
  lemma TokensDiffer(sys: Sys, r: nat, q: nat)
    requires SysOk(sys) && r in sys.runs && q in sys.runs && r != q
    requires sys.runs[r].Cleaned? && sys.runs[q].Running?
    ensures sys.runs[r].token != sys.runs[q].token
  {
  }

  lemma EpochKeeps(sys: Sys, r: nat)
    requires SysOk(sys)
    ensures SysOk(Do(sys, ReadEpoch(r)))
  {
    var after := Do(sys, ReadEpoch(r));
    forall t | t in sys.reg.live ensures EntryOk(after, t, sys.reg.live[t]) {
      assert EntryOk(sys, t, sys.reg.live[t]);
    }
    forall i, t | 0 <= i < |sys.cancels| && !sys.cancels[i].ended && t in sys.cancels[i].tracked
      ensures EntryOk(after, t, sys.cancels[i].tracked[t])
    {
      assert EntryOk(sys, t, sys.cancels[i].tracked[t]);
    }
    forall q | q in after.runs ensures RunOk(after, after.runs[q]) {
      if q in sys.runs { assert RunOk(sys, sys.runs[q]); }
    }
  }

  lemma EventKeeps(sys: Sys, ev: Event)
    requires SysOk(sys)
    ensures SysOk(Do(sys, ev))
  {
    match ev
    case ReadEpoch(r) => EpochKeeps(sys, r);
    case Spawn(r, addr) => SpawnKeeps(sys, r, addr);
    case Register(r) => RegisterKeeps(sys, r);
    case StopRefused(r) =>
      if Do(sys, ev) != sys {
        var Refusing(e, proc) := sys.runs[r];
        MoreAskedKeeps(sys, sys.asked + {proc.uid}, sys.exited, sys.now);
        RunMovesKeeps(sys.(asked := sys.asked + {proc.uid}), r, Over(e, proc));
      }
    case Exit(uid) => MoreAskedKeeps(sys, sys.asked, sys.exited + {uid}, sys.now);
    case Cleanup(r) =>
      if r in sys.runs && sys.runs[r].Running? {
        var Running(e, proc, token) := sys.runs[r];
        var asked := if proc.uid in sys.exited then sys.asked else sys.asked + {proc.uid};
        MoreAskedKeeps(sys, asked, sys.exited, sys.now);
        RunMovesKeeps(sys.(asked := asked), r, Cleaned(e, proc, token));
      }
    case Release(r) =>
      if r in sys.runs && sys.runs[r].Cleaned? {
        var Cleaned(e, proc, token) := sys.runs[r];
        assert RunOk(sys, sys.runs[r]);
        forall q | q in sys.runs && sys.runs[q].Running? ensures sys.runs[q].token != token { TokensDiffer(sys, r, q); }
        DropKeeps(sys, {token});
        RunMovesKeeps(sys.(reg := Drop(sys.reg, {token})), r, Over(e, proc));
      }
    case CancelBegin => CancelBeginKeeps(sys);
    case CancelAsk(i, token) => AskKeeps(sys, i, token);
    case CancelEnd(i) => EndKeeps(sys, i);
    case Tick(t) => MoreAskedKeeps(sys, sys.asked, sys.exited, t);
  }

  lemma AskKeeps(sys: Sys, i: nat, token: Token)
    requires SysOk(sys)
    ensures SysOk(Do(sys, CancelAsk(i, token)))
  {
  }

  lemma EndKeeps(sys: Sys, i: nat)
    requires SysOk(sys)
    ensures SysOk(Do(sys, CancelEnd(i)))
  {
  }

  lemma {:induction false} AlwaysOk(sys: Sys, events: seq<Event>)
    requires SysOk(sys)
    ensures SysOk(After(sys, events))
    decreases |events|
  {
    if events != [] {
      EventKeeps(sys, events[0]);
      AlwaysOk(Do(sys, events[0]), events[1..]);
    }
  }

  // ---- the guarantees ----------------------------------------------------------------------------

  /** In every interleaving: a process whose run read its epoch before a cancellation that has ended was
      asked to stop or had ended, unless its own registration is still to come; and that registration
      will refuse it and ask. */
  lemma CancelReaches(events: seq<Event>, r: nat, i: nat)
    requires var sys := After(START, events);
             r in sys.runs && !sys.runs[r].Prepared? && i < |sys.cancels| && sys.runs[r].epoch < sys.cancels[i].epoch
    ensures var sys := After(START, events);
            var run := sys.runs[r];
            && (sys.cancels[i].ended && (run.Running? || run.Cleaned? || run.Over?) ==>
                  Asked(sys, run.proc) || run.proc.uid in sys.exited)
            && (run.Spawned? ==> Do(sys, Register(r)).runs[r] == Refusing(run.epoch, run.proc))
            && (run.Refusing? ==> Asked(Do(sys, StopRefused(r)), run.proc))
  {
    AlwaysOk(START, events);
    var sys := After(START, events);
    assert RunOk(sys, sys.runs[r]);
  }

  /** While a cancellation is going on, an earlier run's process is among those it still has to ask. */
  lemma TrackedUntilAsked(events: seq<Event>, r: nat, i: nat)
    requires var sys := After(START, events);
             r in sys.runs && sys.runs[r].Running? && i < |sys.cancels| && sys.runs[r].epoch < sys.cancels[i].epoch
    ensures var sys := After(START, events);
            Asked(sys, sys.runs[r].proc)
            || (!sys.cancels[i].ended && In(sys.cancels[i].tracked, sys.runs[r].token, sys.runs[r].proc))
  {
    AlwaysOk(START, events);
    var sys := After(START, events);
    assert RunOk(sys, sys.runs[r]);
  }

  lemma EntryStays(sys: Sys, ev: Event, q: nat)
    requires SysOk(sys) && q in sys.runs && sys.runs[q].Running?
    requires In(sys.reg.live, sys.runs[q].token, sys.runs[q].proc)
    ensures || In(Do(sys, ev).reg.live, sys.runs[q].token, sys.runs[q].proc)
            || (ev.CancelEnd? && Asked(sys, sys.runs[q].proc))
  {
    match ev
    case Release(r) =>
      if r in sys.runs && sys.runs[r].Cleaned? && r != q { TokensDiffer(sys, r, q); }
    case CancelEnd(i) =>
      if Do(sys, ev) != sys && sys.runs[q].token in sys.cancels[i].tracked { DroppedWasTracked(sys, i, q); }
    case Register(r) =>
      if r in sys.runs && sys.runs[r].Spawned? { assert sys.runs[r].proc.addr != sys.runs[q].proc.addr; }
    case _ =>
  }

  /** No release drops another run's process; what a cancellation drops it has asked. */
  lemma NoOtherDropped(events: seq<Event>, ev: Event, q: nat)
    requires var sys := After(START, events);
             q in sys.runs && sys.runs[q].Running? && In(sys.reg.live, sys.runs[q].token, sys.runs[q].proc)
    ensures var sys := After(START, events);
            var run := sys.runs[q];
            In(Do(sys, ev).reg.live, run.token, run.proc) || (ev.CancelEnd? && Asked(sys, run.proc))
  {
    AlwaysOk(START, events);
    EntryStays(After(START, events), ev, q);
  }
}
