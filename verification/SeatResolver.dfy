/** Choosing a seat for a role: the decision document's candidates in order, and, when the caller allows
    it, the best other seat of the host. Every choice meets the vendor, retention, health and availability
    rules. */
module SeatResolver {
  import opened Options

  datatype Seat = Seat(cli: string, model: string, baseUrl: bool, vendor: string, zeroRetention: bool,
                       routingLabel: Option<string>, routingId: Option<string>)

  datatype Candidate = Candidate(value: string, cli: Option<string>, channel: Option<string>)

  /** The seats in declaration order; names are dictionary keys. */
  datatype Entry = Entry(name: string, seat: Seat)

  /** What the resolver is given: the rules, the host's snapshot, and the text operations it uses. */
  datatype Env = Env(authorVendor: Option<string>, zeroRequired: bool, allowFallback: bool,
                     cooldown: map<string, real>, now: real, available: map<string, bool>,
                     fold: string -> string, strip: string -> string, variants: string -> set<string>)

  // ---- matching ---------------------------------------------------------------------------

  function BeforeSlash(s: string): string {
    if s == "" || s[0] == '/' then "" else [s[0]] + BeforeSlash(s[1..])
  }

  function EndsWith(s: string, suffix: string): bool {
    |s| >= |suffix| && s[|s| - |suffix|..] == suffix
  }

  /** The execution pool of a seat. */
  function SeatChannel(seat: Seat): Option<string> {
    if seat.cli == "opencode" && seat.baseUrl then Some("local")
    else if seat.cli == "opencode" then
      var provider := BeforeSlash(seat.model);
      if provider == "opencode-go" then Some("go")
      else if provider == "nvidia" then Some("nvidia")
      else if provider == "opencode" then
        Some(if |seat.model| > |provider| && EndsWith(seat.model[|provider|..][1..], "-free") then "zen-free"
             else "zen")
      else None
    else if seat.cli == "claude" || seat.cli == "codex" || seat.cli == "agy" then Some(seat.cli)
    else if seat.cli == "ollama" then Some("local")
    else None
  }

  predicate Matches(env: Env, seat: Seat, c: Candidate) {
    && (c.cli.Some? && c.cli.value != "" ==> env.fold(seat.cli) == env.fold(c.cli.value))
    && (c.channel.Some? && c.channel.value != "" ==> SeatChannel(seat) == c.channel)
    && (|| (seat.routingLabel.Some? && env.fold(env.strip(seat.routingLabel.value)) == env.fold(c.value))
        || (seat.routingId.Some? && env.fold(env.strip(seat.routingId.value)) in env.variants(c.value)))
  }

  // ---- the rules --------------------------------------------------------------------------

  datatype Reason = SameVendor | NoZeroRetention | InCooldown | Unavailable

  /** The first rule an entry breaks. */
  function Broken(env: Env, e: Entry): Option<Reason> {
    if env.authorVendor.Some? && env.authorVendor.value != ""
       && env.fold(env.strip(e.seat.vendor)) == env.fold(env.strip(env.authorVendor.value)) then Some(SameVendor)
    else if env.zeroRequired && !e.seat.zeroRetention then Some(NoZeroRetention)
    else if (if e.name in env.cooldown then env.cooldown[e.name] else 0.0) > env.now then Some(InCooldown)
    else if !(e.name in env.available && env.available[e.name]) then Some(Unavailable)
    else None
  }

  predicate Fit(env: Env, e: Entry) {
    Broken(env, e).None?
  }

  /** What the four rules ask of a seat. */
  predicate MeetsRules(env: Env, e: Entry) {
    && (env.authorVendor.Some? && env.authorVendor.value != "" ==>
          env.fold(env.strip(e.seat.vendor)) != env.fold(env.strip(env.authorVendor.value)))
    && (env.zeroRequired ==> e.seat.zeroRetention)
    && (if e.name in env.cooldown then env.cooldown[e.name] else 0.0) <= env.now
    && e.name in env.available && env.available[e.name]
  }

  lemma FitMeetsRules(env: Env, e: Entry)
    ensures Fit(env, e) <==> MeetsRules(env, e)
  {
  }

  datatype Evaluation = Evaluation(name: string, broken: Option<Reason>)

  // ---- the role's own candidates ----------------------------------------------------------

  function Matched(env: Env, seats: seq<Entry>, c: Candidate): seq<Entry> {
    if seats == [] then []
    else
      var last := seats[|seats| - 1];
      Matched(env, seats[..|seats| - 1], c) + (if Matches(env, last.seat, c) then [last] else [])
  }

  /** Matching seats, candidate by candidate, in the document's order. */
  function RoleSeats(env: Env, seats: seq<Entry>, role: seq<Candidate>): seq<Entry> {
    if role == [] then []
    else RoleSeats(env, seats, role[..|role| - 1]) + Matched(env, seats, role[|role| - 1])
  }

  function Evaluations(env: Env, es: seq<Entry>): seq<Evaluation> {
    if es == [] then []
    else Evaluations(env, es[..|es| - 1]) + [Evaluation(es[|es| - 1].name, Broken(env, es[|es| - 1]))]
  }

  /** The fit ones, each once, in order. */
  function FitOnes(env: Env, es: seq<Entry>): seq<Entry> {
    if es == [] then []
    else
      var more, last := FitOnes(env, es[..|es| - 1]), es[|es| - 1];
      more + (if Fit(env, last) && last !in more then [last] else [])
  }

  lemma OneMoreSeat(env: Env, es: seq<Entry>, e: Entry)
    ensures Evaluations(env, es + [e]) == Evaluations(env, es) + [Evaluation(e.name, Broken(env, e))]
    ensures FitOnes(env, es + [e])
         == FitOnes(env, es) + (if Fit(env, e) && e !in FitOnes(env, es) then [e] else [])
  {
  }

  lemma JoinSeats(a: seq<Entry>, b: seq<Entry>, c: seq<Entry>)
    ensures a + (b + c) == (a + b) + c
  {
  }

  /** Looks at every seat that matches one candidate; `before` was looked at already. */
  method EvaluateCandidate(env: Env, seats: seq<Entry>, c: Candidate, ghost before: seq<Entry>,
                           evaluated: seq<Evaluation>, chosen: seq<Entry>)
    returns (evaluations: seq<Evaluation>, eligible: seq<Entry>)
    requires evaluated == Evaluations(env, before) && chosen == FitOnes(env, before)
    ensures evaluations == Evaluations(env, before + Matched(env, seats, c))
    ensures eligible == FitOnes(env, before + Matched(env, seats, c))
  {
    evaluations, eligible := evaluated, chosen;
    assert before + [] == before;
    for j := 0 to |seats|
      invariant evaluations == Evaluations(env, before + Matched(env, seats[..j], c))
      invariant eligible == FitOnes(env, before + Matched(env, seats[..j], c))
    {
      assert seats[..j + 1][..j] == seats[..j];
      var e := seats[j];
      if Matches(env, e.seat, c) {
        OneMoreSeat(env, before + Matched(env, seats[..j], c), e);
        JoinSeats(before, Matched(env, seats[..j], c), [e]);
        evaluations := evaluations + [Evaluation(e.name, Broken(env, e))];
        if Fit(env, e) && e !in eligible { eligible := eligible + [e]; }
      } else {
        assert Matched(env, seats[..j], c) + [] == Matched(env, seats[..j], c);
      }
    }
    assert seats[..|seats|] == seats;
  }

  method EvaluateRole(env: Env, seats: seq<Entry>, role: seq<Candidate>)
    returns (evaluations: seq<Evaluation>, eligible: seq<Entry>)
    ensures evaluations == Evaluations(env, RoleSeats(env, seats, role))
    ensures eligible == FitOnes(env, RoleSeats(env, seats, role))
  {
    evaluations, eligible := [], [];
    for i := 0 to |role|
      invariant evaluations == Evaluations(env, RoleSeats(env, seats, role[..i]))
      invariant eligible == FitOnes(env, RoleSeats(env, seats, role[..i]))
    {
      assert role[..i + 1][..i] == role[..i];
      evaluations, eligible :=
        EvaluateCandidate(env, seats, role[i], RoleSeats(env, seats, role[..i]), evaluations, eligible);
    }
    assert role[..|role|] == role;
  }

  // ---- the fallback --------------------------------------------------------------------------

  predicate Rejected(evaluations: seq<Evaluation>, name: string) {
    exists i | 0 <= i < |evaluations| :: evaluations[i].name == name && evaluations[i].broken.Some?
  }

  /** One seat of the host: passed over when it was rejected before or is not available, else judged. */
  function ScanOne(env: Env, e: Entry, evaluations: seq<Evaluation>, found: seq<Entry>): (seq<Evaluation>, seq<Entry>) {
    if Rejected(evaluations, e.name) || Broken(env, e) == Some(Unavailable) then (evaluations, found)
    else (evaluations + [Evaluation(e.name, Broken(env, e))], if Fit(env, e) then found + [e] else found)
  }

  function Scan(env: Env, seats: seq<Entry>, evaluations: seq<Evaluation>): (seq<Evaluation>, seq<Entry>) {
    if seats == [] then (evaluations, [])
    else
      var (evs, found) := Scan(env, seats[..|seats| - 1], evaluations);
      ScanOne(env, seats[|seats| - 1], evs, found)
  }

  method ScanHost(env: Env, seats: seq<Entry>, before: seq<Evaluation>)
    returns (evaluations: seq<Evaluation>, found: seq<Entry>)
    ensures (evaluations, found) == Scan(env, seats, before)
  {
    evaluations, found := before, [];
    for i := 0 to |seats|
      invariant (evaluations, found) == Scan(env, seats[..i], before)
    {
      assert seats[..i + 1][..i] == seats[..i];
      var e := seats[i];
      if Rejected(evaluations, e.name) { continue; }
      var broken := Broken(env, e);
      if broken == Some(Unavailable) { continue; }
      evaluations := evaluations + [Evaluation(e.name, broken)];
      if broken.None? { found := found + [e]; }
    }
    assert seats[..|seats|] == seats;
  }

  /** Flat-rate seats first, then the go pool, then the rest. */
  function Tier(seat: Seat): nat {
    if (seat.cli == "claude" || seat.cli == "codex" || seat.cli == "agy" || seat.cli == "ollama")
       && SeatChannel(seat) != Some("zen") then 0
    else if SeatChannel(seat) == Some("go") then 1 else 2
  }

  function CliRank(cli: string): nat {
    if cli == "claude" then 0 else if cli == "codex" then 1 else if cli == "agy" then 2
    else if cli == "opencode" then 3 else if cli == "ollama" then 4 else 5
  }

  /** Python's order on strings. */
  predicate TextLeq(a: string, b: string) {
    a == "" || (b != "" && (a[0] < b[0] || (a[0] == b[0] && TextLeq(a[1..], b[1..]))))
  }

  predicate Before(a: Entry, b: Entry) {
    || Tier(a.seat) < Tier(b.seat)
    || (Tier(a.seat) == Tier(b.seat) && CliRank(a.seat.cli) < CliRank(b.seat.cli))
    || (Tier(a.seat) == Tier(b.seat) && CliRank(a.seat.cli) == CliRank(b.seat.cli) && TextLeq(a.name, b.name))
  }

  function Insert(e: Entry, es: seq<Entry>): seq<Entry> {
    if es == [] then [e] else if Before(e, es[0]) then [e] + es else [es[0]] + Insert(e, es[1..])
  }

  function Sorted(es: seq<Entry>): seq<Entry> {
    if es == [] then [] else Insert(es[0], Sorted(es[1..]))
  }

  // ---- the resolver ----------------------------------------------------------------------------

  datatype Result = Result(chosen: Option<Entry>, degraded: bool, evaluations: seq<Evaluation>, others: seq<Entry>)

  function Resolved(env: Env, seats: seq<Entry>, role: seq<Candidate>): Result {
    var matched := RoleSeats(env, seats, role);
    var evaluations, eligible := Evaluations(env, matched), FitOnes(env, matched);
    if eligible != [] then Result(Some(eligible[0]), false, evaluations, eligible[1..])
    else if !env.allowFallback then Result(None, false, evaluations, [])
    else
      var (evs, found) := Scan(env, seats, evaluations);
      var order := Sorted(found);
      if order == [] then Result(None, true, evs, []) else Result(Some(order[0]), true, evs, order[1..])
  }

  method Resolve(env: Env, seats: seq<Entry>, role: seq<Candidate>) returns (r: Result)
    ensures r == Resolved(env, seats, role)
  {
    var evaluations, eligible := EvaluateRole(env, seats, role);
    if eligible != [] {
      return Result(Some(eligible[0]), false, evaluations, eligible[1..]);
    }
    if !env.allowFallback {
      return Result(None, false, evaluations, []);
    }
    var found;
    evaluations, found := ScanHost(env, seats, evaluations);
    var order := Sorted(found);
    if order == [] { return Result(None, true, evaluations, []); }
    return Result(Some(order[0]), true, evaluations, order[1..]);
  }

  // ---- order on entries ------------------------------------------------------------------------

  lemma {:induction false} TextTotal(a: string, b: string)
    ensures TextLeq(a, b) || TextLeq(b, a)
    ensures TextLeq(a, b) && TextLeq(b, a) ==> a == b
  {
    if a != "" && b != "" && a[0] == b[0] {
      TextTotal(a[1..], b[1..]);
      if a[1..] == b[1..] { assert a == [a[0]] + a[1..] && b == [b[0]] + b[1..]; }
    }
  }

  lemma {:induction false} TextTransitive(a: string, b: string, c: string)
    requires TextLeq(a, b) && TextLeq(b, c)
    ensures TextLeq(a, c)
  {
    if a != "" && a[0] == b[0] && b[0] == c[0] { TextTransitive(a[1..], b[1..], c[1..]); }
  }

  lemma BeforeTotal(a: Entry, b: Entry)
    ensures Before(a, b) || Before(b, a)
    ensures Before(a, b) && Before(b, a) ==> a.name == b.name
  {
    TextTotal(a.name, b.name);
  }

  lemma BeforeTransitive(a: Entry, b: Entry, c: Entry)
    requires Before(a, b) && Before(b, c)
    ensures Before(a, c)
  {
    if TextLeq(a.name, b.name) && TextLeq(b.name, c.name) { TextTransitive(a.name, b.name, c.name); }
  }

  predicate InOrder(es: seq<Entry>) {
    es == [] || ((forall e | e in es[1..] :: Before(es[0], e)) && InOrder(es[1..]))
  }

  lemma {:induction false} InsertBag(e: Entry, es: seq<Entry>)
    ensures multiset(Insert(e, es)) == multiset(es) + multiset{e}
    decreases |es|
  {
    if es != [] && !Before(e, es[0]) {
      InsertBag(e, es[1..]);
      assert es == [es[0]] + es[1..];
    }
  }

  lemma {:induction false} InsertKeeps(e: Entry, es: seq<Entry>)
    requires InOrder(es)
    ensures InOrder(Insert(e, es))
    decreases |es|
  {
    if es == [] {
    } else if Before(e, es[0]) {
      forall x | x in es ensures Before(e, x) { if x != es[0] { assert x in es[1..]; BeforeTransitive(e, es[0], x); } }
    } else {
      InsertKeeps(e, es[1..]);
      BeforeTotal(e, es[0]);
      var more := Insert(e, es[1..]);
      InsertBag(e, es[1..]);
      forall x | x in more ensures Before(es[0], x) {
        assert x in multiset(more);
        if x != e { assert x in multiset(es[1..]); }
      }
    }
  }

  lemma InBag(x: Entry, a: seq<Entry>, b: seq<Entry>)
    requires multiset(a) == multiset(b)
    ensures x in a <==> x in b
  {
    assert x in a <==> x in multiset(a);
    assert x in b <==> x in multiset(b);
  }

  lemma {:induction false} SortedSorts(es: seq<Entry>)
    ensures InOrder(Sorted(es)) && multiset(Sorted(es)) == multiset(es)
    decreases |es|
  {
    if es != [] {
      SortedSorts(es[1..]);
      InsertKeeps(es[0], Sorted(es[1..]));
      InsertBag(es[0], Sorted(es[1..]));
      assert es == [es[0]] + es[1..];
    }
  }

  // ---- what the phases find ----------------------------------------------------------------------

  lemma {:induction false} MatchedHolds(env: Env, seats: seq<Entry>, c: Candidate, e: Entry)
    ensures e in Matched(env, seats, c) <==> e in seats && Matches(env, e.seat, c)
  {
    if seats != [] {
      MatchedHolds(env, seats[..|seats| - 1], c, e);
      assert seats == seats[..|seats| - 1] + [seats[|seats| - 1]];
    }
  }

  lemma {:induction false} RoleSeatsHold(env: Env, seats: seq<Entry>, role: seq<Candidate>, e: Entry)
    ensures e in RoleSeats(env, seats, role) <==> e in seats && exists c | c in role :: Matches(env, e.seat, c)
  {
    if role != [] {
      var more, last := role[..|role| - 1], role[|role| - 1];
      RoleSeatsHold(env, seats, more, e);
      MatchedHolds(env, seats, last, e);
      assert role == more + [last] && last in role;
      assert forall c | c in more :: c in role;
    }
  }

  lemma {:induction false} FitOnesHold(env: Env, es: seq<Entry>, e: Entry)
    ensures e in FitOnes(env, es) <==> e in es && Fit(env, e)
  {
    if es != [] {
      FitOnesHold(env, es[..|es| - 1], e);
      assert es == es[..|es| - 1] + [es[|es| - 1]];
    }
  }

  /** The first fit one comes first. */
  lemma {:induction false} FirstFit(env: Env, es: seq<Entry>) returns (k: nat)
    requires FitOnes(env, es) != []
    ensures k < |es| && FitOnes(env, es)[0] == es[k] && Fit(env, es[k]) && forall i | 0 <= i < k :: !Fit(env, es[i])
  {
    var more := es[..|es| - 1];
    if FitOnes(env, more) != [] {
      k := FirstFit(env, more);
    } else {
      k := |es| - 1;
      forall i | 0 <= i < k ensures !Fit(env, es[i]) {
        assert es[i] in more;
        FitOnesHold(env, more, es[i]);
      }
    }
  }

  predicate NamesDiffer(seats: seq<Entry>) {
    forall i, j | 0 <= i < j < |seats| :: seats[i].name != seats[j].name
  }

  /** The record of a seat is the truth about it. */
  ghost predicate Truthful(env: Env, seats: seq<Entry>, evaluations: seq<Evaluation>) {
    forall i | 0 <= i < |evaluations| ::
      exists e | e in seats :: evaluations[i] == Evaluation(e.name, Broken(env, e))
  }

  lemma {:induction false} EvaluationsTruthful(env: Env, seats: seq<Entry>, es: seq<Entry>)
    requires forall e | e in es :: e in seats
    ensures Truthful(env, seats, Evaluations(env, es))
  {
    if es != [] {
      var more := es[..|es| - 1];
      assert forall e | e in more :: e in es;
      EvaluationsTruthful(env, seats, more);
      assert es[|es| - 1] in seats;
    }
  }

  /** The host scan finds every fit seat, and only those, and its record stays true. */
  lemma {:induction false} ScanFinds(env: Env, seats: seq<Entry>, n: nat, before: seq<Evaluation>, e: Entry)
    requires NamesDiffer(seats) && n <= |seats| && Truthful(env, seats, before)
    ensures Truthful(env, seats, Scan(env, seats[..n], before).0)
    ensures e in Scan(env, seats[..n], before).1 <==> e in seats[..n] && Fit(env, e)
    decreases n
  {
    if n > 0 {
      assert seats[..n][..n - 1] == seats[..n - 1] && seats[..n] == seats[..n - 1] + [seats[n - 1]];
      ScanFinds(env, seats, n - 1, before, e);
      var (evs, found) := Scan(env, seats[..n - 1], before);
      assert Scan(env, seats[..n], before) == ScanOne(env, seats[n - 1], evs, found);
      ScanOneFinds(env, seats, seats[n - 1], evs, found, e);
    }
  }

  /** One seat: it is found exactly when it is fit, for a record that is true of it rejects no fit seat. */
  lemma ScanOneFinds(env: Env, seats: seq<Entry>, seat: Entry, evs: seq<Evaluation>, found: seq<Entry>, e: Entry)
    requires NamesDiffer(seats) && seat in seats && Truthful(env, seats, evs)
    ensures Truthful(env, seats, ScanOne(env, seat, evs, found).0)
    ensures e in ScanOne(env, seat, evs, found).1 <==> e in found || (e == seat && Fit(env, e))
  {
    if Rejected(evs, seat.name) {
      var i :| 0 <= i < |evs| && evs[i].name == seat.name && evs[i].broken.Some?;
      var x :| x in seats && evs[i] == Evaluation(x.name, Broken(env, x));
      assert x == seat;
    }
  }

  // ---- the guarantees -----------------------------------------------------------------------------

  /** Some seat of the role's candidates meets all rules. */
  ghost predicate RoleServed(env: Env, seats: seq<Entry>, role: seq<Candidate>) {
    exists e | e in seats :: MeetsRules(env, e) && exists c | c in role :: Matches(env, e.seat, c)
  }

  lemma RoleServedIsFound(env: Env, seats: seq<Entry>, role: seq<Candidate>)
    ensures FitOnes(env, RoleSeats(env, seats, role)) != [] <==> RoleServed(env, seats, role)
  {
    var matched := RoleSeats(env, seats, role);
    var found := FitOnes(env, matched);
    if found != [] {
      FitOnesHold(env, matched, found[0]);
      FitMeetsRules(env, found[0]);
      RoleSeatsHold(env, seats, role, found[0]);
    }
    if RoleServed(env, seats, role) {
      var e :| e in seats && MeetsRules(env, e) && exists c | c in role :: Matches(env, e.seat, c);
      FitMeetsRules(env, e);
      RoleSeatsHold(env, seats, role, e);
      FitOnesHold(env, matched, e);
    }
  }

  /** A chosen seat exists and meets every rule; the record of every seat looked at is the truth. */
  lemma ChosenIsFit(env: Env, seats: seq<Entry>, role: seq<Candidate>)
    requires NamesDiffer(seats)
    ensures var r := Resolved(env, seats, role);
            && (r.chosen.Some? ==> r.chosen.value in seats && MeetsRules(env, r.chosen.value))
            && Truthful(env, seats, r.evaluations)
  {
    var matched := RoleSeats(env, seats, role);
    forall e | e in matched ensures e in seats { RoleSeatsHold(env, seats, role, e); }
    EvaluationsTruthful(env, seats, matched);
    var eligible := FitOnes(env, matched);
    if Resolved(env, seats, role).chosen.Some? { FitMeetsRules(env, Resolved(env, seats, role).chosen.value); }
    if eligible != [] {
      FitOnesHold(env, matched, eligible[0]);
    } else if env.allowFallback {
      assert seats[..|seats|] == seats;
      var (evs, found) := Scan(env, seats, Evaluations(env, matched));
      SortedSorts(found);
      if Sorted(found) != [] {
        InBag(Sorted(found)[0], Sorted(found), found);
        ScanFinds(env, seats, |seats|, Evaluations(env, matched), Sorted(found)[0]);
      } else {
        var any := Entry("", Seat("", "", false, "", false, None, None));
        ScanFinds(env, seats, |seats|, Evaluations(env, matched), any);
      }
    }
  }

  /** When a seat is chosen: with fallback, exactly when some seat meets all rules; without, exactly when
      one of the role's does. And it is degraded exactly when fallback was allowed and the role is not served. */
  lemma ChosenWhenever(env: Env, seats: seq<Entry>, role: seq<Candidate>)
    requires NamesDiffer(seats)
    ensures var r := Resolved(env, seats, role);
            && (r.degraded <==> env.allowFallback && !RoleServed(env, seats, role))
            && (r.chosen.Some? <==>
                  if env.allowFallback then exists e | e in seats :: MeetsRules(env, e)
                  else RoleServed(env, seats, role))
  {
    var r := Resolved(env, seats, role);
    RoleServedIsFound(env, seats, role);
    ChosenIsFit(env, seats, role);
    if r.degraded && exists e | e in seats :: MeetsRules(env, e) {
      var e :| e in seats && MeetsRules(env, e);
      FitMeetsRules(env, e);
      var matched := RoleSeats(env, seats, role);
      forall x | x in matched ensures x in seats { RoleSeatsHold(env, seats, role, x); }
      EvaluationsTruthful(env, seats, matched);
      assert seats[..|seats|] == seats;
      ScanFinds(env, seats, |seats|, Evaluations(env, matched), e);
      var found := Scan(env, seats, Evaluations(env, matched)).1;
      SortedSorts(found);
      InBag(e, Sorted(found), found);
    }
  }

  /** Without degradation the choice is the document's: no earlier candidate had a fit seat, and no seat
      declared earlier fits the same candidate. */
  lemma ChoiceFollowsTheDocument(env: Env, seats: seq<Entry>, role: seq<Candidate>) returns (k: nat)
    requires RoleServed(env, seats, role)
    ensures var matched := RoleSeats(env, seats, role);
            && k < |matched| && Resolved(env, seats, role).chosen == Some(matched[k])
            && forall i | 0 <= i < k :: !Fit(env, matched[i])
  {
    RoleServedIsFound(env, seats, role);
    k := FirstFit(env, RoleSeats(env, seats, role));
  }

  /** A degraded choice stands in front of every other fit seat. */
  lemma DegradedIsMinimal(env: Env, seats: seq<Entry>, role: seq<Candidate>, e: Entry)
    requires NamesDiffer(seats) && e in seats && Fit(env, e)
    requires Resolved(env, seats, role).degraded
    ensures Resolved(env, seats, role).chosen.Some? && Before(Resolved(env, seats, role).chosen.value, e)
  {
    var matched := RoleSeats(env, seats, role);
    forall x | x in matched ensures x in seats { RoleSeatsHold(env, seats, role, x); }
    EvaluationsTruthful(env, seats, matched);
    assert seats[..|seats|] == seats;
    ScanFinds(env, seats, |seats|, Evaluations(env, matched), e);
    var found := Scan(env, seats, Evaluations(env, matched)).1;
    var order := Sorted(found);
    SortedSorts(found);
    InBag(e, order, found);
    if e == order[0] { BeforeTotal(e, e); } else { assert e in order[1..]; }
  }

  /** The order in which the seats are declared does not matter for a degraded choice. */
  lemma OrderDoesNotMatter(env: Env, a: seq<Entry>, b: seq<Entry>, role: seq<Candidate>)
    requires NamesDiffer(a) && NamesDiffer(b) && (forall e :: e in a <==> e in b)
    requires Resolved(env, a, role).degraded
    ensures Resolved(env, b, role).degraded && Resolved(env, b, role).chosen == Resolved(env, a, role).chosen
  {
    ChosenWhenever(env, a, role);
    ChosenWhenever(env, b, role);
    assert RoleServed(env, a, role) <==> RoleServed(env, b, role);
    ChosenIsFit(env, a, role);
    ChosenIsFit(env, b, role);
    var x, y := Resolved(env, a, role).chosen, Resolved(env, b, role).chosen;
    if x.Some? {
      DegradedIsMinimal(env, b, role, x.value);
      DegradedIsMinimal(env, a, role, y.value);
      BeforeTotal(x.value, y.value);
      var i :| 0 <= i < |a| && a[i] == x.value;
      var j :| 0 <= j < |a| && a[j] == y.value;
      assert i == j;
    }
  }
}
