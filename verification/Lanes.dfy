/** The release lanes: `developer` takes development, `main` takes release merges of it. */
module Lanes {
  import opened GitCommits
  import opened Options

  type Refs = map<string, Commit>

  const INTEGRATION_REF := "developer"

  /** A local ref, or else the remote-tracking ref of that name. */
  function Resolve(refs: Refs, name: string): Option<Commit> {
    if name in refs then Some(refs[name])
    else if "origin/" + name in refs then Some(refs["origin/" + name])
    else None
  }

  /** `git log --first-parent previous..target`, newest first. */
  function FirstParents(target: Commit, previous: Commit): seq<Commit>
    decreases target
  {
    if target in Anc(previous) then []
    else [target] + (if target.parents == [] then [] else FirstParents(target.parents[0], previous))
  }

  predicate ReleaseMerge(c: Commit, integrated: Commit) {
    |c.parents| == 2 && c.parents[1] in Anc(integrated)
  }

  datatype Problem =
    | Unsupported | Unresolved(name: string) | NoFirstPushBase | NotADescendant | BehindMain
    | DirectCommit(c: Commit) | ForeignMerge(c: Commit)

  /** What the walk over main's new commits complains of. */
  function Problems(walk: seq<Commit>, integrated: Commit): seq<Problem> {
    if walk == [] then []
    else Problems(walk[..|walk| - 1], integrated) + ProblemOf(walk[|walk| - 1], integrated)
  }

  function ProblemOf(c: Commit, integrated: Commit): seq<Problem> {
    if |c.parents| != 2 then [DirectCommit(c)]
    else if c.parents[1] !in Anc(integrated) then [ForeignMerge(c)]
    else []
  }

  predicate AllReleases(walk: seq<Commit>, integrated: Commit) {
    forall c | c in walk :: ReleaseMerge(c, integrated)
  }

  lemma AllReleasesSplits(more: seq<Commit>, last: Commit, integrated: Commit)
    ensures AllReleases(more + [last], integrated) <==> AllReleases(more, integrated) && ReleaseMerge(last, integrated)
  {
  }

  lemma {:induction false} NoProblems(walk: seq<Commit>, integrated: Commit)
    ensures Problems(walk, integrated) == [] <==> AllReleases(walk, integrated)
  {
    if walk != [] {
      var more, last := walk[..|walk| - 1], walk[|walk| - 1];
      NoProblems(more, integrated);
      AllReleasesSplits(more, last, integrated);
      assert walk == more + [last];
      assert |Problems(walk, integrated)| == |Problems(more, integrated)| + |ProblemOf(last, integrated)|;
    }
  }

  /** The pusher's view: what is pushed, what was published there before, developer and main as published. */
  datatype Push = Push(ref: string, target: Commit, previous: Commit, published: Option<Commit>,
                       integrated: Option<Commit>)

  /** When a push is let through. */
  predicate Accepts(p: Push) {
    && p.previous in Anc(p.target)
    && (p.ref == INTEGRATION_REF ==> p.published.Some? && p.published.value in Anc(p.target))
    && (p.ref == "main" && p.target != p.previous ==>
          p.integrated.Some? && AllReleases(FirstParents(p.target, p.previous), p.integrated.value))
  }

  /** Where the check reads the push from: refs, and what the caller passes. An empty name counts as none. */
  function PreviousName(ref: string, base: Option<string>): string {
    if base.Some? && base.value != "" then base.value else "origin/" + ref
  }

  method CheckMerges(walk: seq<Commit>, integrated: Commit) returns (problems: seq<Problem>)
    ensures problems == Problems(walk, integrated)
  {
    problems := [];
    for i := 0 to |walk|
      invariant problems == Problems(walk[..i], integrated)
    {
      assert walk[..i + 1][..i] == walk[..i];
      if |walk[i].parents| != 2 {
        problems := problems + [DirectCommit(walk[i])];
      } else if walk[i].parents[1] !in Anc(integrated) {
        problems := problems + [ForeignMerge(walk[i])];
      }
    }
    assert walk[..|walk|] == walk;
  }

  /** The push as the refs show it, when every ref it needs resolves. */
  function Seen(refs: Refs, ref: string, tip: string, previous: string): Option<Push> {
    var target, was := Resolve(refs, tip), Resolve(refs, previous);
    if target.None? || was.None? then None
    else
      var published := Resolve(refs, "origin/main");
      Some(Push(ref, target.value, was.value, if published.Some? then published else Resolve(refs, "main"),
                Resolve(refs, INTEGRATION_REF)))
  }

  /** One use of the check: the repository it runs in, and its arguments. `newBranch` says that the base is
      the all-zero hash of a first push. */
  datatype Attempt = Attempt(refs: Refs, ref: string, tip: Option<string>, base: Option<string>, newBranch: bool,
                             firstPushBase: Option<string>)

  /** The push that the attempt is, when the check lets it through. */
  function Passed(a: Attempt): Option<Push> {
    var view := Seen(a.refs, a.ref, if a.tip.Some? && a.tip.value != "" then a.tip.value else a.ref,
                     PreviousName(a.ref, if a.newBranch then a.firstPushBase else a.base));
    if && (a.ref == "main" || a.ref == INTEGRATION_REF)
       && (a.newBranch ==> a.firstPushBase.Some?) && view.Some? && Accepts(view.value)
    then view else None
  }

  method CheckRef(refs: Refs, ref: string, tip: Option<string>, base: Option<string>, newBranch: bool,
                  firstPushBase: Option<string>)
    returns (ok: bool, problems: seq<Problem>)
    ensures ok <==> problems == []
    ensures ok <==> Passed(Attempt(refs, ref, tip, base, newBranch, firstPushBase)).Some?
  {
    if ref != "main" && ref != INTEGRATION_REF { return false, [Unsupported]; }
    var tipName := if tip.Some? && tip.value != "" then tip.value else ref;
    var target := Resolve(refs, tipName);
    if target.None? { return false, [Unresolved(tipName)]; }
    if newBranch && firstPushBase.None? { return false, [NoFirstPushBase]; }
    var baseName := PreviousName(ref, if newBranch then firstPushBase else base);
    var previous := Resolve(refs, baseName);
    if previous.None? { return false, [Unresolved(baseName)]; }
    if previous.value !in Anc(target.value) { return false, [NotADescendant]; }
    if ref == INTEGRATION_REF {
      var published := Resolve(refs, "origin/main");
      if published.None? { published := Resolve(refs, "main"); }
      if published.None? { return false, [Unresolved("main")]; }
      if published.value !in Anc(target.value) { return false, [BehindMain]; }
      return true, [];
    }
    if target == previous { return true, []; }
    var integrated := Resolve(refs, INTEGRATION_REF);
    if integrated.None? { return false, [Unresolved(INTEGRATION_REF)]; }
    var walk := FirstParents(target.value, previous.value);
    problems := CheckMerges(walk, integrated.value);
    NoProblems(walk, integrated.value);
    ok := problems == [];
  }

  // ---- all accepted pushes ------------------------------------------------------------------

  /** What is published, and where it came from: all tips main ever had, the developer tips that the checks
      of main's pushes resolved, and those of their bases that never were main's tip. */
  datatype Published = Published(main: Commit, developer: Commit, mains: set<Commit>, developers: set<Commit>,
                                 foreign: set<Commit>)

  function Start(main: Commit, developer: Commit): Published {
    Published(main, developer, {main}, {}, {})
  }

  function Moved(p: Published, push: Push): Published {
    p.(main := push.target, mains := p.mains + {push.target},
       developers := p.developers + (if push.integrated.Some? then {push.integrated.value} else {}),
       foreign := p.foreign + (if push.previous in p.mains then {} else {push.previous}))
  }

  /** Every pusher checks against the refs of its own clone; git then takes fast-forwards only. */
  function Step(p: Published, a: Attempt): Published {
    match Passed(a)
    case None => p
    case Some(push) =>
      if a.ref == "main" && p.main in Anc(push.target) then Moved(p, push)
      else if a.ref == INTEGRATION_REF && p.developer in Anc(push.target) then p.(developer := push.target)
      else p
  }

  function Run(p: Published, attempts: seq<Attempt>): Published
    decreases |attempts|
  {
    if attempts == [] then p else Run(Step(p, attempts[0]), attempts[1..])
  }

  /** The first-parent chain of a tip. */
  predicate OnChain(c: Commit, tip: Commit)
    decreases tip
  {
    c == tip || (tip.parents != [] && OnChain(c, tip.parents[0]))
  }

  predicate InAny(c: Commit, tips: set<Commit>) {
    exists t | t in tips :: c in Anc(t)
  }

  /** How a commit may have come to main. */
  predicate Legitimate(c: Commit, initial: Commit, p: Published, tip: Commit) {
    || c in Anc(initial) || InAny(c, p.developers) || InAny(c, p.foreign)
    || (|c.parents| == 2 && OnChain(c, tip))
  }

  ghost predicate TipIsClean(initial: Commit, p: Published, tip: Commit) {
    forall c | c in Anc(tip) :: Legitimate(c, initial, p, tip)
  }

  ghost predicate MainIsClean(initial: Commit, p: Published) {
    p.main in p.mains && forall m | m in p.mains :: TipIsClean(initial, p, m)
  }

  lemma {:induction false} AncestorsOfTwo(c: Commit)
    requires |c.parents| == 2
    ensures Anc(c) == {c} + Anc(c.parents[0]) + Anc(c.parents[1])
  {
    assert c.parents[1..][1..] == [];
    assert AncAll(c.parents) == Anc(c.parents[0]) + AncAll(c.parents[1..]);
    assert AncAll(c.parents[1..]) == Anc(c.parents[1]) + AncAll([]);
  }

  lemma {:induction false} ChainOnTop(c: Commit, lower: Commit, tip: Commit)
    requires OnChain(c, lower) && OnChain(lower, tip)
    ensures OnChain(c, tip)
    decreases tip
  {
    if lower != tip { ChainOnTop(c, lower, tip.parents[0]); }
  }

  /** Release merges on top of `previous`: every commit of the new tip is a walked merge, or was in
      `previous`, or is in developer. And either the chain still passes through `previous`, or all of
      `previous` is in developer. */
  lemma {:induction false} WalkExplains(target: Commit, previous: Commit, integrated: Commit)
    requires AllReleases(FirstParents(target, previous), integrated)
    ensures forall c | c in Anc(target) ::
              c in Anc(previous) || c in Anc(integrated) || (|c.parents| == 2 && OnChain(c, target))
    ensures previous in Anc(target) ==> OnChain(previous, target) || previous in Anc(integrated)
    decreases target
  {
    if target in Anc(previous) {
      AncestryIsTransitive(target, previous);
      if previous in Anc(target) { AncestryIsAntisymmetric(target, previous); }
    } else {
      assert target in FirstParents(target, previous);
      var first := target.parents[0];
      assert forall c | c in FirstParents(first, previous) :: c in FirstParents(target, previous);
      assert AllReleases(FirstParents(first, previous), integrated);
      WalkExplains(first, previous, integrated);
      AncestorsOfTwo(target);
      AncestryIsTransitive(target.parents[1], integrated);
    }
  }

  /** More sources excuse no less. */
  lemma StillClean(initial: Commit, p: Published, q: Published, tip: Commit)
    requires TipIsClean(initial, p, tip) && p.developers <= q.developers && p.foreign <= q.foreign
    ensures TipIsClean(initial, q, tip)
  {
    forall c | c in Anc(tip) ensures Legitimate(c, initial, q, tip) {
      assert Legitimate(c, initial, p, tip);
    }
  }

  /** What came with the base of an accepted push. */
  lemma BaseIsClean(initial: Commit, p: Published, push: Push, c: Commit)
    requires MainIsClean(initial, p) && push.previous in Anc(push.target) && c in Anc(push.previous)
    requires push.target == push.previous || push.integrated.Some?
    requires push.target != push.previous ==>
               AllReleases(FirstParents(push.target, push.previous), push.integrated.value)
    ensures Legitimate(c, initial, Moved(p, push), push.target)
  {
    var q := Moved(p, push);
    if push.previous !in p.mains {
      assert push.previous in q.foreign;
    } else {
      StillClean(initial, p, q, push.previous);
      assert Legitimate(c, initial, q, push.previous);
      if push.target != push.previous && OnChain(c, push.previous) {
        WalkExplains(push.target, push.previous, push.integrated.value);
        if OnChain(push.previous, push.target) {
          ChainOnTop(c, push.previous, push.target);
        } else {
          AncestryIsTransitive(push.previous, push.integrated.value);
          assert push.integrated.value in q.developers;
        }
      }
    }
  }

  /** An accepted push of main brings nothing else than its base, development and release merges. */
  lemma MainPushIsClean(initial: Commit, p: Published, a: Attempt)
    requires MainIsClean(initial, p) && Passed(a).Some? && a.ref == "main"
    ensures TipIsClean(initial, Moved(p, Passed(a).value), Passed(a).value.target)
  {
    var push := Passed(a).value;
    var q := Moved(p, push);
    forall c | c in Anc(push.target) ensures Legitimate(c, initial, q, push.target) {
      if c in Anc(push.previous) {
        BaseIsClean(initial, p, push, c);
      } else {
        WalkExplains(push.target, push.previous, push.integrated.value);
        assert push.integrated.value in q.developers;
      }
    }
  }

  lemma StepKeepsClean(initial: Commit, p: Published, a: Attempt)
    requires MainIsClean(initial, p)
    ensures MainIsClean(initial, Step(p, a))
    ensures p.main in Anc(Step(p, a).main) && p.developer in Anc(Step(p, a).developer)
  {
    var q := Step(p, a);
    if Passed(a).Some? && a.ref == "main" && q != p { MainPushIsClean(initial, p, a); }
    forall m | m in q.mains ensures TipIsClean(initial, q, m) {
      if m in p.mains { StillClean(initial, p, q, m); }
    }
  }

  /** After any pushes of any clones: main holds nothing but what it held first, what a pusher had as
      developer, what a pusher gave as a base that main never had, and release merges on main's own line;
      no branch lost a commit. */
  lemma {:induction false} MainStaysClean(initial: Commit, p: Published, attempts: seq<Attempt>)
    requires MainIsClean(initial, p)
    ensures MainIsClean(initial, Run(p, attempts))
    ensures p.developer in Anc(Run(p, attempts).developer) && p.main in Anc(Run(p, attempts).main)
    decreases |attempts|
  {
    if attempts != [] {
      var next := Step(p, attempts[0]);
      StepKeepsClean(initial, p, attempts[0]);
      MainStaysClean(initial, next, attempts[1..]);
      AncestryIsTransitive(next.developer, Run(p, attempts).developer);
      AncestryIsTransitive(next.main, Run(p, attempts).main);
    }
  }

  /** The check of a push of main worked with a tip that main had, and with published development. */
  predicate Informed(p: Published, a: Attempt) {
    Passed(a).Some? && a.ref == "main" ==>
      var push := Passed(a).value;
      push.previous in p.mains && (push.integrated.Some? ==> push.integrated.value in Anc(p.developer))
  }

  predicate AllInformed(p: Published, attempts: seq<Attempt>)
    decreases |attempts|
  {
    attempts == [] || (Informed(p, attempts[0]) && AllInformed(Step(p, attempts[0]), attempts[1..]))
  }

  ghost predicate FromPublished(p: Published) {
    p.foreign == {} && forall d | d in p.developers :: d in Anc(p.developer)
  }

  lemma {:induction false} InformedStaysPublished(p: Published, attempts: seq<Attempt>)
    requires FromPublished(p) && AllInformed(p, attempts)
    ensures FromPublished(Run(p, attempts))
    decreases |attempts|
  {
    if attempts != [] {
      var next := Step(p, attempts[0]);
      forall d | d in next.developers ensures d in Anc(next.developer) {
        if d in p.developers && next.developer != p.developer { AncestryIsTransitive(p.developer, next.developer); }
      }
      InformedStaysPublished(next, attempts[1..]);
    }
  }

  /** The release contract: every commit on main was there first, is in the published developer, or is a
      release merge on main's own line. */
  ghost predicate HonorsContract(initial: Commit, p: Published) {
    forall c | c in Anc(p.main) ::
      c in Anc(initial) || c in Anc(p.developer) || (|c.parents| == 2 && OnChain(c, p.main))
  }

  /** With informed checks the contract holds after every run. */
  lemma ReleaseLaneSafety(main: Commit, developer: Commit, attempts: seq<Attempt>)
    requires AllInformed(Start(main, developer), attempts)
    ensures HonorsContract(main, Run(Start(main, developer), attempts))
  {
    var p := Start(main, developer);
    var q := Run(p, attempts);
    assert TipIsClean(main, p, main);
    MainStaysClean(main, p, attempts);
    InformedStaysPublished(p, attempts);
    forall c | c in Anc(q.main)
      ensures c in Anc(main) || c in Anc(q.developer) || (|c.parents| == 2 && OnChain(c, q.main))
    {
      assert Legitimate(c, main, q, q.main);
      if d :| d in q.developers && c in Anc(d) { AncestryIsTransitive(d, q.developer); }
    }
  }

  /** An accepted push of developer keeps the published tip, the pusher's base, and every tip of main
      that the pusher's published main descends from. */
  lemma DeveloperKeepsUp(p: Published, a: Attempt, tip: Commit)
    requires Passed(a).Some? && a.ref == INTEGRATION_REF && Step(p, a) != p
    requires Passed(a).value.published.Some? ==> tip in Anc(Passed(a).value.published.value)
    ensures var next := Step(p, a).developer;
            p.developer in Anc(next) && Passed(a).value.previous in Anc(next) && tip in Anc(next)
  {
    AncestryIsTransitive(Passed(a).value.published.value, Step(p, a).developer);
  }

  // ---- why the contract needs informed checks -----------------------------------------------------

  function LocalRefs(developer: Commit, published: Commit, main: Commit, release: Commit): Refs {
    map["developer" := developer, "origin/developer" := published, "origin/main" := main, "main" := release]
  }

  /** A release of development that was never published is accepted. */
  lemma UnpublishedWorkIsReleased()
    ensures var m := Commit(0, {}, []);
            var x := Commit(1, {}, [m]);
            var release := Commit(2, {}, [m, x]);
            var a := Attempt(LocalRefs(x, m, m, release), "main", None, None, false, None);
            Passed(a).Some? && Step(Start(m, m), a).main == release && !HonorsContract(m, Step(Start(m, m), a))
  {
    var m := Commit(0, {}, []);
    var x := Commit(1, {}, [m]);
    var release := Commit(2, {}, [m, x]);
    var a := Attempt(LocalRefs(x, m, m, release), "main", None, None, false, None);
    AncestorsOfTwo(release);
    AncestorsOfOne(m, x);
    assert FirstParents(release, m) == [release] + FirstParents(m, m) == [release];
    assert ReleaseMerge(release, x);
    assert PreviousName("main", None) == "origin/main";
    assert Seen(a.refs, "main", "main", "origin/main") == Some(Push("main", release, m, Some(m), Some(x)));
    assert Passed(a) == Some(Push("main", release, m, Some(m), Some(x)));
    assert x in Anc(release) && x !in Anc(m) && !OnChain(x, release);
  }

  lemma AncestorsOfOne(m: Commit, x: Commit)
    requires m.parents == [] && x.parents == [m]
    ensures Anc(m) == {m} && Anc(x) == {x, m}
  {
    assert AncAll(x.parents) == Anc(m) + AncAll(x.parents[1..]) && x.parents[1..] == [];
    assert AncAll([]) == {};
  }

  /** A clone that has not fetched main may push a developer that is behind it. */
  lemma StaleMainIsEnough()
    ensures var m := Commit(0, {}, []);
            var release := Commit(1, {}, [m, m]);
            var x := Commit(2, {}, [m]);
            var a := Attempt(LocalRefs(x, m, m, m), INTEGRATION_REF, None, None, false, None);
            var p := Start(m, m).(main := release);
            Passed(a).Some? && Step(p, a).developer == x && p.main !in Anc(Step(p, a).developer)
  {
    var m := Commit(0, {}, []);
    var release := Commit(1, {}, [m, m]);
    var x := Commit(2, {}, [m]);
    var a := Attempt(LocalRefs(x, m, m, m), INTEGRATION_REF, None, None, false, None);
    AncestorsOfOne(m, x);
    assert PreviousName(INTEGRATION_REF, None) == "origin/developer";
    assert Seen(a.refs, INTEGRATION_REF, INTEGRATION_REF, "origin/developer")
        == Some(Push(INTEGRATION_REF, x, m, Some(m), Some(x)));
  }
}
