/** The guard's Git phase: inspect the clone, and bring it to a state an apply may run on. */
module GitGuard {
  import opened GitCommits
  import opened GitRepo
  import opened GitPublish
  import opened Options

  datatype State =
    | Fresh | LocalOnly | WrongBranch | Conflicted | Dirty | RemoteMissing | FetchFailed | AheadOf | BehindOf
    | DivergedFrom | Error

  predicate AllowsApply(s: State) {
    s.Fresh? || s.LocalOnly? || s.AheadOf? || s.BehindOf? || s.DivergedFrom?
  }

  /** What the commands of an inspection printed, once the remote's tip was fetched: the two tips and their
      merge base, as far as they could be read. */
  datatype Reading = NotAsked | Tips(local: Option<Commit>, there: Option<Commit>, base: Option<Commit>)

  /** The answers are true of the branch and of the tracking ref. */
  predicate Fits(r: Reading, local: Commit, there: Commit) {
    r.Tips? ==>
      && (r.local.Some? ==> r.local.value == local) && (r.there.Some? ==> r.there.value == there)
      && (r.base.Some? ==> IsMergeBase(r.base.value, local, there))
  }

  /** What the inspection makes of them: a tracking ref that cannot be read counts as one not pushed yet. */
  function Told(r: Reading): State
    requires r.Tips?
  {
    if r.local.None? then Error
    else if r.there.None? then AheadOf
    else if r.base.None? then Error
    else
      match Classify(r.local.value, r.there.value, r.base.value)
      case Same => Fresh
      case Behind => BehindOf
      case Ahead => AheadOf
      case Diverged => DivergedFrom
  }

  /** A verdict that lets the cycle go on is true of every branch and every remote that the answers fit,
      exactly when the tracking ref was read. */
  lemma GoingOnIsInformed(r: Reading)
    requires r.Tips? && AllowsApply(Told(r)) && (r.there.None? ==> r.base.None?)
    ensures (forall local, there | Fits(r, local, there) :: StateIs(Told(r), local, there)) <==> r.there.Some?
  {
    if r.there.Some? {
      forall local, there | Fits(r, local, there) ensures StateIs(Told(r), local, there) {
        ClassifyIsAncestry(local, there, r.base.value);
        if local in Anc(there) && there in Anc(local) { AncestryIsAntisymmetric(local, there); }
      }
    } else {
      var local := r.local.value;
      var there := Commit(0, {}, [local]);
      ParentsAreAncestors(there.parents, 0);
      assert local in Anc(there);
      assert there !in Anc(local) by {
        if there in Anc(local) { AncestryIsAntisymmetric(local, there); AncestorsAreLower(there, local); }
      }
      assert Fits(r, local, there);
      assert !StateIs(Told(r), local, there);
    }
  }

  method OperationOpen(repo: Repo) returns (open: bool)
    ensures open ==> repo.rebasing.Some? || repo.merging
  {
    var readable: bool := *;
    open := readable && (repo.rebasing.Some? || repo.merging);
  }

  /** What a state says of the branch and the remote's tip. */
  ghost predicate StateIs(state: State, local: Commit, there: Commit) {
    && (state.Fresh? <==> local == there)
    && (state.BehindOf? <==> local != there && local in Anc(there))
    && (state.AheadOf? <==> local != there && there in Anc(local))
    && (state.DivergedFrom? <==> local !in Anc(there) && there !in Anc(local))
  }

  method ReadTips(repo: Repo, remote: Remote) returns (state: State, ghost reading: Reading)
    requires remote in repo.tracking
    ensures reading.Tips? && state == Told(reading) && Fits(reading, repo.branchTip, repo.tracking[remote])
    ensures AllowsApply(state) && reading.there.Some? ==> StateIs(state, repo.branchTip, repo.tracking[remote])
  {
    var lh := repo.RevParseBranch();
    var rh := repo.RevParseTracking(remote);
    reading := Tips(lh, rh, None);
    if lh.None? { return Error, reading; }
    if rh.None? { return AheadOf, reading; }
    var mb := repo.MergeBase(remote);
    reading := Tips(lh, rh, mb);
    if mb.None? { return Error, reading; }
    ClassifyIsAncestry(lh.value, rh.value, mb.value);
    if lh.value in Anc(rh.value) && rh.value in Anc(lh.value) { AncestryIsAntisymmetric(lh.value, rh.value); }
    match Classify(lh.value, rh.value, mb.value)
    case Same => state := Fresh;
    case Behind => state := BehindOf;
    case Ahead => state := AheadOf;
    case Diverged => state := DivergedFrom;
  }

  /** The inspection moves nothing but the tracking ref. */
  method Inspect(repo: Repo, remote: Remote, allowOffline: bool) returns (state: State, ghost reading: Reading)
    modifies repo`tracking, repo`seen
    ensures IsLocalMode(remote) <==> state.LocalOnly?
    ensures AllowsApply(state) && !state.LocalOnly? ==> repo.head.OnBranch?
    ensures reading.Tips? ==>
              && remote in repo.tracking && remote in repo.seen && repo.seen[remote] == repo.tracking[remote]
              && state == Told(reading) && Fits(reading, repo.branchTip, repo.seen[remote])
    ensures AllowsApply(state) && reading.Tips? && reading.there.Some? ==>
              StateIs(state, repo.branchTip, repo.seen[remote])
    ensures AllowsApply(state) && reading.NotAsked? ==> state.LocalOnly? || (state.Fresh? && allowOffline)
    ensures state.Conflicted? ==> repo.rebasing.Some? || repo.merging
    ensures state.Dirty? ==> repo.dirty != {}
  {
    reading := NotAsked;
    if IsLocalMode(remote) { return LocalOnly, NotAsked; }
    var open := OperationOpen(repo);
    if open { return Conflicted, NotAsked; }
    var onBranch := repo.HeadIsOnBranch();
    if !onBranch { return WrongBranch, NotAsked; }
    var dirty, _ := UncommittedChanges(repo);
    if dirty != {} { return Dirty, NotAsked; }
    var configured: bool := *;
    if !configured { return if allowOffline then Fresh else RemoteMissing, NotAsked; }
    var fetched := repo.Fetch(remote);
    if !fetched { return if allowOffline then Fresh else FetchFailed, NotAsked; }
    state, reading := ReadTips(repo, remote);
  }

  /** A rebase, or else the local commits are parked. */
  method RealignDiverged(repo: Repo, remote: Remote) returns (ok: bool)
    requires repo.head.OnBranch?
    modifies repo
    ensures old(repo.RebaseDetached()) ==> old(repo.Held()) <= repo.Held() && repo.RebaseDetached()
    ensures ok ==> remote in repo.tracking && repo.tracking[remote] in Anc(repo.branchTip)
    ensures repo.moves == old(repo.moves) && repo.tracking == old(repo.tracking) && repo.seen == old(repo.seen)
  {
    ok := repo.Rebase(remote);
    if !ok {
      var _ := repo.RebaseAbort();
      ok := QuarantineDiverged(repo, remote);
    }
  }

  /** The phase: `stop` tells the cycle to end here. It never pushes; it keeps all work, also over somebody's
      interrupted rebase; and when the cycle goes on after the remote's tip was fetched and read, that tip is
      part of the branch. */
  method ConvergeGitPhase(repo: Repo, preflight: bool, remote: Remote, allowOffline: bool)
    returns (stop: bool, ghost reading: Reading)
    modifies repo
    ensures old(repo.RebaseDetached()) ==> old(repo.Held()) <= repo.Held() && repo.RebaseDetached()
    ensures repo.moves == old(repo.moves)
    ensures !stop && reading.Tips? && reading.there.Some? ==>
              remote in repo.seen && repo.seen[remote] in Anc(repo.branchTip)
    ensures !stop && reading.Tips? && reading.there.None? ==> Told(reading).AheadOf? && repo.head.OnBranch?
    ensures !stop && reading.NotAsked? ==> preflight || IsLocalMode(remote) || allowOffline
    ensures preflight ==> !stop && repo.Held() == old(repo.Held()) && repo.branchTip == old(repo.branchTip)
  {
    reading, stop := NotAsked, false;
    if preflight { return; }
    var _, _ := AutoCommitInfra(repo);
    var state;
    state, reading := Inspect(repo, remote, allowOffline);
    if !AllowsApply(state) { return true, reading; }
    if state.BehindOf? {
      var forwarded := repo.MergeFfOnly(remote);
      stop := !forwarded;
    } else if state.DivergedFrom? {
      var realigned := RealignDiverged(repo, remote);
      stop := !realigned;
    }
  }

  // ---- whole runs -----------------------------------------------------------------------

  datatype Call =
    | CallPublish(remote: Remote, mirrors: seq<Remote>, message: bool, files: set<string>, leak: bool)
    | CallGuard(preflight: bool, remote: Remote, allowOffline: bool)
    | CallQuarantine(remote: Remote)

  /** The calls that may abort a rebase somebody left open. */
  predicate MayAbort(call: Call) {
    call.CallPublish? && call.files == {} && !IsLocalMode(call.remote) && !call.leak
  }

  method Perform(repo: Repo, call: Call)
    modifies repo
    ensures old(repo.RebaseDetached()) ==> repo.RebaseDetached()
    ensures old(repo.RebaseDetached()) && (old(repo.rebasing).None? || !MayAbort(call)) ==>
              old(repo.Held()) <= repo.Held()
    ensures |old(repo.moves)| <= |repo.moves| && repo.moves[..|old(repo.moves)|] == old(repo.moves)
    ensures FastForwards(old(repo.moves)) ==> FastForwards(repo.moves)
  {
    match call
    case CallPublish(remote, mirrors, message, files, leak) =>
      var _ := Publish(repo, remote, mirrors, message, files, leak);
    case CallGuard(preflight, remote, allowOffline) =>
      var _, _ := ConvergeGitPhase(repo, preflight, remote, allowOffline);
    case CallQuarantine(remote) =>
      var _ := QuarantineDiverged(repo, remote);
  }

  /** Any sequence of publishes, guard phases and quarantines, whatever they leave behind. It ends early only
      in front of a publish that may abort a rebase that was left open, which is where the engine asks for a
      person.
      All work is still held, and every remote this clone ever moved, it moved forward. */
  method PerformAll(repo: Repo, calls: seq<Call>) returns (done: nat)
    requires repo.RebaseDetached()
    modifies repo
    ensures old(repo.Held()) <= repo.Held() && repo.RebaseDetached()
    ensures FastForwards(old(repo.moves)) ==> FastForwards(repo.moves)
    ensures done <= |calls| && (done < |calls| ==> repo.rebasing.Some? && MayAbort(calls[done]))
  {
    done := 0;
    while done < |calls| && (repo.rebasing.None? || !MayAbort(calls[done]))
      invariant done <= |calls|
      invariant old(repo.Held()) <= repo.Held() && repo.RebaseDetached()
      invariant FastForwards(old(repo.moves)) ==> FastForwards(repo.moves)
    {
      Perform(repo, calls[done]);
      done := done + 1;
    }
  }
}
