/** Publishing the vault: commit, reconcile with the remote, push, then the mirrors. The branching is the
    engine's; what each command does is GitRepo's. */
module GitPublish {
  import opened GitCommits
  import opened GitRepo
  import opened Options

  /** Why publishing ended; `notes` counts the mirrors that were not updated. */
  datatype Report =
    | AddFailed | StagedUnreadable | CommitFailed
    | LocalCommit | LocalNothing
    | EngineRemote | Unreachable | Unresolved
    | PushFailed | FastForwardFailed | MovedMeanwhile
    | PopFailedAfterRebase | PushFailedAfterRebase
    | AbortFailed | PopFailedAfterAbort | Parked | NotParked
    | Published(notes: nat) | Nothing(notes: nat)

  predicate Succeeded(r: Report) {
    r.LocalCommit? || r.LocalNothing? || r.Published? || r.Nothing?
  }

  predicate IsLocalMode(remote: Remote) {
    remote == "local" || remote == "none"
  }

  /** The work that stays in reach when an interrupted rebase is aborted. */
  ghost function KeptByAbort(repo: Repo): set<Change>
    requires repo.rebasing.Some?
    reads repo
  {
    Work(repo.branchTip) + HeadWork(repo.rebasing.value) + WorkAll(repo.quarantine) + Stashed(repo.stash)
  }

  /** The same, and the changes that are not committed yet. */
  ghost function KeptWithLoose(repo: Repo): set<Change>
    requires repo.rebasing.Some?
    reads repo
  {
    KeptByAbort(repo) + repo.dirty + repo.untracked
  }

  /** get_uncommitted_files: an unreadable status reads as clean. */
  method UncommittedChanges(repo: Repo) returns (r: set<Change>, ghost readable: bool)
    ensures r == if readable then repo.dirty else {}
  {
    var status := repo.Status();
    r, readable := if status.Some? then status.value else {}, status.Some?;
  }

  /** Commits what the infrastructure files hold, and nothing else. */
  method AutoCommitInfra(repo: Repo) returns (ok: bool, ghost readable: bool)
    modifies repo`branchTip, repo`head, repo`dirty, repo`staged, repo`untracked
    ensures old(repo.Held()) <= repo.Held()
    ensures old(repo.head).OnBranch? <==> repo.head.OnBranch?
    ensures old(repo.head).OnBranch? || repo.branchTip == old(repo.branchTip)
    ensures old(repo.dirty) == {} ==>
              repo.dirty == {} && repo.branchTip == old(repo.branchTip) && repo.head == old(repo.head)
    ensures ok && readable ==>
              forall c | c in old(repo.dirty) && repo.isInfra(c.file) :: c in Work(repo.HeadTip())
    ensures forall c | c in old(repo.dirty) && !repo.isInfra(c.file) :: c in repo.dirty
    ensures repo.rebasing.Some? ==>
              old(KeptByAbort(repo)) <= KeptByAbort(repo) && KeptWithLoose(repo) <= old(KeptWithLoose(repo))
  {
    var dirty;
    dirty, readable := UncommittedChanges(repo);
    var infra := set c | c in dirty && repo.isInfra(c.file);
    if infra == {} {
      assert readable ==> forall c | c in repo.dirty && repo.isInfra(c.file) :: c in infra;
      return true, readable;
    }
    var files := set c | c in infra :: c.file;
    assert forall f | f in files :: repo.isInfra(f);
    ok := repo.Add(files);
    if !ok { return; }
    var sel := set c | c in repo.dirty && c.file in files;
    assert readable ==> forall c | c in old(repo.dirty) && repo.isInfra(c.file) :: c in infra && c in sel;
    ok := repo.CommitChanges(sel);
  }

  /** Parks the branch's commits under a new name and takes the remote's. It refuses off the branch and
      over unsaved changes, and when it cannot tell. */
  method QuarantineDiverged(repo: Repo, remote: Remote) returns (ok: bool)
    modifies repo`branchTip, repo`head, repo`dirty, repo`staged, repo`quarantine
    ensures old(repo.Held()) <= repo.Held()
    ensures ok ==> old(repo.head).OnBranch? && remote in repo.tracking && repo.branchTip == repo.tracking[remote]
    ensures ok ==> repo.quarantine == [old(repo.branchTip)] + old(repo.quarantine)
    ensures repo.quarantine == old(repo.quarantine) || repo.quarantine == [old(repo.branchTip)] + old(repo.quarantine)
    ensures repo.branchTip == old(repo.branchTip)
         || (remote in repo.tracking && repo.branchTip == repo.tracking[remote])
    ensures repo.head == old(repo.head) && repo.dirty <= old(repo.dirty)
  {
    var onBranch := repo.HeadIsOnBranch();
    if !onBranch { return false; }
    var status := repo.Status();
    if status.None? || status.value != {} { return false; }
    var parked := repo.ParkHead();
    if !parked { return false; }
    ok := repo.ResetHard(remote);
  }

  /** What a caller with a message asks to commit: the files it names, or else what is staged. */
  predicate Requested(c: Change, files: set<string>, staged: set<Change>) {
    if files == {} then c in staged else c.file in files
  }

  method CommitRequested(repo: Repo, message: bool, files: set<string>)
    returns (failure: Option<Report>, committed: bool)
    modifies repo`branchTip, repo`head, repo`dirty, repo`staged, repo`untracked
    ensures old(repo.Held()) <= repo.Held()
    ensures old(repo.head).OnBranch? <==> repo.head.OnBranch?
    ensures failure.Some? ==> !Succeeded(failure.value)
    ensures failure.Some? ==> failure.value.AddFailed? || failure.value.StagedUnreadable? || failure.value.CommitFailed?
    ensures !message && old(repo.dirty) == {} ==>
              repo.dirty == {} && repo.branchTip == old(repo.branchTip) && repo.head == old(repo.head)
    ensures files != {} ==> forall c | c in old(repo.dirty) && c.file !in files :: c in repo.dirty
    ensures repo.rebasing.Some? ==>
              old(KeptByAbort(repo)) <= KeptByAbort(repo) && KeptWithLoose(repo) <= old(KeptWithLoose(repo))
    ensures failure.None? && message ==>
              forall c | c in old(repo.dirty) && Requested(c, files, old(repo.staged)) :: c in Work(repo.HeadTip())
  {
    failure, committed := None, false;
    if files == {} && !message {
      var _, _ := AutoCommitInfra(repo);
    }
    if message {
      if files != {} {
        var added := repo.Add(files);
        if !added { return Some(AddFailed), false; }
      }
      var readable: bool := *;
      if !readable { return Some(StagedUnreadable), false; }
      var staged := set c | c in repo.staged && (files == {} || c.file in files);
      assert forall c | c in repo.dirty && Requested(c, files, repo.staged) :: c in repo.staged ==> c in staged;
      if staged != {} {
        var sel := set c | c in repo.dirty && (if files == {} then c in repo.staged else c.file in files);
        var done := repo.CommitChanges(sel);
        if !done { return Some(CommitFailed), false; }
        committed := true;
      }
    }
  }

  ghost function TrackedWork(repo: Repo, remote: Remote): set<Change>
    reads repo
  {
    if remote in repo.tracking then Work(repo.tracking[remote]) else {}
  }

  /** The reports of the runs that aborted a rebase. */
  predicate Aborted(report: Report) {
    report.PopFailedAfterAbort? || report.Parked? || report.NotParked?
  }

  /** The runs that came to the abort; git may have aborted also when it reported failure. */
  predicate CameToAbort(report: Report) {
    Aborted(report) || report.AbortFailed?
  }

  /** What a publish keeps: all work, unless it came to abort a rebase that stood open; then still all but what
      only the interrupted HEAD held, and of that, when the abort is known to have happened, nothing else. */
  twostate predicate KeepsWork(repo: Repo, remote: Remote, report: Report)
    reads repo
  {
    && (old(repo.rebasing).None? || !CameToAbort(report) ==> old(repo.Held()) <= repo.Held())
    && (old(repo.rebasing).Some? ==> old(KeptByAbort(repo)) <= repo.Held())
    && (old(repo.rebasing).Some? && Aborted(report) ==>
          repo.Held() <= old(KeptWithLoose(repo)) + TrackedWork(repo, remote))
    && (old(repo.RebaseDetached()) ==> repo.RebaseDetached())
  }

  /** `told` says that both lists could be read, and that a push which reported failure did nothing. */
  method StashDirty(repo: Repo) returns (stashed: bool, ghost told: bool)
    modifies repo`stash, repo`dirty, repo`staged
    ensures old(repo.Held()) <= repo.Held() && repo.dirty <= old(repo.dirty)
    ensures Stashed(repo.stash) <= Stashed(old(repo.stash)) + old(repo.dirty)
    ensures repo.rebasing.Some? ==> old(KeptByAbort(repo)) <= KeptByAbort(repo)
    ensures old(repo.dirty) == {} ==> !stashed && repo.stash == old(repo.stash)
    ensures told && stashed ==> repo.stash == [old(repo.dirty)] + old(repo.stash)
    ensures told && !stashed ==> repo.stash == old(repo.stash)
  {
    stashed, told := false, true;
    var dirty, _ := UncommittedChanges(repo);
    if dirty != {} {
      var before, readBefore := repo.StashList();
      var pushed := repo.StashPush();
      var after, readAfter := repo.StashList();
      stashed := pushed && after != before;
      told := readBefore && readAfter && (pushed || repo.stash == old(repo.stash));
    }
  }

  /** Behind a rebase that failed: abort it, give the stash back, park the commits. */
  method GiveUpRebase(repo: Repo, remote: Remote, stashed: bool) returns (report: Report)
    modifies repo`branchTip, repo`head, repo`rebasing, repo`dirty, repo`staged, repo`stash, repo`quarantine
    ensures CameToAbort(report) && !Succeeded(report)
    ensures report.Parked? ==> remote in repo.tracking && repo.branchTip == repo.tracking[remote]
    ensures old(repo.rebasing).None? ==> report.AbortFailed? && old(repo.Held()) <= repo.Held()
    ensures old(repo.rebasing).Some? ==> old(KeptByAbort(repo)) <= repo.Held()
    ensures report.AbortFailed? && !stashed && repo.rebasing == old(repo.rebasing) ==> old(repo.Held()) <= repo.Held()
    ensures old(repo.rebasing).Some? && Aborted(report) ==>
              repo.Held() <= old(KeptByAbort(repo)) + TrackedWork(repo, remote)
    ensures old(repo.RebaseDetached()) ==> repo.RebaseDetached()
    ensures old(repo.rebasing).None? ==> repo.rebasing.None?
  {
    var aborted := repo.RebaseAbort();
    if !aborted {
      if stashed { var _ := repo.StashPop(); }
      return AbortFailed;
    }
    if stashed {
      var popped := repo.StashPop();
      if !popped { return PopFailedAfterAbort; }
    }
    var parked := QuarantineDiverged(repo, remote);
    report := if parked then Parked else NotParked;
  }

  /** The log grew by pushes to some of the remotes, every one a fast-forward. */
  ghost predicate Pushes(was: seq<Move>, now: seq<Move>, to: set<Remote>) {
    && |was| <= |now| && now[..|was|] == was
    && forall i | |was| <= i < |now| :: FastForward(now[i]) && now[i].remote in to
  }

  /** Behind a rebase that went through: give the stash back, push. */
  method PushRebased(repo: Repo, remote: Remote, stashed: bool) returns (report: Report)
    modifies repo`dirty, repo`staged, repo`stash, repo`tracking, repo`seen, repo`moves, repo`lost
    ensures old(repo.Held()) <= repo.Held()
    ensures Succeeded(report) ==> report == Published(0) && remote in repo.seen && repo.seen[remote] == repo.branchTip
    ensures report.PopFailedAfterRebase? || report.PushFailedAfterRebase? || report.Published?
    ensures Succeeded(report) && !stashed ==> repo.stash == old(repo.stash)
    ensures Succeeded(report) && stashed ==> old(repo.stash) != [] && repo.stash == old(repo.stash)[1..]
    ensures Pushes(old(repo.moves), repo.moves, {remote})
    ensures !Succeeded(report) && repo.moves != old(repo.moves) ==> repo.lost > old(repo.lost)
    ensures repo.lost >= old(repo.lost)
  {
    if stashed {
      var popped := repo.StashPop();
      if !popped { return PopFailedAfterRebase; }
    }
    var pushed := repo.Push(remote, false);
    report := if pushed then Published(0) else PushFailedAfterRebase;
  }

  /** The local commits are replayed on the remote's, or else parked. */
  method RebaseOrPark(repo: Repo, remote: Remote, stashed: bool) returns (report: Report)
    modifies repo
    ensures Succeeded(report) && !stashed ==> repo.stash == old(repo.stash)
    ensures Succeeded(report) && stashed ==> old(repo.stash) != [] && repo.stash == old(repo.stash)[1..]
    ensures KeepsWork(repo, remote, report)
    ensures Succeeded(report) ==> report == Published(0) && remote in repo.seen && repo.seen[remote] == repo.branchTip
    ensures Pushes(old(repo.moves), repo.moves, {remote})
    ensures !Succeeded(report) && repo.moves != old(repo.moves) ==> repo.lost > old(repo.lost)
    ensures repo.lost >= old(repo.lost)
    ensures old(repo.rebasing).Some? && Aborted(report) ==>
              repo.Held() <= old(KeptByAbort(repo)) + TrackedWork(repo, remote)
  {
    var rebased := repo.Rebase(remote);
    if rebased {
      report := PushRebased(repo, remote, stashed);
    } else {
      report := GiveUpRebase(repo, remote, stashed);
    }
  }

  /** Both sides have commits of their own: set unsaved changes aside, then replay or park. */
  method Reconcile(repo: Repo, remote: Remote) returns (report: Report, ghost told: bool)
    modifies repo
    // On success nothing stays behind in the stash.
    ensures Succeeded(report) && told ==> repo.stash == old(repo.stash)
    ensures KeepsWork(repo, remote, report)
    ensures Succeeded(report) ==> report == Published(0) && remote in repo.seen && repo.seen[remote] == repo.branchTip
    ensures Pushes(old(repo.moves), repo.moves, {remote})
    ensures !Succeeded(report) && repo.moves != old(repo.moves) ==> repo.lost > old(repo.lost)
    ensures repo.lost >= old(repo.lost)
  {
    var _, _ := AutoCommitInfra(repo);
    var stashed;
    stashed, told := StashDirty(repo);
    report := RebaseOrPark(repo, remote, stashed);
  }

  /** A caller that names its files did not authorize setting other work aside. */
  method MeetDiverged(repo: Repo, remote: Remote, files: set<string>) returns (report: Report)
    modifies repo
    ensures files != {} ==> unchanged(repo) && report == MovedMeanwhile && !CameToAbort(report)
    ensures KeepsWork(repo, remote, report)
    ensures Succeeded(report) ==> report == Published(0) && remote in repo.seen && repo.seen[remote] == repo.branchTip
    ensures Pushes(old(repo.moves), repo.moves, {remote})
    ensures !Succeeded(report) && repo.moves != old(repo.moves) ==> repo.lost > old(repo.lost)
    ensures repo.lost >= old(repo.lost)
  {
    if files != {} { return MovedMeanwhile; }
    ghost var told;
    report, told := Reconcile(repo, remote);
  }

  /** Fetches and compares the tips; None when something could not be read. */
  method CompareTips(repo: Repo, remote: Remote) returns (fetched: bool, r: Option<Relation>)
    modifies repo`tracking, repo`seen
    ensures repo.Held() == old(repo.Held()) && repo.RebaseDetached() == old(repo.RebaseDetached())
    ensures repo.rebasing.Some? ==> KeptByAbort(repo) == old(KeptByAbort(repo))
    ensures repo.rebasing.Some? ==> KeptWithLoose(repo) == old(KeptWithLoose(repo))
    ensures r.Some? ==> fetched && remote in repo.tracking && remote in repo.seen
    ensures r.Some? ==> repo.seen[remote] == repo.tracking[remote]
    ensures r.Some? ==> (r.value == Same <==> repo.branchTip == repo.seen[remote])
    ensures r.Some? ==>
              (r.value == Behind <==> repo.branchTip != repo.seen[remote] && repo.branchTip in Anc(repo.seen[remote]))
    ensures r.Some? ==>
              (r.value == Ahead <==> repo.branchTip != repo.seen[remote] && repo.seen[remote] in Anc(repo.branchTip))
  {
    r := None;
    fetched := repo.Fetch(remote);
    if !fetched { return; }
    var lh := repo.RevParseBranch();
    var rh := repo.RevParseTracking(remote);
    var mb := repo.MergeBase(remote);
    if lh.None? || rh.None? || mb.None? { return; }
    ClassifyIsAncestry(lh.value, rh.value, mb.value);
    if lh.value in Anc(rh.value) && rh.value in Anc(lh.value) { AncestryIsAntisymmetric(lh.value, rh.value); }
    r := Some(Classify(lh.value, rh.value, mb.value));
  }

  /** What the comparison calls for, once the remote's tip is known. */
  method BringTogether(repo: Repo, remote: Remote, relation: Relation, files: set<string>, committed: bool)
    returns (report: Report)
    requires remote in repo.tracking && remote in repo.seen && repo.seen[remote] == repo.tracking[remote]
    requires relation == Same <==> repo.branchTip == repo.seen[remote]
    requires relation == Behind ==>
               repo.branchTip in Anc(repo.seen[remote]) && repo.seen[remote] !in Anc(repo.branchTip)
    modifies repo
    ensures KeepsWork(repo, remote, report)
    ensures Succeeded(report) ==> remote in repo.seen && Aligned(repo, remote, old(repo.head))
    ensures Succeeded(report) ==> report == Published(0) || report == Nothing(0)
    ensures Pushes(old(repo.moves), repo.moves, {remote})
    ensures !Succeeded(report) && repo.moves != old(repo.moves) ==> repo.lost > old(repo.lost)
    ensures repo.lost >= old(repo.lost)
    ensures files != {} ==> repo.stash == old(repo.stash) && repo.quarantine == old(repo.quarantine)
    ensures files != {} ==> repo.dirty == old(repo.dirty) && repo.rebasing == old(repo.rebasing)
    ensures files != {} ==> !CameToAbort(report)
    ensures files != {} ==> Work(old(repo.HeadTip())) <= Work(repo.HeadTip())
  {
    match relation
    case Same =>
      report := if committed then Published(0) else Nothing(0);
    case Ahead =>
      var pushed := repo.Push(remote, false);
      report := if pushed then Published(0) else PushFailed;
    case Behind =>
      var forwarded := repo.MergeFfOnly(remote);
      report := if forwarded then Published(0) else FastForwardFailed;
    case Diverged =>
      report := MeetDiverged(repo, remote, files);
  }

  /** Brings the primary remote and the branch together. `committed` tells the verdict's wording only. */
  method PublishToPrimary(repo: Repo, remote: Remote, files: set<string>, committed: bool) returns (report: Report)
    modifies repo
    ensures KeepsWork(repo, remote, report)
    ensures Succeeded(report) ==> remote in repo.seen && Aligned(repo, remote, old(repo.head))
    ensures Succeeded(report) ==> report == Published(0) || report == Nothing(0)
    ensures Pushes(old(repo.moves), repo.moves, {remote})
    ensures !Succeeded(report) && repo.moves != old(repo.moves) ==> repo.lost > old(repo.lost)
    ensures repo.lost >= old(repo.lost)
    ensures files != {} ==> repo.stash == old(repo.stash) && repo.quarantine == old(repo.quarantine)
    ensures files != {} ==> repo.dirty == old(repo.dirty) && repo.rebasing == old(repo.rebasing)
    ensures files != {} ==> !CameToAbort(report)
    ensures files != {} ==> Work(old(repo.HeadTip())) <= Work(repo.HeadTip())
  {
    var fetched, relation := CompareTips(repo, remote);
    if !fetched { return Unreachable; }
    if relation.None? { return Unresolved; }
    report := BringTogether(repo, remote, relation.value, files, committed);
  }

  /** The remote holds the local branch; or HEAD stood elsewhere, and the remote is ahead of the branch. */
  ghost predicate Aligned(repo: Repo, remote: Remote, head: Head)
    requires remote in repo.seen
    reads repo
  {
    || repo.seen[remote] == repo.branchTip
    || (head.Elsewhere? && repo.branchTip in Anc(repo.seen[remote]))
  }

  /** One mirror: a plain push; when it fails, and the mirror has nothing of its own, a leased one. */
  method UpdateMirror(repo: Repo, mirror: Remote) returns (updated: bool)
    modifies repo`tracking, repo`seen, repo`moves, repo`lost
    ensures SameBut(old(repo.tracking), repo.tracking, mirror) && SameBut(old(repo.seen), repo.seen, mirror)
    ensures Pushes(old(repo.moves), repo.moves, {mirror})
    ensures updated ==> mirror in repo.seen && repo.seen[mirror] == repo.branchTip
    ensures repo.lost >= old(repo.lost)
  {
    updated := repo.Push(mirror, false);
    if updated { return; }
    var _ := repo.Fetch(mirror);
    var only := repo.CountOnlyThere(mirror);
    if only.None? || only.value > 0 { return; }
    NothingUnique(repo.branchTip, repo.tracking[mirror]);
    updated := repo.Push(mirror, true);
  }

  method UpdateMirrors(repo: Repo, remote: Remote, mirrors: seq<Remote>) returns (notes: nat)
    modifies repo`tracking, repo`seen, repo`moves, repo`lost
    ensures SeenStays(old(repo.seen), repo.seen, remote)
    ensures Pushes(old(repo.moves), repo.moves, (set m | m in mirrors) - {remote})
    ensures notes == 0 ==> forall m | m in mirrors && m != remote :: m in repo.seen && repo.seen[m] == repo.branchTip
  {
    notes := 0;
    var done: set<Remote> := {};
    var i := 0;
    while i < |mirrors|
      invariant i <= |mirrors|
      invariant done == (set m | m in mirrors[..i]) - {remote}
      invariant SeenStays(old(repo.seen), repo.seen, remote)
      invariant Pushes(old(repo.moves), repo.moves, done)
      invariant notes == 0 ==> forall m | m in done :: m in repo.seen && repo.seen[m] == repo.branchTip
    {
      var mirror := mirrors[i];
      assert mirrors[..i + 1] == mirrors[..i] + [mirror];
      i := i + 1;
      if mirror in done || mirror == remote { continue; }
      done := done + {mirror};
      ghost var was := repo.seen;
      var updated := UpdateMirror(repo, mirror);
      SeenElsewhere(was, repo.seen, mirror);
      assert SeenStays(was, repo.seen, remote);
      assert forall m | m in done && m != mirror :: SeenStays(was, repo.seen, m);
      if !updated { notes := notes + 1; }
    }
    assert mirrors[..i] == mirrors;
  }

  ghost predicate SeenStays(was: map<Remote, Commit>, now: map<Remote, Commit>, remote: Remote) {
    (remote in was <==> remote in now) && (remote in was ==> now[remote] == was[remote])
  }

  lemma SeenElsewhere(was: map<Remote, Commit>, now: map<Remote, Commit>, remote: Remote)
    requires SameBut(was, now, remote)
    ensures forall r | r != remote :: SeenStays(was, now, r)
  {
    forall r | r != remote ensures SeenStays(was, now, r) {
      assert r in was <==> r in was - {remote};
      assert r in now <==> r in now - {remote};
    }
  }

  /** The primary first; the mirrors only when that went well, and never at its expense. */
  method PublishCommitted(repo: Repo, remote: Remote, mirrors: seq<Remote>, files: set<string>, committed: bool)
    returns (report: Report)
    modifies repo
    ensures KeepsWork(repo, remote, report)
    ensures Succeeded(report) ==> remote in repo.seen && Aligned(repo, remote, old(repo.head))
    ensures !Succeeded(report) && repo.moves != old(repo.moves) ==> repo.lost > old(repo.lost)
    ensures Pushes(old(repo.moves), repo.moves, {remote} + set m | m in mirrors)
    ensures files != {} ==> repo.stash == old(repo.stash) && repo.quarantine == old(repo.quarantine)
    ensures files != {} ==> repo.dirty == old(repo.dirty) && Work(old(repo.HeadTip())) <= Work(repo.HeadTip())
    ensures files != {} ==> !CameToAbort(report)
    ensures report == Published(0) || report == Nothing(0) ==>
              forall m | m in mirrors && m != remote :: m in repo.seen && repo.seen[m] == repo.branchTip
  {
    report := PublishToPrimary(repo, remote, files, committed);
    if !Succeeded(report) { return; }
    ghost var moves := repo.moves;
    var notes := UpdateMirrors(repo, remote, mirrors);
    report := if committed || report.Published? then Published(notes) else Nothing(notes);
  }

  /** Commits the work and publishes it. `leak` says that a configured remote is the engine's own public
      repository, as far as the remotes could be listed. */
  method Publish(repo: Repo, remote: Remote, mirrors: seq<Remote>, message: bool, files: set<string>, leak: bool)
    returns (report: Report)
    modifies repo
    // No work is lost, unless the run came to abort somebody's interrupted rebase; then what only its HEAD
    // held is held no more, and all else is. Callers that name files, local mode and a leak do not come to it.
    ensures KeepsWork(repo, remote, report)
    ensures files != {} || IsLocalMode(remote) || leak ==> !CameToAbort(report)
    // Success: the remote holds the local branch; or HEAD stood elsewhere and the remote was ahead of it.
    ensures Succeeded(report) && !IsLocalMode(remote) ==>
              remote in repo.seen && Aligned(repo, remote, old(repo.head))
    // Failure: this call moved no remote, unless the answer to its push was lost.
    ensures !Succeeded(report) && repo.moves != old(repo.moves) ==> repo.lost > old(repo.lost)
    // Whatever it pushed went to a named remote and moved it forward.
    ensures Pushes(old(repo.moves), repo.moves, {remote} + set m | m in mirrors)
    ensures IsLocalMode(remote) || leak ==> repo.moves == old(repo.moves)
    // A caller that names its files has nothing else stashed, parked or committed.
    ensures files != {} ==> repo.stash == old(repo.stash) && repo.quarantine == old(repo.quarantine)
    ensures files != {} ==> forall c | c in old(repo.dirty) && c.file !in files :: c in repo.dirty
    // Success commits the files the caller names, and updates every mirror it does not note.
    ensures Succeeded(report) && message && files != {} ==>
              forall c | c in old(repo.dirty) && c.file in files :: c in Work(repo.HeadTip())
    ensures !IsLocalMode(remote) && (report == Published(0) || report == Nothing(0)) ==>
              forall m | m in mirrors && m != remote :: m in repo.seen && repo.seen[m] == repo.branchTip
  {
    var failure, committed := CommitRequested(repo, message, files);
    if failure.Some? { return failure.value; }
    if IsLocalMode(remote) { return if committed then LocalCommit else LocalNothing; }
    if leak { return EngineRemote; }
    report := PublishCommitted(repo, remote, mirrors, files, committed);
  }

  /** Somebody's rebase stands open with a commit of its own; the branch and the remote hold other work. Every
      run that gets as far as aborting the rebase drops that commit's work, unless the remote has it. */
  method LosesOverOpenRebase(inner: Commit, base: Commit, c: Change, remote: Remote)
    returns (repo: Repo, report: Report)
    requires c in Work(inner) && c !in Work(base)
    ensures fresh(repo)
    ensures Aborted(report) && c !in TrackedWork(repo, remote) ==> c !in repo.Held()
  {
    repo := new Repo(base, _ => false);
    repo.head, repo.rebasing := Elsewhere(inner), Some(OnBranch);
    assert repo.untracked == {};
    assert c in repo.Held() && c !in KeptWithLoose(repo);
    report := Publish(repo, remote, [], false, {}, false);
  }
}
