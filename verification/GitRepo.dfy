/** One clone of the vault, and what each git command may do to it. A command that reports success has
    had its effect. One that reports failure may have had none, or (killed late, or its answer lost)
    all of it. What a remote holds is arbitrary at every contact: other clones push whenever they like. */
module GitRepo {
  import opened GitCommits
  import opened Options

  type Remote = string

  /** HEAD is on the branch the engine works on, or somewhere else. */
  datatype Head = OnBranch | Elsewhere(tip: Commit)

  /** A push by this clone that moved a remote's branch. */
  datatype Move = Move(remote: Remote, was: Option<Commit>, now: Commit)

  predicate FastForward(m: Move) {
    m.was.Some? ==> m.was.value in Anc(m.now)
  }

  ghost predicate FastForwards(moves: seq<Move>) {
    forall i | 0 <= i < |moves| :: FastForward(moves[i])
  }

  ghost predicate OneMore(was: seq<Move>, now: seq<Move>, remote: Remote, tip: Commit) {
    |now| == |was| + 1 && now[..|was|] == was && now[|was|].remote == remote && now[|was|].now == tip
  }

  /** Two maps that agree away from one remote. */
  ghost predicate SameBut(a: map<Remote, Commit>, b: map<Remote, Commit>, remote: Remote) {
    a - {remote} == b - {remote}
  }

  function HeadWork(h: Head): set<Change> {
    if h.Elsewhere? then Work(h.tip) else {}
  }

  function Stashed(stash: seq<set<Change>>): set<Change> {
    if stash == [] then {} else stash[0] + Stashed(stash[1..])
  }

  class Repo {
    var branchTip: Commit
    var head: Head
    /** Where HEAD stood when a rebase that is still in progress began. */
    var rebasing: Option<Head>
    var merging: bool
    /** Newest first. */
    var quarantine: seq<Commit>
    var stash: seq<set<Change>>
    /** Tracked changes not committed; the staged ones among them; files git does not track. */
    var dirty: set<Change>
    var staged: set<Change>
    var untracked: set<Change>
    var tracking: map<Remote, Commit>
    /** What each remote held when it last answered. */
    ghost var seen: map<Remote, Commit>
    /** The pushes of this clone, oldest first, and how many of their answers were lost. */
    ghost var moves: seq<Move>
    ghost var lost: nat
    const isInfra: string -> bool

    constructor (tip: Commit, isInfra: string -> bool)
      ensures branchTip == tip && head == OnBranch && rebasing == None && quarantine == [] && stash == []
      ensures dirty == {} && staged == {} && untracked == {}
      ensures tracking == map[] && seen == map[] && moves == [] && lost == 0
      ensures this.isInfra == isInfra
    {
      branchTip, head, rebasing, merging, quarantine, stash := tip, OnBranch, None, false, [], [];
      dirty, staged, untracked, tracking, seen, moves, lost := {}, {}, {}, map[], map[], [], 0;
      this.isInfra := isInfra;
    }

    function HeadTip(): Commit
      reads this
    {
      if head.OnBranch? then branchTip else head.tip
    }

    /** All the work this clone holds: committed, parked, stashed, or in the working tree. */
    ghost function Held(): set<Change>
      reads this
    {
      Work(branchTip) + HeadWork(head) + (if rebasing.Some? then HeadWork(rebasing.value) else {})
      + WorkAll(quarantine) + Stashed(stash) + dirty
    }

    /** git works on a detached HEAD while it replays commits. */
    ghost predicate RebaseDetached()
      reads this
    {
      rebasing.Some? ==> head.Elsewhere?
    }

    // ---- looking -------------------------------------------------------------------

    /** `git status`: the tracked changes, or nothing readable. */
    method Status() returns (r: Option<set<Change>>)
      ensures r.Some? ==> r.value == dirty
    {
      var readable: bool := *;
      r := if readable then Some(dirty) else None;
    }

    /** `git symbolic-ref HEAD` reads and names the branch. */
    method HeadIsOnBranch() returns (yes: bool)
      ensures yes ==> head.OnBranch?
    {
      var readable: bool := *;
      yes := readable && head.OnBranch?;
    }

    method RevParseBranch() returns (r: Option<Commit>)
      ensures r.Some? ==> r.value == branchTip
    {
      var readable: bool := *;
      r := if readable then Some(branchTip) else None;
    }

    method RevParseTracking(remote: Remote) returns (r: Option<Commit>)
      ensures r.Some? ==> remote in tracking && r.value == tracking[remote]
    {
      var readable: bool := *;
      r := if readable && remote in tracking then Some(tracking[remote]) else None;
    }

    method MergeBase(remote: Remote) returns (r: Option<Commit>)
      ensures r.Some? ==> remote in tracking && IsMergeBase(r.value, branchTip, tracking[remote])
    {
      var readable: bool := *;
      r := None;
      if readable && remote in tracking {
        var common := Anc(branchTip) * Anc(tracking[remote]);
        if common != {} {
          ghost var c :| c in common;
          ghost var best := MergeBaseExists(branchTip, tracking[remote], c);
          var m :| m in Anc(branchTip) && IsMergeBase(m, branchTip, tracking[remote]);
          r := Some(m);
        }
      }
    }

    /** `git rev-list --count branch..remote/branch`. */
    method CountOnlyThere(remote: Remote) returns (r: Option<nat>)
      ensures r.Some? ==> remote in tracking && r.value == OnlyIn(tracking[remote], branchTip)
    {
      var readable: bool := *;
      r := if readable && remote in tracking then Some(OnlyIn(tracking[remote], branchTip)) else None;
    }

    /** `git stash list`; an unreadable list reads as empty. */
    method StashList() returns (r: seq<set<Change>>, ghost readable: bool)
      ensures r == if readable then stash else []
    {
      var answers: bool := *;
      r, readable := if answers then stash else [], answers;
    }

    // ---- the working tree and the branch --------------------------------------------------

    /** `git add`: changes of those files are staged, and new files become tracked. */
    method Add(files: set<string>) returns (ok: bool)
      modifies this`dirty, this`staged, this`untracked
      ensures old(dirty) <= dirty && old(Held()) <= Held()
      ensures forall c | c in dirty && c !in old(dirty) :: c.file in files
      ensures forall c | c in staged && c !in old(staged) :: c.file in files
      ensures dirty + untracked <= old(dirty) + old(untracked)
      ensures old(staged) <= staged && (ok ==> forall c | c in dirty && c.file in files :: c in staged)
    {
      ok := *;
      var done: bool := *;
      if ok || done {
        var added := set c | c in untracked && c.file in files;
        dirty, untracked := dirty + added, untracked - added;
        staged := staged + set c | c in dirty && c.file in files;
      }
    }

    /** `git commit` of some of the changes, on HEAD. */
    method CommitChanges(sel: set<Change>) returns (ok: bool)
      requires sel <= dirty
      modifies this`branchTip, this`head, this`dirty, this`staged
      ensures old(Held()) <= Held()
      ensures old(head).OnBranch? <==> head.OnBranch?
      ensures old(dirty) - sel <= dirty <= old(dirty)
      ensures HeadTip() == old(HeadTip()) || (HeadTip().parents == [old(HeadTip())] && HeadTip().changes == sel)
      ensures old(head).OnBranch? || branchTip == old(branchTip)
      ensures ok ==> sel <= Work(HeadTip())
      ensures old(Work(branchTip)) <= Work(branchTip) <= old(Work(branchTip)) + sel
    {
      ok := *;
      var done: bool := *;
      if ok || done {
        var id: nat := *;
        var tip := Commit(id, sel, [HeadTip()]);
        ParentsAreAncestors(tip.parents, 0);
        assert WorkAll(tip.parents) == Work(HeadTip()) + WorkAll(tip.parents[1..]) && tip.parents[1..] == [];
        if head.OnBranch? { branchTip := tip; } else { head := Elsewhere(tip); }
        dirty, staged := dirty - sel, staged - sel;
      }
    }

    /** `git merge --ff-only remote/branch`, on HEAD. */
    method MergeFfOnly(remote: Remote) returns (ok: bool)
      modifies this`branchTip, this`head
      ensures old(Held()) <= Held()
      ensures old(head).OnBranch? <==> head.OnBranch?
      ensures old(head).OnBranch? || branchTip == old(branchTip)
      ensures ok ==> remote in tracking && tracking[remote] in Anc(HeadTip())
      ensures HeadTip() == old(HeadTip())
           || (remote in tracking && HeadTip() == tracking[remote] && old(HeadTip()) in Anc(HeadTip()))
      ensures Work(old(HeadTip())) <= Work(HeadTip())
    {
      ok := *;
      var done: bool := *;
      if remote !in tracking {
        ok := false;
      } else if tracking[remote] in Anc(HeadTip()) {
        // Already up to date.
      } else if HeadTip() in Anc(tracking[remote]) {
        AncestryIsTransitive(HeadTip(), tracking[remote]);
        if ok || done {
          if head.OnBranch? { branchTip := tracking[remote]; } else { head := Elsewhere(tracking[remote]); }
        }
      } else {
        ok := false;
      }
    }

    /** `git reset --hard remote/branch`: HEAD's branch and the working tree become the remote's. */
    method ResetHard(remote: Remote) returns (ok: bool)
      modifies this`branchTip, this`head, this`dirty, this`staged
      ensures old(head).OnBranch? <==> head.OnBranch?
      ensures old(head).OnBranch? || branchTip == old(branchTip)
      ensures ok ==> remote in tracking && HeadTip() == tracking[remote] && dirty == {}
      ensures ok || (HeadTip() == old(HeadTip()) && dirty == old(dirty))
           || (remote in tracking && HeadTip() == tracking[remote] && dirty == {})
    {
      ok := *;
      var done: bool := *;
      if remote !in tracking {
        ok := false;
      } else if ok || done {
        if head.OnBranch? { branchTip := tracking[remote]; } else { head := Elsewhere(tracking[remote]); }
        dirty, staged := {}, {};
      }
    }

    /** `git branch <new name>` at HEAD; the name is unused. */
    method ParkHead() returns (ok: bool)
      modifies this`quarantine
      ensures quarantine == old(quarantine) || quarantine == [HeadTip()] + old(quarantine)
      ensures ok ==> quarantine == [HeadTip()] + old(quarantine)
    {
      ok := *;
      var done: bool := *;
      if ok || done { quarantine := [HeadTip()] + quarantine; }
    }

    /** `git stash push`; with nothing to save it succeeds and does nothing. */
    method StashPush() returns (ok: bool)
      modifies this`stash, this`dirty, this`staged
      ensures old(Held()) <= Held() && dirty <= old(dirty)
      ensures ok ==> dirty == {}
      ensures (stash == old(stash) && dirty == old(dirty)) || (stash == [old(dirty)] + old(stash) && dirty == {})
    {
      ok := *;
      var done: bool := *;
      if dirty != {} && (ok || done) {
        stash := [dirty] + stash;
        dirty, staged := {}, {};
      }
    }

    /** `git stash pop`; on a conflict the entry stays and the tree has part of it. */
    method StashPop() returns (ok: bool)
      modifies this`stash, this`dirty, this`staged
      ensures old(Held()) <= Held()
      ensures old(dirty) <= dirty <= old(dirty) + Stashed(old(stash))
      ensures Stashed(stash) <= Stashed(old(stash))
      ensures ok ==> old(stash) != [] && stash == old(stash)[1..] && dirty == old(dirty) + old(stash)[0]
    {
      ok := *;
      var done: bool := *;
      if stash == [] {
        ok := false;
      } else if ok || done {
        dirty, stash := dirty + stash[0], stash[1..];
        staged := {};
      } else {
        var part: set<Change> := *;
        dirty := dirty + (stash[0] * part);
      }
    }

    // ---- rebase ------------------------------------------------------------------------

    /** `git rebase remote/branch` of HEAD. It refuses over unsaved changes and inside another rebase. It
        either replays all the work on the remote's tip, or stops in a conflict with HEAD detached. */
    method Rebase(remote: Remote) returns (ok: bool)
      modifies this`branchTip, this`head, this`rebasing, this`dirty, this`staged
      ensures old(Held()) <= Held()
      ensures ok ==> remote in tracking && tracking[remote] in Anc(HeadTip())
      ensures ok ==> rebasing == old(rebasing) && dirty == {}
      ensures ok ==> (old(head).OnBranch? <==> head.OnBranch?)
      ensures rebasing == old(rebasing)
           || (old(rebasing).None? && rebasing == Some(old(head)) && branchTip == old(branchTip) && old(dirty) == {})
      ensures old(rebasing).Some? ==> !ok && branchTip == old(branchTip) && head == old(head) && dirty == old(dirty)
      ensures rebasing == old(rebasing) ==> dirty == old(dirty)
      ensures old(RebaseDetached()) ==> RebaseDetached()
    {
      ok := *;
      var done: bool, stops: bool := *, *;
      if remote !in tracking || dirty != {} || rebasing.Some? {
        ok := false;
        return;
      }
      var upstream := tracking[remote];
      var replayed: Commit := *;
      if (ok || done) && upstream in Anc(replayed) && Work(HeadTip()) <= Work(replayed) {
        if head.OnBranch? { branchTip := replayed; } else { head := Elsewhere(replayed); }
        return;
      }
      ok := false;
      if stops {
        rebasing, head := Some(head), Elsewhere(replayed);
        var conflict: set<Change> := *;
        dirty := conflict;
        staged := {};
      }
    }

    /** `git rebase --abort`: HEAD and the tree go back to where they were. */
    method RebaseAbort() returns (ok: bool)
      modifies this`head, this`rebasing, this`dirty, this`staged
      ensures ok ==> old(rebasing).Some? && rebasing.None? && head == old(rebasing).value && dirty == {}
      ensures old(RebaseDetached()) ==> RebaseDetached()
      ensures ok || (rebasing == old(rebasing) && head == old(head) && dirty == old(dirty))
           || (old(rebasing).Some? && rebasing.None? && head == old(rebasing).value && dirty == {})
    {
      ok := *;
      var done: bool := *;
      if rebasing.None? {
        ok := false;
      } else if ok || done {
        head, rebasing, dirty, staged := rebasing.value, None, {}, {};
      }
    }

    // ---- remotes --------------------------------------------------------------------------

    /** `git fetch --prune remote branch`. */
    method Fetch(remote: Remote) returns (ok: bool)
      modifies this`tracking, this`seen
      ensures ok ==> remote in tracking && remote in seen && seen[remote] == tracking[remote]
      ensures SameBut(old(tracking), tracking, remote) && SameBut(old(seen), seen, remote)
    {
      ok := *;
      var done: bool := *;
      var there: Option<Commit> := *;
      if !there.Some? {
        ok := false;
      } else if ok || done {
        tracking := tracking[remote := there.value];
        seen := seen[remote := there.value];
      }
    }

    /** `git push remote branch`: the server takes it only as a fast-forward. With a lease it takes
        anything, but only while it still holds what the tracking ref says. */
    method Push(remote: Remote, lease: bool) returns (ok: bool)
      modifies this`tracking, this`seen, this`moves, this`lost
      ensures ok ==> remote in seen && seen[remote] == branchTip
      ensures SameBut(old(tracking), tracking, remote) && SameBut(old(seen), seen, remote)
      ensures moves == old(moves)
           || (OneMore(old(moves), moves, remote, branchTip)
               && (if lease then remote in old(tracking) && moves[|moves| - 1].was == Some(old(tracking)[remote])
                   else FastForward(moves[|moves| - 1])))
      ensures !ok && moves != old(moves) ==> lost > old(lost)
      ensures lost >= old(lost)
    {
      var there: Option<Commit> := *;
      var reached: bool, answered: bool := *, *;
      var takes := if lease then remote in tracking && there == Some(tracking[remote])
                   else there.Some? ==> there.value in Anc(branchTip);
      if !reached || !takes { return false; }
      ghost var move := Move(remote, there, branchTip);
      if there != Some(branchTip) {
        moves := moves + [move];
      }
      if !answered {
        lost := lost + 1;
        return false;
      }
      tracking, seen := tracking[remote := branchTip], seen[remote := branchTip];
      return true;
    }
  }
}
