/** Commits as a finite DAG: a commit holds its parents, and is its content. Ancestry, the work a
    tip holds, and what `git merge-base` may answer. */
module GitCommits {

  /** One piece of tracked work: a change to one file. */
  datatype Change = Change(file: string, edit: nat)

  datatype Commit = Commit(id: nat, changes: set<Change>, parents: seq<Commit>)

  /** A commit and everything it descends from. */
  function Anc(c: Commit): (r: set<Commit>)
    ensures c in r
    decreases c
  {
    {c} + AncAll(c.parents)
  }

  function AncAll(cs: seq<Commit>): set<Commit>
    decreases cs
  {
    if cs == [] then {} else Anc(cs[0]) + AncAll(cs[1..])
  }

  /** The work reachable from a commit. */
  function Work(c: Commit): (r: set<Change>)
    ensures c.changes <= r
    decreases c
  {
    c.changes + WorkAll(c.parents)
  }

  function WorkAll(cs: seq<Commit>): set<Change>
    decreases cs
  {
    if cs == [] then {} else Work(cs[0]) + WorkAll(cs[1..])
  }

  lemma {:induction false} ParentsAreAncestors(cs: seq<Commit>, k: nat)
    requires k < |cs|
    ensures Anc(cs[k]) <= AncAll(cs) && Work(cs[k]) <= WorkAll(cs)
  {
    if k > 0 { ParentsAreAncestors(cs[1..], k - 1); }
  }

  /** Ancestors of ancestors are ancestors, and hold no more work. */
  lemma {:induction false} AncestryIsTransitive(a: Commit, b: Commit)
    requires a in Anc(b)
    ensures Anc(a) <= Anc(b) && Work(a) <= Work(b)
    decreases b
  {
    if a != b { AncestryInAll(a, b.parents); }
  }

  lemma {:induction false} AncestryInAll(a: Commit, cs: seq<Commit>)
    requires a in AncAll(cs)
    ensures Anc(a) <= AncAll(cs) && Work(a) <= WorkAll(cs)
    decreases cs
  {
    if a in Anc(cs[0]) { AncestryIsTransitive(a, cs[0]); } else { AncestryInAll(a, cs[1..]); }
  }

  /** How many generations lie below a commit. */
  function Height(c: Commit): nat
    decreases c
  {
    1 + HeightAll(c.parents)
  }

  function HeightAll(cs: seq<Commit>): nat
    decreases cs
  {
    if cs == [] then 0 else if Height(cs[0]) > HeightAll(cs[1..]) then Height(cs[0]) else HeightAll(cs[1..])
  }

  lemma {:induction false} AncestorsAreLower(a: Commit, b: Commit)
    requires a in Anc(b)
    ensures a == b || Height(a) < Height(b)
    decreases b
  {
    if a != b { AncestorsInAllAreLower(a, b.parents); }
  }

  lemma {:induction false} AncestorsInAllAreLower(a: Commit, cs: seq<Commit>)
    requires a in AncAll(cs)
    ensures Height(a) <= HeightAll(cs)
    decreases cs
  {
    if a in Anc(cs[0]) { AncestorsAreLower(a, cs[0]); } else { AncestorsInAllAreLower(a, cs[1..]); }
  }

  lemma AncestryIsAntisymmetric(a: Commit, b: Commit)
    requires a in Anc(b) && b in Anc(a)
    ensures a == b
  {
    AncestorsAreLower(a, b);
    AncestorsAreLower(b, a);
  }

  /** What `git merge-base a b` may print: a common ancestor below no other common ancestor. */
  predicate IsMergeBase(m: Commit, a: Commit, b: Commit) {
    && m in Anc(a) && m in Anc(b)
    && forall c | c in Anc(a) :: c in Anc(b) && m in Anc(c) ==> c == m
  }

  datatype Relation = Same | Behind | Ahead | Diverged

  /** The engine's test: compare the two tips, then the merge base with either. */
  function Classify(lh: Commit, rh: Commit, mb: Commit): Relation {
    if lh == rh then Same else if mb == lh then Behind else if mb == rh then Ahead else Diverged
  }

  /** Whatever merge base git answers, the test tells ancestry, in both directions. */
  lemma ClassifyIsAncestry(lh: Commit, rh: Commit, mb: Commit)
    requires IsMergeBase(mb, lh, rh)
    ensures Classify(lh, rh, mb) == Same <==> lh in Anc(rh) && rh in Anc(lh)
    ensures Classify(lh, rh, mb) == Behind <==> lh in Anc(rh) && rh !in Anc(lh)
    ensures Classify(lh, rh, mb) == Ahead <==> rh in Anc(lh) && lh !in Anc(rh)
    ensures Classify(lh, rh, mb) == Diverged <==> lh !in Anc(rh) && rh !in Anc(lh)
  {
  }

  /** Two tips with a common ancestor have a merge base: walk up while a common ancestor lies above. */
  lemma {:induction false} MergeBaseExists(a: Commit, b: Commit, m: Commit) returns (best: Commit)
    requires m in Anc(a) && m in Anc(b)
    ensures IsMergeBase(best, a, b)
    decreases Height(a) - Height(m)
  {
    if c :| c in Anc(a) && c in Anc(b) && m in Anc(c) && c != m {
      AncestorsAreLower(m, c);
      AncestorsAreLower(c, a);
      best := MergeBaseExists(a, b, c);
    } else {
      best := m;
    }
  }

  /** `git rev-list --count a..b`: what b has and a has not. */
  function OnlyIn(b: Commit, a: Commit): nat {
    |Anc(b) - Anc(a)|
  }

  lemma NothingUnique(a: Commit, b: Commit)
    ensures OnlyIn(b, a) == 0 <==> b in Anc(a)
  {
    if b in Anc(a) {
      AncestryIsTransitive(b, a);
      assert Anc(b) - Anc(a) == {};
    } else {
      assert b in Anc(b) - Anc(a);
    }
  }
}
