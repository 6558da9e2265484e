/** Commits, first-parent history and ancestry, as `stamp merge` sees them through git. */
module CommitGraph {
  import opened Results

  /** What the signed trailers of a commit say about it. */
  datatype Stamp = Stamp(version: nat, base: nat, head: nat, checks: seq<(string, int)>)

  /** Parents are named by position; a commit is younger than its parents. */
  datatype Commit = Commit(parents: seq<nat>, stamp: Option<Stamp>)

  predicate WellFormed(commits: seq<Commit>) {
    forall c, i :: 0 <= c < |commits| && 0 <= i < |commits[c].parents| ==> commits[c].parents[i] < c
  }

  /** `git merge-base --is-ancestor past tip`: `past` is `tip` or is reached from it by parents. */
  predicate Reaches(commits: seq<Commit>, tip: nat, past: nat)
    requires WellFormed(commits) && tip < |commits|
    decreases tip
  {
    tip == past || exists i | 0 <= i < |commits[tip].parents| :: Reaches(commits, commits[tip].parents[i], past)
  }

  lemma {:induction false} ReachesOlder(commits: seq<Commit>, tip: nat, past: nat)
    requires WellFormed(commits) && tip < |commits| && Reaches(commits, tip, past)
    ensures past <= tip
    decreases tip
  {
    if tip != past {
      var i :| 0 <= i < |commits[tip].parents| && Reaches(commits, commits[tip].parents[i], past);
      ReachesOlder(commits, commits[tip].parents[i], past);
    }
  }

  predicate Common(commits: seq<Commit>, c: nat, into: nat, head: nat)
    requires WellFormed(commits) && into < |commits| && head < |commits|
  {
    Reaches(commits, into, c) && Reaches(commits, head, c)
  }

  /** What `git merge-base into head` may answer: a common ancestor below no other common ancestor. */
  predicate MergeBase(commits: seq<Commit>, base: nat, into: nat, head: nat)
    requires WellFormed(commits) && into < |commits| && head < |commits|
  {
    && Common(commits, base, into, head)
    && forall c :: 0 <= c < |commits| && Common(commits, c, into, head) && Reaches(commits, c, base) ==> c == base
  }

  /** The branch is already contained in the target exactly when the merge base is the branch's tip. */
  lemma {:induction false} ContainedIffBaseIsHead(commits: seq<Commit>, base: nat, into: nat, head: nat)
    requires WellFormed(commits) && into < |commits| && head < |commits|
    requires MergeBase(commits, base, into, head)
    ensures Reaches(commits, into, head) <==> base == head
  {
    if Reaches(commits, into, head) {
      assert Common(commits, head, into, head);
    }
  }

  /** A commit added at the end changes nobody's ancestry. */
  lemma {:induction false} ReachesStable(commits: seq<Commit>, c: Commit, tip: nat, past: nat)
    requires WellFormed(commits) && WellFormed(commits + [c]) && tip < |commits|
    ensures Reaches(commits + [c], tip, past) <==> Reaches(commits, tip, past)
    decreases tip
  {
    var parents := commits[tip].parents;
    assert (commits + [c])[tip] == commits[tip];
    forall i | 0 <= i < |parents| ensures Reaches(commits + [c], parents[i], past) <==> Reaches(commits, parents[i], past) {
      ReachesStable(commits, c, parents[i], past);
    }
  }

  lemma CommonStable(commits: seq<Commit>, c: Commit, past: nat, into: nat, head: nat)
    requires WellFormed(commits) && WellFormed(commits + [c]) && into < |commits| && head < |commits|
    ensures Common(commits + [c], past, into, head) <==> Common(commits, past, into, head)
    ensures Common(commits, past, into, head) ==> past < |commits|
  {
    ReachesStable(commits, c, into, past);
    ReachesStable(commits, c, head, past);
    if Reaches(commits, into, past) {
      ReachesOlder(commits, into, past);
    }
  }

  /** Nor any merge base. */
  lemma MergeBaseStable(commits: seq<Commit>, c: Commit, base: nat, into: nat, head: nat)
    requires WellFormed(commits) && WellFormed(commits + [c]) && into < |commits| && head < |commits|
    requires MergeBase(commits, base, into, head)
    ensures MergeBase(commits + [c], base, into, head)
  {
    CommonStable(commits, c, base, into, head);
    forall x | 0 <= x < |commits + [c]| && Common(commits + [c], x, into, head) && Reaches(commits + [c], x, base)
      ensures x == base
    {
      CommonStable(commits, c, x, into, head);
      ReachesStable(commits, c, x, base);
    }
  }

  /**
   * `tip` is `start` with nothing but stamped merges on top, each stamped for its own second parent
   * and for the merge base of its parents.
   */
  predicate StampedSince(commits: seq<Commit>, start: nat, tip: nat)
    requires WellFormed(commits) && tip < |commits|
    decreases tip
  {
    tip == start
    || (StampedMerge(commits, tip) && StampedSince(commits, start, commits[tip].parents[0]))
  }

  predicate StampedMerge(commits: seq<Commit>, tip: nat)
    requires WellFormed(commits) && tip < |commits|
  {
    var c := commits[tip];
    && |c.parents| == 2 && c.stamp.Some? && c.stamp.value.head == c.parents[1]
    && MergeBase(commits, c.stamp.value.base, c.parents[0], c.parents[1])
  }

  lemma {:induction false} StampedSinceStable(commits: seq<Commit>, c: Commit, start: nat, tip: nat)
    requires WellFormed(commits) && WellFormed(commits + [c]) && tip < |commits|
    requires StampedSince(commits, start, tip)
    ensures StampedSince(commits + [c], start, tip)
    decreases tip
  {
    assert (commits + [c])[tip] == commits[tip];
    if tip != start {
      var x := commits[tip];
      MergeBaseStable(commits, c, x.stamp.value.base, x.parents[0], x.parents[1]);
      StampedSinceStable(commits, c, start, x.parents[0]);
    }
  }
}
