/** `stamp merge` by one process: src/commands/merge.ts over a repository object. */
module Merge {
  import opened Results
  import opened CommitGraph
  import opened LatestRows

  datatype Rule = Rule(required: seq<string>, checks: seq<string>, reviewServer: bool)

  type Config = map<string, Rule>

  datatype Row = Row(reviewer: string, verdict: string)

  /**
   * How the steps that call out turn out: loading the configuration before and after the merge,
   * git's answers, the two policy prompts, the signing key, the checks and the trailers.
   */
  datatype World = World(
    config: Option<Config>, resolves: bool, mergeBase: nat, rows: seq<Row>,
    attributionClean: bool, confirmed: bool, keyLoads: bool, merges: bool,
    mergedConfig: Option<Config>, exitCode: string -> int,
    trailersBuild: bool, amends: bool, revParses: bool, resets: bool)

  datatype Failure =
    | NoConfig | NotOnTarget | DirtyTree | Locked | Unresolved | NoRule | GateClosed | Attribution
    | Refused | NoKey | MergeFailed | NoMergedRule | ChecksFailed | NoTrailers | NotAmended | NoHead
    | RollbackFailed(original: Failure)

  function ReviewerOf(row: Row): string { row.reviewer }

  predicate Approved(rows: seq<Row>, reviewer: string) {
    reviewer in Latest(rows, ReviewerOf) && Latest(rows, ReviewerOf)[reviewer].verdict == "approved"
  }

  /** The last row that names the reviewer says approved. */
  ghost predicate LastSaysApproved(rows: seq<Row>, reviewer: string) {
    exists k :: 0 <= k < |rows| && rows[k].reviewer == reviewer && rows[k].verdict == "approved"
                && forall j :: k < j < |rows| ==> rows[j].reviewer != reviewer
  }

  /** Approval by the last row that names the reviewer. */
  lemma LastRowDecides(rows: seq<Row>, reviewer: string)
    ensures Approved(rows, reviewer) <==> LastSaysApproved(rows, reviewer)
  {
    LatestIsLast(rows, ReviewerOf, reviewer);
    if Approved(rows, reviewer) {
      var k: nat :| LastAt(rows, ReviewerOf, reviewer, k);
      assert forall j :: k < j < |rows| ==> ReviewerOf(rows[j]) != reviewer;
    }
    if LastSaysApproved(rows, reviewer) {
      var k :| 0 <= k < |rows| && rows[k].reviewer == reviewer && rows[k].verdict == "approved"
               && forall j :: k < j < |rows| ==> rows[j].reviewer != reviewer;
      assert LastAt(rows, ReviewerOf, reviewer, k);
    }
  }

  /** What must hold from the merge commit on: the merged tree's rule, its checks, the trailers. */
  ghost predicate Stamps(into: string, w: World) {
    && w.mergedConfig.Some? && into in w.mergedConfig.value
    && (forall i :: 0 <= i < |w.mergedConfig.value[into].checks| ==>
          w.exitCode(w.mergedConfig.value[into].checks[i]) == 0)
    && w.trailersBuild && w.amends && w.revParses
  }

  /** Everything that must hold for the merge to return normally. */
  ghost predicate Goes(into: string, branch: string, refs: map<string, nat>, head: string, dirty: bool,
      lock: Option<nat>, w: World)
  {
    && w.config.Some? && head == into && !dirty && lock.None?
    && w.resolves && branch in refs
    && into in w.config.value
    && (forall i :: 0 <= i < |w.config.value[into].required| ==> LastSaysApproved(w.rows, w.config.value[into].required[i]))
    && w.attributionClean && w.confirmed && w.keyLoads && w.merges && Stamps(into, w)
  }

  /** The failure names something that indeed does not hold. */
  ghost predicate Explains(f: Failure, into: string, branch: string, refs: map<string, nat>, head: string, dirty: bool,
      lock: Option<nat>, w: World)
  {
    match f
    case NoConfig => w.config.None?
    case NotOnTarget => head != into
    case DirtyTree => dirty
    case Locked => lock.Some?
    case Unresolved => !w.resolves || branch !in refs
    case NoRule => w.config.Some? && into !in w.config.value
    case GateClosed =>
      && w.config.Some? && into in w.config.value
      && exists i :: 0 <= i < |w.config.value[into].required| && !LastSaysApproved(w.rows, w.config.value[into].required[i])
    case Attribution => !w.attributionClean
    case Refused => !w.confirmed
    case NoKey => !w.keyLoads
    case MergeFailed => !w.merges
    case NoMergedRule => w.mergedConfig.None? || into !in w.mergedConfig.value
    case ChecksFailed =>
      && w.mergedConfig.Some? && into in w.mergedConfig.value
      && exists i :: 0 <= i < |w.mergedConfig.value[into].checks| && w.exitCode(w.mergedConfig.value[into].checks[i]) != 0
    case NoTrailers => !w.trailersBuild
    case NotAmended => !w.amends
    case NoHead => !w.revParses
    case RollbackFailed(original) => !w.resets && Explains(original, into, branch, refs, head, dirty, lock, w)
  }

  class Repo {
    var commits: seq<Commit>
    var refs: map<string, nat>
    var head: string          // the branch checked out
    var dirty: bool           // tracked files modified, or a merge left in conflict
    var lock: Option<nat>     // the process named in stamp/merge.lock

    predicate Valid()
      reads this
    {
      WellFormed(commits) && head in refs && forall b :: b in refs ==> refs[b] < |commits|
    }

    /** `git merge --no-ff`: a new commit, unless the branch is already contained. */
    method GitMerge(branch: string)
      requires Valid() && branch in refs
      modifies `commits, `refs
      ensures Valid()
      ensures Reaches(old(commits), old(refs)[head], old(refs)[branch]) ==>
                commits == old(commits) && refs == old(refs)
      ensures !Reaches(old(commits), old(refs)[head], old(refs)[branch]) ==>
                && commits == old(commits) + [Commit([old(refs)[head], old(refs)[branch]], None)]
                && refs == old(refs)[head := |old(commits)|]
    {
      if !Reaches(commits, refs[head], refs[branch]) {
        var tip := |commits|;
        commits := commits + [Commit([refs[head], refs[branch]], None)];
        refs := refs[head := tip];
      }
    }

    /** `git commit --amend -m`: a new commit in place of the tip, with the tip's parents. */
    method GitAmend(stamp: Stamp)
      requires Valid()
      modifies `commits, `refs
      ensures Valid()
      ensures commits == old(commits) + [Commit(old(commits)[old(refs)[head]].parents, Some(stamp))]
      ensures refs == old(refs)[head := |old(commits)|]
    {
      var tip := |commits|;
      commits := commits + [Commit(commits[refs[head]].parents, Some(stamp))];
      refs := refs[head := tip];
    }

    /** The checks run one after another; their results are attested in order. */
    method RunChecks(checks: seq<string>, exitCode: string -> int) returns (results: seq<(string, int)>, passed: bool)
      ensures |results| == |checks| && forall i :: 0 <= i < |checks| ==> results[i] == (checks[i], exitCode(checks[i]))
      ensures passed <==> forall i :: 0 <= i < |checks| ==> exitCode(checks[i]) == 0
    {
      results, passed := [], true;
      var i := 0;
      while i < |checks|
        invariant |results| == i <= |checks|
        invariant forall j :: 0 <= j < i ==> results[j] == (checks[j], exitCode(checks[j]))
        invariant passed <==> forall j :: 0 <= j < i ==> exitCode(checks[j]) == 0
      {
        var code := exitCode(checks[i]);
        results := results + [(checks[i], code)];
        passed := passed && code == 0;
        i := i + 1;
      }
    }

    /**
     * All or nothing. Whatever happens, the lock is as before and only the target branch can have
     * moved; every failure but a failed rollback leaves it where it was.
     */
    method RunMerge(pid: nat, into: string, branch: string, w: World) returns (r: Result<nat, Failure>)
      requires Valid()
      requires w.resolves && into in refs && branch in refs ==> MergeBase(commits, w.mergeBase, refs[into], refs[branch])
      modifies this
      ensures Valid() && lock == old(lock) && head == old(head)
      ensures old(commits) <= commits && (dirty <==> old(dirty) || r == Err(MergeFailed))
      ensures r.Err? ==> Explains(r.reason, into, branch, old(refs), old(head), old(dirty), old(lock), w)
      ensures r.Ok? <==> Goes(into, branch, old(refs), old(head), old(dirty), old(lock), w)
      ensures r.Err? && !r.reason.RollbackFailed? ==> refs == old(refs)
      ensures r.Err? && r.reason.RollbackFailed? ==>
                !w.resets && w.merges && head == into && refs == old(refs)[into := refs[into]]
      ensures r.Ok? ==> Merged(into, branch, old(commits), old(refs), w, commits, refs, r.value)
    {
      if w.config.None? {
        return Err(NoConfig);
      }
      if head != into {
        return Err(NotOnTarget);
      }
      if dirty {
        return Err(DirtyTree);
      }
      if lock.Some? {
        return Err(Locked);
      }
      lock := Some(pid);
      r := RunMergeLocked(into, branch, w, w.config.value);
      lock := None;
    }

    method RunMergeLocked(into: string, branch: string, w: World, config: Config)
      returns (r: Result<nat, Failure>)
      requires Valid() && head == into && !dirty
      requires w.resolves && branch in refs ==> MergeBase(commits, w.mergeBase, refs[into], refs[branch])
      requires w.config == Some(config)
      modifies `commits, `refs, `dirty
      ensures Valid() && old(commits) <= commits && (dirty <==> r == Err(MergeFailed))
      ensures r.Ok? <==> Goes(into, branch, old(refs), head, false, None, w)
      ensures r.Err? ==> Explains(r.reason, into, branch, old(refs), head, false, None, w)
      ensures r.Err? && !r.reason.RollbackFailed? ==> refs == old(refs)
      ensures r.Err? && r.reason.RollbackFailed? ==> !w.resets && w.merges && refs == old(refs)[into := refs[into]]
      ensures r.Ok? ==> Merged(into, branch, old(commits), old(refs), w, commits, refs, r.value)
    {
      if !w.resolves || branch !in refs {
        return Err(Unresolved);
      }
      var baseSha, headSha := w.mergeBase, refs[branch];
      if into !in config {
        return Err(NoRule);
      }
      var rule := config[into];
      forall name ensures Approved(w.rows, name) <==> LastSaysApproved(w.rows, name) {
        LastRowDecides(w.rows, name);
      }
      var i := 0;
      var missing := [];
      while i < |rule.required|
        invariant i <= |rule.required|
        invariant missing == [] <==> forall j :: 0 <= j < i ==> LastSaysApproved(w.rows, rule.required[j])
      {
        if !Approved(w.rows, rule.required[i]) {
          missing := missing + [rule.required[i]];
        }
        i := i + 1;
      }
      if missing != [] {
        return Err(GateClosed);
      }
      if !w.attributionClean {
        return Err(Attribution);
      }
      if !w.confirmed {
        return Err(Refused);
      }
      if !w.keyLoads {
        return Err(NoKey);
      }
      r := MergeOrRollBack(into, branch, baseSha, headSha, w, rule);
    }

    method MergeOrRollBack(into: string, branch: string, baseSha: nat, headSha: nat, w: World, rule: Rule)
      returns (r: Result<nat, Failure>)
      requires Valid() && head == into && branch in refs && headSha == refs[branch]
      requires MergeBase(commits, baseSha, refs[into], headSha)
      modifies `commits, `refs, `dirty
      ensures Valid() && old(commits) <= commits && (dirty <==> old(dirty) || r == Err(MergeFailed))
      ensures r.Ok? <==> w.merges && Stamps(into, w)
      ensures r.Err? ==> Explains(r.reason, into, branch, old(refs), head, false, None, w)
      ensures r.Err? && !r.reason.RollbackFailed? ==> refs == old(refs)
      ensures r.Err? && r.reason.RollbackFailed? ==> !w.resets && w.merges && refs == old(refs)[into := refs[into]]
      ensures r.Ok? ==> refs == old(refs)[into := r.value] && |old(commits)| <= r.value < |commits|
      ensures r.Ok? ==>
                commits[r.value].parents
                == if baseSha == headSha then old(commits)[old(refs)[into]].parents else [old(refs)[into], headSha]
      ensures r.Ok? ==> Records(commits[r.value].stamp, rule, baseSha, headSha, w.mergedConfig.value[into].checks)
    {
      var preMergeSha := refs[into];
      if !w.merges {
        dirty := true;
        return Err(MergeFailed);
      }
      GitMerge(branch);
      ContainedIffBaseIsHead(old(commits), baseSha, old(refs)[into], headSha);
      r := CheckAndStamp(into, baseSha, headSha, w, rule);
      assert refs == old(refs)[into := refs[into]];
      if r.Err? {
        if !w.resets {
          return Err(RollbackFailed(r.reason));
        }
        refs := refs[into := preMergeSha];
        assert refs == old(refs);
      }
    }

    /** From the merge commit to the stamped one, inside the `try` whose `catch` rolls back. */
    method CheckAndStamp(into: string, baseSha: nat, headSha: nat, w: World, rule: Rule)
      returns (r: Result<nat, Failure>)
      requires Valid() && head == into
      modifies `commits, `refs
      ensures Valid() && old(commits) <= commits && refs == old(refs)[into := refs[into]]
      ensures r.Ok? <==> Stamps(into, w)
      ensures r.Err? ==> !r.reason.RollbackFailed? && !r.reason.MergeFailed?
      ensures r.Err? ==> forall branch, refs :: Explains(r.reason, into, branch, refs, head, false, None, w)
      ensures r.Ok? ==> refs[into] == r.value == |old(commits)| < |commits|
      ensures r.Ok? ==> commits[r.value].parents == old(commits)[old(refs)[into]].parents
      ensures r.Ok? ==> Records(commits[r.value].stamp, rule, baseSha, headSha, w.mergedConfig.value[into].checks)
    {
      if w.mergedConfig.None? || into !in w.mergedConfig.value {
        return Err(NoMergedRule);
      }
      var attested, passed := RunChecks(w.mergedConfig.value[into].checks, w.exitCode);
      if !passed {
        return Err(ChecksFailed);
      }
      if !w.trailersBuild {
        return Err(NoTrailers);
      }
      var version := if rule.reviewServer then 4 else 3;
      if !w.amends {
        return Err(NotAmended);
      }
      GitAmend(Stamp(version, baseSha, headSha, attested));
      if !w.revParses {
        return Err(NoHead);
      }
      return Ok(refs[into]);
    }
  }

  /**
   * The stamp: version 4 exactly when the rule in force before the merge has a review server, else 3;
   * for this base and head; and each of the checks, in order, with exit code 0.
   */
  ghost predicate Records(stamp: Option<Stamp>, rule: Rule, base: nat, head: nat, checks: seq<string>) {
    && stamp.Some?
    && (rule.reviewServer ==> stamp.value.version == 4) && (!rule.reviewServer ==> stamp.value.version == 3)
    && stamp.value.base == base && stamp.value.head == head
    && |stamp.value.checks| == |checks|
    && forall i :: 0 <= i < |checks| ==> stamp.value.checks[i] == (checks[i], 0)
  }

  /**
   * A normal return: only the target moved, to a new stamped commit, signed for the merge base and
   * the branch's tip. It is a merge of the old tip and the branch exactly when the branch was not
   * already contained; otherwise it replaces the old tip.
   */
  ghost predicate Merged(into: string, branch: string, before: seq<Commit>, refsBefore: map<string, nat>, w: World,
      commits: seq<Commit>, refs: map<string, nat>, sha: nat)
    requires WellFormed(before) && into in refsBefore && branch in refsBefore
    requires refsBefore[into] < |before| && refsBefore[branch] < |before|
    requires w.config.Some? && into in w.config.value && w.mergedConfig.Some? && into in w.mergedConfig.value
  {
    var tip, other := refsBefore[into], refsBefore[branch];
    && refs == refsBefore[into := sha] && |before| <= sha < |commits|
    && Records(commits[sha].stamp, w.config.value[into], w.mergeBase, other, w.mergedConfig.value[into].checks)
    && commits[sha].parents == (if w.mergeBase == other then before[tip].parents else [tip, other])
  }

  /** On a branch already contained in the target, a successful merge drops the target's tip. */
  lemma {:induction false} ContainedBranchReplacesTip(into: string, branch: string, before: seq<Commit>, refsBefore: map<string, nat>,
      w: World, commits: seq<Commit>, refs: map<string, nat>, sha: nat)
    requires WellFormed(before) && into in refsBefore && branch in refsBefore
    requires refsBefore[into] < |before| && refsBefore[branch] < |before|
    requires w.config.Some? && into in w.config.value && w.mergedConfig.Some? && into in w.mergedConfig.value
    requires Merged(into, branch, before, refsBefore, w, commits, refs, sha)
    requires MergeBase(before, w.mergeBase, refsBefore[into], refsBefore[branch])
    requires WellFormed(commits) && before <= commits
    ensures commits[sha].parents == [refsBefore[into], refsBefore[branch]]
       <==> !Reaches(before, refsBefore[into], refsBefore[branch])
    ensures Reaches(commits, sha, refsBefore[into])
       <==> !Reaches(before, refsBefore[into], refsBefore[branch])
  {
    TipIsKeptIff(before, commits, sha, w.mergeBase, refsBefore[into], refsBefore[branch]);
  }

  lemma {:induction false} TipIsKeptIff(before: seq<Commit>, commits: seq<Commit>, sha: nat, base: nat, tip: nat, other: nat)
    requires WellFormed(before) && WellFormed(commits) && before <= commits
    requires tip < |before| && other < |before| && |before| <= sha < |commits|
    requires MergeBase(before, base, tip, other)
    requires commits[sha].parents == if base == other then before[tip].parents else [tip, other]
    ensures commits[sha].parents == [tip, other] <==> !Reaches(before, tip, other)
    ensures Reaches(commits, sha, tip) <==> !Reaches(before, tip, other)
  {
    ContainedIffBaseIsHead(before, base, tip, other);
    var parents := commits[sha].parents;
    if base == other {
      assert forall i :: 0 <= i < |parents| ==> parents[i] < tip;
      OlderDoNotReach(commits, parents, tip);
    } else {
      ParentIsReached(commits, sha, tip);
    }
  }

  lemma {:induction false} ParentIsReached(commits: seq<Commit>, sha: nat, tip: nat)
    requires WellFormed(commits) && sha < |commits| && commits[sha].parents != [] && commits[sha].parents[0] == tip
    ensures Reaches(commits, sha, tip)
  {
    assert Reaches(commits, commits[sha].parents[0], tip);
  }

  lemma OlderDoNotReach(commits: seq<Commit>, parents: seq<nat>, tip: nat)
    requires WellFormed(commits) && forall i :: 0 <= i < |parents| ==> parents[i] < |commits| && parents[i] < tip
    ensures forall i :: 0 <= i < |parents| ==> !Reaches(commits, parents[i], tip)
  {
    forall i | 0 <= i < |parents| ensures !Reaches(commits, parents[i], tip) {
      if Reaches(commits, parents[i], tip) {
        ReachesOlder(commits, parents[i], tip);
      }
    }
  }
}
