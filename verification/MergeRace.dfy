/**
 * Any number of `stamp merge` processes on one repository: what the lock of src/lib/mergeLock.ts
 * protects in src/commands/merge.ts.
 */
module MergeRace {
  import opened Results
  import opened CommitGraph

  /** Where a process is; `pre` is the `preMergeSha` it would roll back to. */
  datatype Pc =
    | Start
    | Ready                                      // pre-flight passed
    | Holding                                    // lock acquired
    | Resolved(base: nat, head: nat)             // diff resolved, gate passed
    | Merged(base: nat, head: nat, pre: nat)     // merge commit on the target, checks running
    | Closing                                    // about to release the lock
    | Done

  datatype Process = Process(into: string, branch: string, pc: Pc)

  datatype System = System(commits: seq<Commit>, refs: map<string, nat>, lock: Option<nat>, procs: seq<Process>)

  datatype Action =
    | Preflight
    | Acquire
    | Busy
    | Resolve(base: nat)
    | Abort
    | GitMerge
    | Amend(version: nat, checks: seq<(string, int)>)
    | RollBack
    | Release
    | Steal  // acquire over a lock judged stale

  datatype Event = Event(process: nat, action: Action)

  predicate RefsExist(s: System) {
    && WellFormed(s.commits)
    && forall b :: b in s.refs ==> s.refs[b] < |s.commits|
  }

  function Move(s: System, p: nat, pc: Pc): System
    requires p < |s.procs|
  {
    s.(procs := s.procs[p := s.procs[p].(pc := pc)])
  }

  /** The branch is already contained in the target. */
  predicate Contained(s: System, p: nat)
    requires RefsExist(s) && p < |s.procs|
  {
    var me := s.procs[p];
    me.into in s.refs && me.branch in s.refs && Reaches(s.commits, s.refs[me.into], s.refs[me.branch])
  }

  /** A new commit at the tip of a branch. */
  function Advance(s: System, into: string, c: Commit): System {
    s.(commits := s.commits + [c], refs := s.refs[into := |s.commits|])
  }

  /** One step of one process; `None` when the process cannot take it now. */
  function Step(s: System, e: Event): Option<System>
    requires RefsExist(s)
  {
    var p := e.process;
    if p >= |s.procs| || s.procs[p].into !in s.refs then None
    else
      var me := s.procs[p];
      match e.action
      case Preflight => if me.pc.Start? then Some(Move(s, p, Ready)) else None
      case Acquire => if me.pc.Ready? && s.lock.None? then Some(Move(s, p, Holding).(lock := Some(p))) else None
      case Steal => if me.pc.Ready? && s.lock.Some? then Some(Move(s, p, Holding).(lock := Some(p))) else None
      case Busy => if me.pc.Ready? && s.lock.Some? then Some(Move(s, p, Done)) else None
      case Resolve(base) =>
        if me.pc.Holding? && me.branch in s.refs && MergeBase(s.commits, base, s.refs[me.into], s.refs[me.branch])
        then Some(Move(s, p, Resolved(base, s.refs[me.branch]))) else None
      case Abort => if me.pc.Holding? || me.pc.Resolved? then Some(Move(s, p, Closing)) else None
      case GitMerge =>
        if !me.pc.Resolved? || me.branch !in s.refs then None
        else
          var pre := s.refs[me.into];
          var next := Move(s, p, Merged(me.pc.base, me.pc.head, pre));
          if Contained(s, p) then Some(next)
          else Some(Advance(next, me.into, Commit([pre, s.refs[me.branch]], None)))
      case Amend(version, checks) =>
        if !me.pc.Merged? then None
        else
          var stamp := Stamp(version, me.pc.base, me.pc.head, checks);
          Some(Advance(Move(s, p, Closing), me.into, Commit(s.commits[s.refs[me.into]].parents, Some(stamp))))
      case RollBack =>
        if me.pc.Merged? && me.pc.pre < |s.commits|
        then Some(Move(s, p, Closing).(refs := s.refs[me.into := me.pc.pre])) else None
      case Release => if me.pc.Closing? then Some(Move(s, p, Done).(lock := None)) else None
  }

  lemma AdvanceKeepsRefs(s: System, into: string, c: Commit)
    requires RefsExist(s) && forall i :: 0 <= i < |c.parents| ==> c.parents[i] < |s.commits|
    ensures RefsExist(Advance(s, into, c))
  {
  }

  lemma StepKeepsRefs(s: System, e: Event)
    requires RefsExist(s) && Step(s, e).Some?
    ensures RefsExist(Step(s, e).value)
  {
    var me := s.procs[e.process];
    if e.action.Amend? {
      var parents := s.commits[s.refs[me.into]].parents;
      AdvanceKeepsRefs(Move(s, e.process, Closing), me.into,
        Commit(parents, Some(Stamp(e.action.version, me.pc.base, me.pc.head, e.action.checks))));
    }
    if e.action.GitMerge? {
      var pre := s.refs[me.into];
      AdvanceKeepsRefs(Move(s, e.process, Merged(me.pc.base, me.pc.head, pre)), me.into,
        Commit([pre, s.refs[me.branch]], None));
    }
  }

  function Run(s: System, events: seq<Event>): Option<System>
    requires RefsExist(s)
    decreases |events|
  {
    if events == [] then Some(s)
    else
      match Step(s, events[0])
      case None => None
      case Some(next) => StepKeepsRefs(s, events[0]); Run(next, events[1..])
  }

  /** The run steals no lock and merges no branch that its target already contains. */
  predicate Regular(s: System, events: seq<Event>)
    requires RefsExist(s)
    decreases |events|
  {
    events == [] ||
    (&& !events[0].action.Steal?
     && (events[0].action.GitMerge? && events[0].process < |s.procs| ==> !Contained(s, events[0].process))
     && match Step(s, events[0])
        case None => true
        case Some(next) => StepKeepsRefs(s, events[0]); Regular(next, events[1..]))
  }

  // ----- The invariant -------------------------------------------------------------------------

  predicate Inside(pc: Pc) { pc.Holding? || pc.Resolved? || pc.Merged? || pc.Closing? }

  /** Exactly the process named in the lock is between acquire and release. */
  predicate Exclusive(s: System) {
    forall p :: 0 <= p < |s.procs| ==> (Inside(s.procs[p].pc) <==> s.lock == Some(p))
  }

  predicate InitialOf(s: System, initial: map<string, nat>) {
    initial.Keys == s.refs.Keys && forall b :: b in initial ==> initial[b] < |s.commits|
  }

  predicate Stamped(s: System, initial: map<string, nat>, b: string)
    requires RefsExist(s) && InitialOf(s, initial) && b in s.refs
  {
    StampedSince(s.commits, initial[b], s.refs[b])
  }

  /** What a process remembers is still so. */
  predicate Current(s: System, initial: map<string, nat>, me: Process)
    requires RefsExist(s) && InitialOf(s, initial)
  {
    match me.pc
    case Resolved(base, head) =>
      && me.into in s.refs && me.branch in s.refs && s.refs[me.branch] == head
      && MergeBase(s.commits, base, s.refs[me.into], head)
    case Merged(base, head, pre) =>
      && me.into in s.refs && pre < |s.commits| && head < |s.commits|
      && s.commits[s.refs[me.into]].parents == [pre, head]
      && MergeBase(s.commits, base, pre, head)
      && StampedSince(s.commits, initial[me.into], pre)
    case _ => true
  }

  /** Some process has an unstamped merge on `b`. */
  ghost predicate InFlight(s: System, b: string) {
    exists p :: 0 <= p < |s.procs| && s.procs[p].pc.Merged? && s.procs[p].into == b
  }

  ghost predicate Inv(s: System, initial: map<string, nat>) {
    && RefsExist(s) && InitialOf(s, initial) && Exclusive(s)
    && (forall p :: 0 <= p < |s.procs| ==> Current(s, initial, s.procs[p]))
    && (forall b :: b in s.refs && !InFlight(s, b) ==> Stamped(s, initial, b))
  }

  predicate Fresh(s: System) {
    RefsExist(s) && s.lock.None? && forall p :: 0 <= p < |s.procs| ==> s.procs[p].pc.Start?
  }

  lemma FreshInv(s: System)
    requires Fresh(s)
    ensures Inv(s, s.refs)
  {
  }

  /** Everyone but the holder of the lock remembers nothing. */
  lemma OnlyHolderRemembers(s: System, initial: map<string, nat>, p: nat, q: nat)
    requires Inv(s, initial) && p < |s.procs| && q < |s.procs| && p != q && Inside(s.procs[p].pc)
    ensures !Inside(s.procs[q].pc)
  {
  }

  lemma OthersNotInFlight(s: System, initial: map<string, nat>, p: nat, b: string)
    requires Inv(s, initial) && p < |s.procs| && Inside(s.procs[p].pc) && s.procs[p].into != b
    ensures !InFlight(s, b)
  {
    forall q | 0 <= q < |s.procs| ensures !(s.procs[q].pc.Merged? && s.procs[q].into == b) {
      if q != p {
        OnlyHolderRemembers(s, initial, p, q);
      }
    }
  }

  /** A step that moves no ref: only the process's own place and the lock change. */
  lemma QuietKeeps(s: System, initial: map<string, nat>, p: nat, pc: Pc, lock: Option<nat>)
    requires Inv(s, initial) && p < |s.procs|
    requires !s.procs[p].pc.Merged? && !pc.Merged?
    requires Inside(pc) <==> lock == Some(p)
    requires Inside(s.procs[p].pc) || (Inside(pc) && s.lock.None?) || lock == s.lock
    requires Inside(s.procs[p].pc) ==> lock == Some(p) || lock == None
    requires pc.Resolved? ==> s.procs[p].into in s.refs && s.procs[p].branch in s.refs
                              && pc.head == s.refs[s.procs[p].branch]
                              && MergeBase(s.commits, pc.base, s.refs[s.procs[p].into], pc.head)
    ensures Inv(Move(s, p, pc).(lock := lock), initial)
  {
    var t := Move(s, p, pc).(lock := lock);
    forall b ensures InFlight(s, b) ==> InFlight(t, b) {
      StillInFlight(s, t, p, b);
    }
    assert forall b :: b in t.refs && !InFlight(t, b) ==> Stamped(s, initial, b);
  }

  lemma StillInFlight(s: System, t: System, p: nat, b: string)
    requires p < |s.procs| == |t.procs| && !s.procs[p].pc.Merged?
    requires forall q :: 0 <= q < |s.procs| && q != p ==> t.procs[q] == s.procs[q]
    ensures InFlight(s, b) ==> InFlight(t, b)
  {
    if InFlight(s, b) {
      var q :| 0 <= q < |s.procs| && s.procs[q].pc.Merged? && s.procs[q].into == b;
      assert t.procs[q] == s.procs[q];
    }
  }

  lemma GitMergeKeeps(s: System, initial: map<string, nat>, e: Event)
    requires Inv(s, initial) && e.action.GitMerge? && Step(s, e).Some? && !Contained(s, e.process)
    ensures Inv(Step(s, e).value, initial)
  {
    var me := s.procs[e.process];
    var pre := s.refs[me.into];
    MergingKeeps(s, Step(s, e).value, initial, e.process, Merged(me.pc.base, me.pc.head, pre),
      Commit([pre, s.refs[me.branch]], None));
  }

  /** What merging does: a merge commit of target and branch, and what the process remembers of it. */
  predicate Merging(s: System, t: System, p: nat, pc: Pc, c: Commit)
    requires RefsExist(s) && p < |s.procs|
  {
    var me := s.procs[p];
    && me.pc.Resolved? && me.into in s.refs && me.branch in s.refs
    && c == Commit([s.refs[me.into], s.refs[me.branch]], None)
    && pc == Merged(me.pc.base, me.pc.head, s.refs[me.into])
    && t == Advance(Move(s, p, pc), me.into, c)
  }

  lemma MergingKeeps(s: System, t: System, initial: map<string, nat>, p: nat, pc: Pc, c: Commit)
    requires Inv(s, initial) && p < |s.procs| && Merging(s, t, p, pc, c)
    ensures Inv(t, initial)
  {
    var me := s.procs[p];
    AdvanceKeepsRefs(Move(s, p, pc), me.into, c);
    MergingKeepsStamps(s, t, initial, p, pc, c);
    MergingIsExclusive(s, t, initial, p, pc, c);
    MergingIsCurrent(s, t, initial, p, pc, c);
    HolderMerged(t, initial, p);
  }

  /** One process has merged and remembers it rightly; no other is past its pre-flight. */
  lemma HolderMerged(t: System, initial: map<string, nat>, p: nat)
    requires RefsExist(t) && InitialOf(t, initial) && Exclusive(t)
    requires p < |t.procs| && t.procs[p].pc.Merged? && Current(t, initial, t.procs[p])
    requires forall q :: 0 <= q < |t.procs| && q != p ==> !Inside(t.procs[q].pc)
    requires forall b :: b in t.refs && b != t.procs[p].into ==> Stamped(t, initial, b)
    ensures Inv(t, initial)
  {
    assert InFlight(t, t.procs[p].into);
    forall q | 0 <= q < |t.procs| ensures Current(t, initial, t.procs[q]) {
    }
  }

  lemma MergingIsExclusive(s: System, t: System, initial: map<string, nat>, p: nat, pc: Pc, c: Commit)
    requires Inv(s, initial) && p < |s.procs| && Merging(s, t, p, pc, c)
    ensures Exclusive(t) && |t.procs| == |s.procs| && t.procs[p] == s.procs[p].(pc := pc)
    ensures forall q :: 0 <= q < |t.procs| && q != p ==> !Inside(t.procs[q].pc)
  {
    forall q | 0 <= q < |s.procs| && q != p ensures !Inside(s.procs[q].pc) && t.procs[q] == s.procs[q] {
      OnlyHolderRemembers(s, initial, p, q);
    }
  }

  lemma MergingKeepsStamps(s: System, t: System, initial: map<string, nat>, p: nat, pc: Pc, c: Commit)
    requires Inv(s, initial) && p < |s.procs| && Merging(s, t, p, pc, c)
    requires RefsExist(t) && InitialOf(t, initial)
    ensures forall b :: b in t.refs && b != s.procs[p].into ==> Stamped(t, initial, b)
  {
    NoneElseInFlight(s, initial, p);
    forall b | b in t.refs && b != s.procs[p].into ensures Stamped(t, initial, b) {
      StampedSinceStable(s.commits, c, initial[b], s.refs[b]);
    }
  }

  lemma MergingIsCurrent(s: System, t: System, initial: map<string, nat>, p: nat, pc: Pc, c: Commit)
    requires Inv(s, initial) && p < |s.procs| && Merging(s, t, p, pc, c)
    requires RefsExist(t) && InitialOf(t, initial)
    ensures Current(t, initial, s.procs[p].(pc := pc))
  {
    var me := s.procs[p];
    NoneElseInFlight(s, initial, p);
    assert Current(s, initial, me);
    StampedSinceStable(s.commits, c, initial[me.into], s.refs[me.into]);
    MergeBaseStable(s.commits, c, me.pc.base, s.refs[me.into], me.pc.head);
    assert t.commits[|s.commits|] == c;
  }

  /** While its holder has not merged, nothing is in flight. */
  lemma NoneElseInFlight(s: System, initial: map<string, nat>, p: nat)
    requires Inv(s, initial) && p < |s.procs| && Inside(s.procs[p].pc) && !s.procs[p].pc.Merged?
    ensures forall b :: b in s.refs ==> !InFlight(s, b) && Stamped(s, initial, b)
  {
    forall q | 0 <= q < |s.procs| ensures !s.procs[q].pc.Merged? {
      if q != p {
        OnlyHolderRemembers(s, initial, p, q);
      }
    }
  }

  lemma AmendKeeps(s: System, initial: map<string, nat>, e: Event)
    requires Inv(s, initial) && e.action.Amend? && Step(s, e).Some?
    ensures Inv(Step(s, e).value, initial)
  {
    var me := s.procs[e.process];
    StampingKeeps(s, initial, e.process, Stamp(e.action.version, me.pc.base, me.pc.head, e.action.checks));
  }

  lemma StampingKeeps(s: System, initial: map<string, nat>, p: nat, stamp: Stamp)
    requires Inv(s, initial) && p < |s.procs| && s.procs[p].pc.Merged?
    requires stamp.base == s.procs[p].pc.base && stamp.head == s.procs[p].pc.head
    requires s.procs[p].into in s.refs
    ensures var me := s.procs[p];
            Inv(Advance(Move(s, p, Closing), me.into, Commit(s.commits[s.refs[me.into]].parents, Some(stamp))), initial)
  {
    var me := s.procs[p];
    var c := Commit([me.pc.pre, me.pc.head], Some(stamp));
    assert Current(s, initial, me);
    var t := Advance(Move(s, p, Closing), me.into, c);
    AdvanceKeepsRefs(Move(s, p, Closing), me.into, c);
    assert t.procs[p].pc == Closing;
    forall q | 0 <= q < |s.procs| && q != p ensures !Inside(s.procs[q].pc) && t.procs[q] == s.procs[q] {
      OnlyHolderRemembers(s, initial, p, q);
    }
    StampedNow(s.commits, c, initial[me.into], me.pc.base);
    forall b | b in t.refs && b != me.into ensures Stamped(t, initial, b) {
      OthersNotInFlight(s, initial, p, b);
      StampedSinceStable(s.commits, c, initial[b], s.refs[b]);
    }
  }

  /** A stamped merge on top of stamped history. */
  lemma {:induction false} StampedNow(commits: seq<Commit>, c: Commit, start: nat, base: nat)
    requires WellFormed(commits) && WellFormed(commits + [c]) && |c.parents| == 2
    requires c.parents[0] < |commits| && c.parents[1] < |commits|
    requires c.stamp.Some? && c.stamp.value.base == base && c.stamp.value.head == c.parents[1]
    requires MergeBase(commits, base, c.parents[0], c.parents[1]) && StampedSince(commits, start, c.parents[0])
    ensures StampedSince(commits + [c], start, |commits|)
  {
    assert (commits + [c])[|commits|] == c;
    MergeBaseStable(commits, c, base, c.parents[0], c.parents[1]);
    StampedSinceStable(commits, c, start, c.parents[0]);
  }

  lemma RollBackKeeps(s: System, initial: map<string, nat>, e: Event)
    requires Inv(s, initial) && e.action.RollBack? && Step(s, e).Some?
    ensures Inv(Step(s, e).value, initial)
  {
    var me := s.procs[e.process];
    ResetKeeps(s, Move(s, e.process, Closing).(refs := s.refs[me.into := me.pc.pre]), initial, e.process);
  }

  lemma ResetKeeps(s: System, t: System, initial: map<string, nat>, p: nat)
    requires Inv(s, initial) && p < |s.procs| && s.procs[p].pc.Merged? && s.procs[p].into in s.refs
    requires s.procs[p].pc.pre < |s.commits|
    requires t == Move(s, p, Closing).(refs := s.refs[s.procs[p].into := s.procs[p].pc.pre])
    ensures Inv(t, initial)
  {
    assert t.procs[p].pc == Closing;
    forall q | 0 <= q < |s.procs| && q != p ensures !Inside(s.procs[q].pc) && t.procs[q] == s.procs[q] {
      OnlyHolderRemembers(s, initial, p, q);
    }
    forall b | b in t.refs && !InFlight(t, b) ensures Stamped(t, initial, b) {
      RolledBackIsStamped(s, t, initial, p, b);
    }
  }

  lemma RolledBackIsStamped(s: System, t: System, initial: map<string, nat>, p: nat, b: string)
    requires Inv(s, initial) && p < |s.procs| && s.procs[p].pc.Merged? && b in s.refs
    requires t.commits == s.commits && t.refs == s.refs[s.procs[p].into := s.procs[p].pc.pre]
    requires RefsExist(t) && InitialOf(t, initial)
    ensures Stamped(t, initial, b)
  {
    var me := s.procs[p];
    if b == me.into {
      assert Current(s, initial, me);
    } else {
      OthersNotInFlight(s, initial, p, b);
    }
  }

  lemma StepKeeps(s: System, initial: map<string, nat>, e: Event)
    requires Inv(s, initial) && Step(s, e).Some? && !e.action.Steal?
    requires e.action.GitMerge? ==> !Contained(s, e.process)
    ensures Inv(Step(s, e).value, initial)
  {
    var p := e.process;
    match e.action
    case Preflight => QuietKeeps(s, initial, p, Ready, s.lock);
    case Acquire => QuietKeeps(s, initial, p, Holding, Some(p));
    case Busy => QuietKeeps(s, initial, p, Done, s.lock);
    case Resolve(base) => QuietKeeps(s, initial, p, Resolved(base, s.refs[s.procs[p].branch]), s.lock);
    case Abort => QuietKeeps(s, initial, p, Closing, s.lock);
    case GitMerge => GitMergeKeeps(s, initial, e);
    case Amend(_, _) => AmendKeeps(s, initial, e);
    case RollBack => RollBackKeeps(s, initial, e);
    case Release => QuietKeeps(s, initial, p, Done, None);
  }

  lemma {:induction false} RunKeeps(s: System, initial: map<string, nat>, events: seq<Event>)
    requires Inv(s, initial) && Regular(s, events) && Run(s, events).Some?
    ensures Inv(Run(s, events).value, initial)
    decreases |events|
  {
    if events != [] {
      StepKeeps(s, initial, events[0]);
      RunKeeps(Step(s, events[0]).value, initial, events[1..]);
    }
  }

  /**
   * However the processes interleave, whenever the lock is free the first-parent history of every
   * branch is its initial history followed by stamped merges only, each stamped for the commit that
   * is its second parent.
   */
  lemma {:induction false} HistoryIsStamped(s: System, events: seq<Event>, b: string)
    requires Fresh(s) && Regular(s, events) && Run(s, events).Some?
    requires Run(s, events).value.lock.None? && b in s.refs
    ensures var t := Run(s, events).value;
            RefsExist(t) && b in t.refs && StampedSince(t.commits, s.refs[b], t.refs[b])
  {
    FreshInv(s);
    RunKeeps(s, s.refs, events);
    var t := Run(s, events).value;
    assert !InFlight(t, b);
    assert Stamped(t, s.refs, b);
  }

  /** Between the merge and its stamp no other process is past its pre-flight, and no other ref can move. */
  lemma {:induction false} MergeWindowIsExclusive(s: System, events: seq<Event>, p: nat, q: nat)
    requires Fresh(s) && Regular(s, events) && Run(s, events).Some?
    requires var t := Run(s, events).value; p < |t.procs| && q < |t.procs| && p != q && t.procs[p].pc.Merged?
    ensures var t := Run(s, events).value;
            && !Inside(t.procs[q].pc)
            && t.procs[p].into in t.refs && t.refs[t.procs[p].into] < |t.commits|
            && t.commits[t.refs[t.procs[p].into]].parents == [t.procs[p].pc.pre, t.procs[p].pc.head]
  {
    FreshInv(s);
    RunKeeps(s, s.refs, events);
    var t := Run(s, events).value;
    OnlyHolderRemembers(t, s.refs, p, q);
    assert Current(t, s.refs, t.procs[p]);
  }

  // ----- What the hypotheses are for -------------------------------------------------------------

  /** Two branches `a` and `b` on top of `main`, and a process merging each. */
  function TwoMerges(): System {
    var root := Commit([], None);
    System([root, Commit([0], None), Commit([0], None)], map["main" := 0, "a" := 1, "b" := 2], None,
      [Process("main", "a", Start), Process("main", "b", Start)])
  }

  lemma {:induction false} RunCons(s: System, e: Event, rest: seq<Event>, next: System)
    requires RefsExist(s) && RefsExist(next) && Step(s, e) == Some(next)
    ensures Run(s, [e] + rest) == Run(next, rest)
  {
    assert ([e] + rest)[0] == e && ([e] + rest)[1..] == rest;
  }

  /** What comes after process 0 has merged `a` and is running its checks. */
  function Theft(): seq<Event> {
    [Event(1, Steal)] + ([Event(1, Resolve(0))] + ([Event(1, GitMerge)] + ([Event(0, Amend(4, []))] + [])))
  }

  function ChecksRunning(): System {
    var s := TwoMerges();
    s.(commits := s.commits + [Commit([0, 1], None)], refs := s.refs["main" := 3], lock := Some(0),
       procs := [Process("main", "a", Merged(0, 1, 0)), Process("main", "b", Ready)])
  }

  lemma SmallGraph()
    ensures var graph := ChecksRunning().commits;
            && WellFormed(graph)
            && (forall c: nat :: Reaches(graph, 0, c) <==> c == 0)
            && (forall c: nat :: Reaches(graph, 1, c) <==> c == 0 || c == 1)
            && (forall c: nat :: Reaches(graph, 2, c) <==> c == 0 || c == 2)
            && (forall c: nat :: Reaches(graph, 3, c) <==> c == 0 || c == 1 || c == 3)
  {
    var graph := ChecksRunning().commits;
    assert graph[0].parents == [] && graph[1].parents == [0] && graph[2].parents == [0] && graph[3].parents == [0, 1];
    forall c: nat ensures Reaches(graph, 1, c) <==> c == 0 || c == 1 {
      assert Reaches(graph, graph[1].parents[0], c) <==> c == 0;
    }
    forall c: nat ensures Reaches(graph, 2, c) <==> c == 0 || c == 2 {
      assert Reaches(graph, graph[2].parents[0], c) <==> c == 0;
    }
    forall c: nat ensures Reaches(graph, 3, c) <==> c == 0 || c == 1 || c == 3 {
      assert Reaches(graph, graph[3].parents[0], c) <==> c == 0;
      assert Reaches(graph, graph[3].parents[1], c) <==> c == 0 || c == 1;
    }
  }

  /** The graph before the first merge. */
  lemma StartGraph()
    ensures var graph := TwoMerges().commits;
            && WellFormed(graph)
            && (forall c: nat :: Reaches(graph, 0, c) <==> c == 0)
            && (forall c: nat :: Reaches(graph, 1, c) <==> c == 0 || c == 1)
  {
    var graph := TwoMerges().commits;
    assert graph[0].parents == [] && graph[1].parents == [0];
    forall c: nat ensures Reaches(graph, 1, c) <==> c == 0 || c == 1 {
      assert Reaches(graph, graph[1].parents[0], c) <==> c == 0;
    }
  }

  lemma ResolvesA(s: System)
    requires s == Move(Move(TwoMerges(), 0, Ready), 0, Holding).(lock := Some(0))
    ensures RefsExist(s) && Step(s, Event(0, Resolve(0))) == Some(Move(s, 0, Resolved(0, 1)))
    ensures var t := Move(s, 0, Resolved(0, 1));
            RefsExist(t) && Step(t, Event(0, GitMerge))
                         == Some(Advance(Move(t, 0, Merged(0, 1, 0)), "main", Commit([0, 1], None)))
  {
    assert s.procs[0] == Process("main", "a", Holding);
    StartGraph();
    assert MergeBase(s.commits, 0, 0, 1);
    var t := Move(s, 0, Resolved(0, 1));
    assert t.procs[0] == Process("main", "a", Resolved(0, 1));
  }

  /** The state of `Theft` is reached by steps that respect the lock. */
  lemma ChecksRunningIsReached()
    ensures RefsExist(TwoMerges())
    ensures var before := [Event(0, Preflight)] + ([Event(0, Acquire)] + ([Event(0, Resolve(0))]
                          + ([Event(0, GitMerge)] + ([Event(1, Preflight)] + []))));
            Run(TwoMerges(), before) == Some(ChecksRunning())
  {
    var s0 := TwoMerges();
    var s1 := Move(s0, 0, Ready);
    var s2 := Move(s1, 0, Holding).(lock := Some(0));
    ResolvesA(s2);
    var s3 := Move(s2, 0, Resolved(0, 1));
    var s4 := Advance(Move(s3, 0, Merged(0, 1, 0)), "main", Commit([0, 1], None));
    StepKeepsRefs(s3, Event(0, GitMerge));
    var s5 := Move(s4, 1, Ready);
    assert s5.procs == ChecksRunning().procs;
    assert s5 == ChecksRunning();
    var r4 := [Event(1, Preflight)] + [];
    var r3 := [Event(0, GitMerge)] + r4;
    var r2 := [Event(0, Resolve(0))] + r3;
    RunCons(s4, Event(1, Preflight), [], s5);
    RunCons(s3, Event(0, GitMerge), r4, s4);
    RunCons(s2, Event(0, Resolve(0)), r3, s3);
    RunCons(s1, Event(0, Acquire), r2, s2);
    RunCons(s0, Event(0, Preflight), [Event(0, Acquire)] + r2, s1);
  }

  /** Process 1 has stolen the lock and merged `b` on top of the unstamped merge of `a`. */
  function AfterTheft(): System {
    var s := Move(Move(ChecksRunning(), 1, Holding).(lock := Some(1)), 1, Resolved(0, 2));
    Advance(Move(s, 1, Merged(0, 2, 3)), "main", Commit([3, 2], None))
  }

  lemma ResolvesB(s: System)
    requires s == Move(ChecksRunning(), 1, Holding).(lock := Some(1))
    ensures RefsExist(s) && Step(s, Event(1, Resolve(0))) == Some(Move(s, 1, Resolved(0, 2)))
  {
    SmallGraph();
    assert MergeBase(s.commits, 0, 3, 2);
    assert s.procs[1] == Process("main", "b", Holding);
  }

  lemma MergesB(s: System)
    requires s == Move(ChecksRunning(), 1, Holding).(lock := Some(1))
    ensures RefsExist(s) && Step(s, Event(1, Resolve(0))) == Some(Move(s, 1, Resolved(0, 2)))
    ensures var t := Move(s, 1, Resolved(0, 2));
            RefsExist(t) && RefsExist(AfterTheft()) && Step(t, Event(1, GitMerge)) == Some(AfterTheft())
  {
    ResolvesB(s);
    SmallGraph();
    var t := Move(s, 1, Resolved(0, 2));
    assert t.procs[1] == Process("main", "b", Resolved(0, 2));
    assert Step(t, Event(1, GitMerge)) == Some(AfterTheft());
    StepKeepsRefs(t, Event(1, GitMerge));
  }

  lemma AmendsTheWrongMerge(s: System)
    requires RefsExist(s) && |s.procs| == 2 && s.procs[0] == Process("main", "a", Merged(0, 1, 0))
    requires "main" in s.refs && s.commits[s.refs["main"]] == Commit([3, 2], None)
    ensures Step(s, Event(0, Amend(4, [])))
         == Some(Advance(Move(s, 0, Closing), "main", Commit([3, 2], Some(Stamp(4, 0, 1, [])))))
    ensures RefsExist(Step(s, Event(0, Amend(4, []))).value)
  {
    StepKeepsRefs(s, Event(0, Amend(4, [])));
  }

  lemma {:induction false} FourSteps(s0: System, e0: Event, s1: System, e1: Event, s2: System, e2: Event, s3: System, e3: Event, s4: System)
    requires RefsExist(s0) && RefsExist(s1) && RefsExist(s2) && RefsExist(s3) && RefsExist(s4)
    requires Step(s0, e0) == Some(s1) && Step(s1, e1) == Some(s2) && Step(s2, e2) == Some(s3) && Step(s3, e3) == Some(s4)
    ensures Run(s0, [e0] + ([e1] + ([e2] + ([e3] + [])))) == Some(s4)
  {
    RunCons(s3, e3, [], s4);
    RunCons(s2, e2, [e3] + [], s3);
    RunCons(s1, e1, [e2] + ([e3] + []), s2);
    RunCons(s0, e0, [e1] + ([e2] + ([e3] + [])), s1);
  }

  /** The system after the wrong merge was stamped. */
  function Misstamped(): System {
    Advance(Move(AfterTheft(), 0, Closing), "main", Commit([3, 2], Some(Stamp(4, 0, 1, []))))
  }

  lemma TheftRuns()
    requires RefsExist(ChecksRunning()) && RefsExist(AfterTheft()) && RefsExist(Misstamped())
    requires Step(AfterTheft(), Event(0, Amend(4, []))) == Some(Misstamped())
    ensures Run(ChecksRunning(), Theft()) == Some(Misstamped())
  {
    var s0 := ChecksRunning();
    var s1 := Move(s0, 1, Holding).(lock := Some(1));
    MergesB(s1);
    FourSteps(s0, Event(1, Steal), s1, Event(1, Resolve(0)), Move(s1, 1, Resolved(0, 2)), Event(1, GitMerge),
      AfterTheft(), Event(0, Amend(4, [])), Misstamped());
  }

  /**
   * With one stolen lock the guarantee is lost: process 0 stamps the merge of `b` for the head of
   * `a`. This is the damage the lock exists to prevent.
   */
  lemma StolenLockMisstamps()
    ensures RefsExist(ChecksRunning())
    ensures var r := Run(ChecksRunning(), Theft());
            && r.Some? && "main" in r.value.refs && r.value.refs["main"] < |r.value.commits|
            && r.value.commits[r.value.refs["main"]] == Commit([3, 2], Some(Stamp(4, 0, 1, [])))
  {
    MergesB(Move(ChecksRunning(), 1, Holding).(lock := Some(1)));
    AmendsTheWrongMerge(AfterTheft());
    TheftRuns();
  }
}
