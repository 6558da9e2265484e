/**
 * SIGINT while the listener of `stamp pr listen` handles an event (src/commands/prListen.ts): the
 * signal handler and the event loop are two tasks of one process, which take turns wherever the
 * loop awaits a call.
 */
module ListenerSignal {
  import opened Results
  import opened Strings
  import opened Admission
  import opened Listener
  import opened ListenerRuns
  import opened ListenerSeats

  // ----- The two tasks ---------------------------------------------------------------------------

  /** The calls the loop awaits; the others run to their end before anything else can happen. */
  predicate Awaited(a: Action) { a.Triage? || a.Claim? || a.Register? || a.RunReview? || a.Release? }

  /** The loop stands at an awaited call, or waits for the next event. */
  predicate Suspended(calls: seq<Call>, at: nat) {
    at <= |calls| && (at < |calls| ==> Awaited(calls[at].action))
  }

  /** `currentSeatPatchId` while the loop stands at `pos`. */
  function RecordAt(calls: seq<Call>, pos: nat): Option<string> {
    if pos < |calls| then calls[pos].current else None
  }

  /**
   * After the first SIGINT: the call the loop stands at, the releases that signal handlers have
   * begun, whether one of them was answered, and whether the process has exited.
   */
  datatype State = State(pos: nat, releases: nat, answered: bool, exited: bool)

  /** The loop's call ends; another SIGINT comes; a handler's release is answered. */
  datatype Happening = GoesOn | Sigint | Answered

  /** Where the loop, going on with call `k`, is suspended next. */
  function NextAwait(calls: seq<Call>, k: nat): (next: nat)
    requires k <= |calls|
    ensures k <= next && Suspended(calls, next)
    decreases |calls| - k
  {
    if k == |calls| || Awaited(calls[k].action) then k else NextAwait(calls, k + 1)
  }

  /** `shutdown`: with a seat on record it begins a release and waits for it, else it exits at once. */
  function Shutdown(calls: seq<Call>, s: State): State {
    if RecordAt(calls, s.pos).None? then s.(exited := true) else s.(releases := s.releases + 1)
  }

  /**
   * One step of either task. `shutdown` does not clear the record, and does not stop the loop before
   * its next event; at that point the loop exits, also under a handler that still waits.
   */
  function Step(calls: seq<Call>, s: State, e: Happening): State {
    if s.exited then s
    else
      match e
      case Sigint => Shutdown(calls, s)
      case Answered => if s.releases > 0 then s.(answered := true, exited := true) else s
      case GoesOn =>
        if s.pos >= |calls| then s.(exited := true)
        else
          var next := NextAwait(calls, s.pos + 1);
          s.(pos := next, exited := next == |calls|)
  }

  function Interrupted(calls: seq<Call>, at: nat): State {
    Shutdown(calls, State(at, 0, false, false))
  }

  function After(calls: seq<Call>, s: State, script: seq<Happening>): State
    decreases |script|
  {
    if script == [] then s else After(calls, Step(calls, s, script[0]), script[1..])
  }

  // ----- What became of the seat -----------------------------------------------------------------

  function Grants(calls: seq<Call>): nat {
    if calls == [] then 0
    else (if calls[0].action.Claim? && calls[0].action.granted then 1 else 0) + Grants(calls[1..])
  }

  function Settlements(calls: seq<Call>): nat {
    if calls == [] then 0
    else (if Settlement(calls[0].action) then 1 else 0) + Settlements(calls[1..])
  }

  /** The call in flight, if any. */
  function InFlight(calls: seq<Call>, pos: nat): seq<Call>
    requires pos <= |calls|
  {
    if pos < |calls| then [calls[pos]] else []
  }

  /** Seats granted, a claim in flight counting as the server decides it. */
  function Granted(calls: seq<Call>, s: State): nat
    requires s.pos <= |calls|
  {
    Grants(calls[..s.pos]) + Grants(InFlight(calls, s.pos))
  }

  /** Releases and posts that were begun, by the loop or by a handler. */
  function Begun(calls: seq<Call>, s: State): nat
    requires s.pos <= |calls|
  {
    Settlements(calls[..s.pos]) + Settlements(InFlight(calls, s.pos)) + s.releases
  }

  /** Those that were answered while the process lived. */
  function Finished(calls: seq<Call>, s: State): nat
    requires s.pos <= |calls|
  {
    Settlements(calls[..s.pos]) + (if s.answered then 1 else 0)
  }

  /** Each granted seat was settled, nothing was settled twice, and nothing begun was cut off. */
  predicate Clean(calls: seq<Call>, s: State) {
    s.pos <= |calls| && Begun(calls, s) == Finished(calls, s) == Granted(calls, s)
  }

  /** What the signal must find for a clean exit, and what must happen next. */
  predicate ExitsCleanly(calls: seq<Call>, at: nat, script: seq<Happening>)
    requires at <= |calls|
  {
    at < |calls| ==>
      && !(calls[at].action.Claim? && calls[at].action.granted)
      && !calls[at].action.Release?
      && (calls[at].action.RunReview? && calls[at].current.Some? ==> script != [] && script[0].Answered?)
  }

  // ----- Proofs ----------------------------------------------------------------------------------

  lemma {:induction false} BalanceCounts(calls: seq<Call>)
    ensures Balance(calls) == Grants(calls) - Settlements(calls)
  {
    if calls != [] {
      BalanceCounts(calls[1..]);
    }
  }

  /** Up to call `k`, seats granted less seats settled are the seats the protocol says are held. */
  lemma PrefixCounts(calls: seq<Call>, k: nat)
    requires Obeys(NOTHING, calls) && k <= |calls|
    ensures Follow(NOTHING, calls[..k]).Some?
    ensures Grants(calls[..k]) - Settlements(calls[..k]) == (if Follow(NOTHING, calls[..k]).value.held.Some? then 1 else 0)
    ensures k < |calls| ==> Obey(Follow(NOTHING, calls[..k]).value, calls[k]).Some?
  {
    FollowPrefix(NOTHING, calls, k);
    BalanceIsHolding(NOTHING, calls[..k]);
    BalanceCounts(calls[..k]);
  }

  lemma OneCall(calls: seq<Call>, pos: nat)
    requires pos < |calls|
    ensures Grants(InFlight(calls, pos)) == (if calls[pos].action.Claim? && calls[pos].action.granted then 1 else 0)
    ensures Settlements(InFlight(calls, pos)) == (if Settlement(calls[pos].action) then 1 else 0)
  {
    assert [calls[pos]][1..] == [];
  }

  /** A seat on record at an awaited call means that the seat holder's review is running. */
  lemma RecordMeansReview(calls: seq<Call>, at: nat)
    requires Obeys(NOTHING, calls) && Suspended(calls, at)
    ensures RecordAt(calls, at).Some? <==> at < |calls| && calls[at].action.RunReview? && calls[at].current.Some?
  {
    FollowPrefix(NOTHING, calls, at);
  }

  /** With nothing on record the process exits on the spot. */
  lemma ExitAtOnce(calls: seq<Call>, at: nat)
    requires Obeys(NOTHING, calls) && Suspended(calls, at) && RecordAt(calls, at).None?
    ensures Clean(calls, Interrupted(calls, at)) <==> ExitsCleanly(calls, at, [])
  {
    PrefixCounts(calls, at);
    if at < |calls| {
      OneCall(calls, at);
    } else {
      assert calls[..at] == calls;
    }
  }

  lemma {:induction false} ExitedStays(calls: seq<Call>, s: State, script: seq<Happening>)
    requires s.exited
    ensures After(calls, s, script) == s
    decreases |script|
  {
    if script != [] {
      ExitedStays(calls, s, script[1..]);
    }
  }

  lemma {:induction false} ReviewedStays(h: Holding, calls: seq<Call>)
    requires Follow(h, calls).Some? && h.reviewed.Some? && h.fetched.Some?
    ensures Follow(h, calls).value.reviewed.Some? && Follow(h, calls).value.fetched.Some?
    decreases |calls|
  {
    if calls != [] {
      ReviewedStays(Obey(h, calls[0]).value, calls[1..]);
    }
  }

  lemma AfterReviewReviewed(calls: seq<Call>, at: nat, pos: nat)
    requires Obeys(NOTHING, calls) && at < pos <= |calls| && calls[at].action.RunReview?
    ensures Follow(NOTHING, calls[..pos]).Some?
    ensures Follow(NOTHING, calls[..pos]).value.reviewed.Some? && Follow(NOTHING, calls[..pos]).value.fetched.Some?
  {
    var before := calls[..pos];
    FollowPrefix(NOTHING, calls, pos);
    FollowPrefix(NOTHING, before, at);
    FollowSuffix(NOTHING, before, at + 1);
    ReviewedStays(Follow(NOTHING, before[..at + 1]).value, before[at + 1..]);
  }

  /** The loop's own part of `Begun` less `Granted`, once it stands at the review or past it. */
  function Surplus(calls: seq<Call>, pos: nat): int
    requires pos <= |calls|
  {
    Settlements(calls[..pos]) + Settlements(InFlight(calls, pos)) - Grants(calls[..pos]) - Grants(InFlight(calls, pos))
  }

  lemma SurplusAtReview(calls: seq<Call>, at: nat)
    requires Obeys(NOTHING, calls) && at < |calls| && calls[at].action.RunReview? && calls[at].current.Some?
    ensures Surplus(calls, at) == -1
  {
    PrefixCounts(calls, at);
    OneCall(calls, at);
  }

  /** Past the review the loop stands only at its own release or at the end: its part is settled or begun. */
  lemma SurplusPastReview(calls: seq<Call>, at: nat, pos: nat)
    requires Obeys(NOTHING, calls) && at < |calls| && calls[at].action.RunReview?
    requires at < pos && Suspended(calls, pos)
    ensures Surplus(calls, pos) == 0
  {
    AfterReviewReviewed(calls, at, pos);
    PrefixCounts(calls, pos);
    if pos < |calls| {
      OneCall(calls, pos);
    } else {
      assert calls[..pos] == calls;
    }
  }

  /** More releases are begun than the seat needs, from here on. */
  predicate TooMany(calls: seq<Call>, at: nat, s: State) {
    s.pos >= at && Suspended(calls, s.pos) && s.releases >= 1 && (s.pos > at || s.releases >= 2)
  }

  lemma {:induction false} TooManyStays(calls: seq<Call>, at: nat, s: State, script: seq<Happening>)
    requires TooMany(calls, at, s)
    ensures TooMany(calls, at, After(calls, s, script))
    decreases |script|
  {
    if script != [] {
      TooManyStays(calls, at, Step(calls, s, script[0]), script[1..]);
    }
  }

  lemma TooManyIsNotClean(calls: seq<Call>, at: nat, s: State)
    requires Obeys(NOTHING, calls) && at < |calls| && calls[at].action.RunReview? && calls[at].current.Some?
    requires TooMany(calls, at, s)
    ensures Begun(calls, s) > Granted(calls, s)
  {
    if s.pos == at {
      SurplusAtReview(calls, at);
    } else {
      SurplusPastReview(calls, at, s.pos);
    }
  }

  /** During the seat holder's review: clean exactly when the handler's release is answered first. */
  lemma {:induction false} DuringReview(calls: seq<Call>, at: nat, script: seq<Happening>)
    requires Obeys(NOTHING, calls) && at < |calls| && calls[at].action.RunReview? && calls[at].current.Some?
    requires script != []
    ensures Clean(calls, After(calls, Interrupted(calls, at), script)) <==> script[0].Answered?
  {
    var s := Interrupted(calls, at);
    var next := Step(calls, s, script[0]);
    if script[0].Answered? {
      ExitedStays(calls, next, script[1..]);
      SurplusAtReview(calls, at);
      OneCall(calls, at);
    } else {
      TooManyStays(calls, at, next, script[1..]);
      TooManyIsNotClean(calls, at, After(calls, next, script[1..]));
    }
  }

  lemma {:induction false} PosStays(calls: seq<Call>, s: State, script: seq<Happening>)
    requires s.pos <= |calls|
    ensures After(calls, s, script).pos <= |calls|
    decreases |script|
  {
    if script != [] {
      PosStays(calls, Step(calls, s, script[0]), script[1..]);
    }
  }

  /**
   * SIGINT while an event is handled, and whatever happens until the process exits, further signals
   * included: the exit is clean exactly when the signal finds neither a claim that is being granted
   * nor a release in flight, and, if it finds the seat holder's review running, the answer to the
   * handler's release is the next thing that happens.
   */
  lemma {:induction false} SigintCleanIff(config: Config, event: PrEvent, w: World, spend: Spend,
      calls: seq<Call>, at: nat, script: seq<Happening>)
    requires calls == Iteration(config, event, w, spend).calls && Suspended(calls, at)
    requires After(calls, Interrupted(calls, at), script).exited
    ensures Clean(calls, After(calls, Interrupted(calls, at), script)) <==> ExitsCleanly(calls, at, script)
  {
    IterationObeys(config, event, w, spend);
    CleanIff(calls, at, script);
  }

  lemma {:induction false} CleanIff(calls: seq<Call>, at: nat, script: seq<Happening>)
    requires Obeys(NOTHING, calls) && Suspended(calls, at)
    requires After(calls, Interrupted(calls, at), script).exited
    ensures Clean(calls, After(calls, Interrupted(calls, at), script)) <==> ExitsCleanly(calls, at, script)
  {
    PosStays(calls, Interrupted(calls, at), script);
    RecordMeansReview(calls, at);
    if RecordAt(calls, at).None? {
      ExitedStays(calls, Interrupted(calls, at), script);
      ExitAtOnce(calls, at);
    } else {
      DuringReview(calls, at, script);
    }
  }

  // ----- The three ways to go wrong --------------------------------------------------------------

  /** A granted claim in flight: the process exits and the seat stays held. */
  lemma ClaimIsAbandoned(calls: seq<Call>, at: nat, patch: string)
    requires Obeys(NOTHING, calls) && at < |calls| && calls[at].action == Claim(patch, true)
    ensures Interrupted(calls, at).exited
    ensures var s := Interrupted(calls, at); Granted(calls, s) == Begun(calls, s) + 1 == Finished(calls, s) + 1
  {
    PrefixCounts(calls, at);
    OneCall(calls, at);
  }

  /** A release in flight: its seat is off the record, so the process exits under it. */
  lemma ReleaseIsCutOff(calls: seq<Call>, at: nat, patch: string)
    requires Obeys(NOTHING, calls) && at < |calls| && calls[at].action == Release(patch)
    ensures Interrupted(calls, at).exited
    ensures var s := Interrupted(calls, at); Granted(calls, s) == Begun(calls, s) == Finished(calls, s) + 1
  {
    PrefixCounts(calls, at);
    OneCall(calls, at);
  }

  /** The review fails while the handler's release is in flight: the loop releases the same seat again. */
  lemma {:induction false} FailedReviewReleasesTwice(calls: seq<Call>, at: nat, patch: string)
    requires Obeys(NOTHING, calls) && at < |calls| && calls[at].current == Some(patch)
    requires calls[at].action.RunReview? && !calls[at].action.reviewed
    ensures at + 1 < |calls| && calls[at + 1].action == Release(patch)
    ensures After(calls, Interrupted(calls, at), [GoesOn]) == State(at + 1, 1, false, false)
    ensures Begun(calls, State(at + 1, 1, false, false)) == Granted(calls, State(at + 1, 1, false, false)) + 1
  {
    StopsAfterReview(calls, at);
    OneStep(calls, Interrupted(calls, at), GoesOn);
    SurplusPastReview(calls, at, at + 1);
  }

  lemma {:induction false} OneStep(calls: seq<Call>, s: State, e: Happening)
    ensures After(calls, s, [e]) == Step(calls, s, e)
  {
    assert [e][1..] == [];
  }

  /** A review whose post comes right after the end of its heartbeat. */
  predicate PostedNext(calls: seq<Call>, at: nat, post: Action) {
    && |calls| == at + 3 && calls[at].current.Some? && calls[at + 1].action.HeartbeatOff?
    && post.Post? && calls[at + 2].action == post
  }

  /** While the handler's release is in flight the review is posted, and the process exits under the release. */
  predicate PostedAnyway(calls: seq<Call>, at: nat, post: Action) {
    && |calls| == at + 3 && calls[at + 2].action == post
    && After(calls, Interrupted(calls, at), [GoesOn]) == State(at + 3, 1, false, true)
  }

  lemma SuccessfulReviewIsPosted(calls: seq<Call>, at: nat, post: Action)
    requires PostedNext(calls, at, post)
    ensures PostedAnyway(calls, at, post)
  {
    OneStep(calls, Interrupted(calls, at), GoesOn);
    assert NextAwait(calls, at + 3) == at + 3;
    assert NextAwait(calls, at + 2) == at + 3;
  }

  // ----- The same on a concrete event ------------------------------------------------------------

  lemma UnruledFailureCalls(config: Config, event: PrEvent, w: World, spend: Spend, a: Admitted, calls: seq<Call>)
    requires Admit(config, event, w.clones) == Some(a) && !w.rules
    requires w.claim.Granted? && w.diff.Some? && w.review.None?
    requires calls == Iteration(config, event, w, spend).calls
    ensures |calls| == 7 && calls[1].action == Claim(a.patch, true)
    ensures calls[4] == Call(RunReview(a.headSha, false), Some(a.patch)) && calls[5].action == Release(a.patch)
  {
    UnruledCalls(config, event, w, spend, a);
    FailedReviewCalls(a, FALLBACK_DECISION, w);
  }

  /** The calls of a seat holder whose review succeeds and is posted. */
  lemma PostedReviewCalls(a: Admitted, d: Decision, w: World)
    requires w.claim.Granted? && w.diff.Some? && w.review.Some? && d.postMode.AutoPost? && w.posted
    ensures var calls := Seated(a, d, w).calls;
            && |calls| == 6 && calls[3] == Call(RunReview(a.headSha, true), Some(a.patch))
            && PostedNext(calls, 3, Post(a.pr, a.headSha, w.review.value.verdict, true, true))
  {
  }

  lemma UnruledSuccessCalls(config: Config, event: PrEvent, w: World, spend: Spend, a: Admitted, calls: seq<Call>)
    requires Admit(config, event, w.clones) == Some(a) && !w.rules
    requires w.claim.Granted? && w.diff.Some? && w.review.Some? && w.posted
    requires calls == Iteration(config, event, w, spend).calls
    ensures |calls| == 7 && calls[4] == Call(RunReview(a.headSha, true), Some(a.patch))
    ensures PostedNext(calls, 4, Post(a.pr, a.headSha, w.review.value.verdict, true, true))
  {
    UnruledCalls(config, event, w, spend, a);
    PostedReviewCalls(a, FALLBACK_DECISION, w);
  }

  lemma SampleFailure(x: Sample, calls: seq<Call>)
    requires x.Valid() && calls == x.Calls(None)
    ensures Obeys(NOTHING, calls) && |calls| == 7 && calls[1].action == Claim(x.patch, true)
    ensures calls[4] == Call(RunReview(x.sha, false), Some(x.patch)) && calls[5].action == Release(x.patch)
  {
    SampleIsAdmitted(x, None);
    UnruledFailureCalls(x.Setup(), x.Event(), x.Answers(None), Spend(0.0, "today"), x.Accepted(), calls);
    IterationObeys(x.Setup(), x.Event(), x.Answers(None), Spend(0.0, "today"));
  }

  /** SIGINT while a claim is being granted, and while a release is in flight. */
  lemma LostRequestExamples(x: Sample, calls: seq<Call>)
    requires x.Valid() && calls == x.Calls(None)
    ensures |calls| == 7 && calls[1].action == Claim(x.patch, true) && calls[5].action == Release(x.patch)
    ensures Interrupted(calls, 1).exited && !Clean(calls, Interrupted(calls, 1))
    ensures Interrupted(calls, 5).exited && !Clean(calls, Interrupted(calls, 5))
  {
    SampleFailure(x, calls);
    ClaimIsAbandoned(calls, 1, x.patch);
    ReleaseIsCutOff(calls, 5, x.patch);
  }

  /** SIGINT during a review that then fails: handler and loop both release the seat. */
  lemma {:induction false} TwoReleasesExample(x: Sample, calls: seq<Call>)
    requires x.Valid() && calls == x.Calls(None)
    ensures |calls| == 7 && calls[5].action == Release(x.patch)
    ensures After(calls, Interrupted(calls, 4), [GoesOn]) == State(5, 1, false, false)
  {
    SampleFailure(x, calls);
    FailedReviewReleasesTwice(calls, 4, x.patch);
  }

  /** SIGINT during a review that then succeeds: it is posted for a seat that is being given back. */
  lemma PostedAnywayExample(x: Sample, review: Review)
    requires x.Valid()
    ensures PostedAnyway(x.Calls(Some(review)), 4, Post(x.pr, x.sha, review.verdict, true, true))
  {
    SampleIsAdmitted(x, Some(review));
    UnruledSuccessCalls(x.Setup(), x.Event(), x.Answers(Some(review)), Spend(0.0, "today"), x.Accepted(),
      x.Calls(Some(review)));
    SuccessfulReviewIsPosted(x.Calls(Some(review)), 4, Post(x.pr, x.sha, review.verdict, true, true));
  }
}
