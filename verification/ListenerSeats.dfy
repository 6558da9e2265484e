/**
 * Seat by seat: what becomes of every seat the listener of `stamp pr listen` is granted, and when
 * its heartbeat runs (src/commands/prListen.ts).
 */
module ListenerSeats {
  import opened Results
  import opened Strings
  import opened Admission
  import opened Listener
  import opened ListenerRuns

  // ----- Each seat is settled once ---------------------------------------------------------------

  /** A call that gives a seat back or uses it up. */
  predicate Settlement(a: Action) {
    a.Release? || (a.Post? && a.posted && a.holder)
  }

  /** The settlement of the seat claimed for `patch`: its release, or a successful post made while holding it. */
  predicate SettlementOf(c: Call, patch: string) {
    c.action == Release(patch) || (c.action.Post? && c.action.posted && c.action.holder && c.current == Some(patch))
  }

  /** A call only the holder of a seat makes. */
  predicate NeedsSeat(a: Action) { Settlement(a) || a.HeartbeatOn? }

  /** No claim among the calls from `lo` up to `hi`. */
  predicate NoClaim(calls: seq<Call>, lo: nat, hi: nat)
    requires lo <= hi <= |calls|
  {
    forall k :: lo <= k < hi ==> !calls[k].action.Claim?
  }

  /** No call from `lo` up to `hi` settles a seat. */
  predicate Unsettled(calls: seq<Call>, lo: nat, hi: nat)
    requires hi <= |calls|
  {
    forall m :: lo <= m < hi ==> !Settlement(calls[m].action)
  }

  /** From call `from` up to the next claim nothing is done that needs a seat. */
  predicate SeatlessFrom(calls: seq<Call>, from: nat) {
    forall m :: from <= m < |calls| && NoClaim(calls, from, m + 1) ==> !NeedsSeat(calls[m].action)
  }

  /**
   * Call `j` settles the seat of claim `i` before any further claim; no call before it settles
   * anything, and none after it does before the next claim.
   */
  predicate SettledOnce(calls: seq<Call>, i: nat, j: nat, patch: string) {
    && i < j < |calls| && SettlementOf(calls[j], patch) && NoClaim(calls, i + 1, j + 1)
    && Unsettled(calls, i + 1, j) && SeatlessFrom(calls, j + 1)
  }

  /** While no seat is held and none is claimed, no call needs one. */
  lemma {:induction false} NoSeatNoNeed(h: Holding, calls: seq<Call>, n: nat)
    requires Follow(h, calls).Some? && h.held.None? && n <= |calls| && NoClaim(calls, 0, n)
    ensures forall m :: 0 <= m < n ==> !NeedsSeat(calls[m].action)
    decreases n
  {
    if n > 0 {
      var rest := calls[1..];
      assert forall k :: 0 <= k < |rest| ==> rest[k] == calls[k + 1];
      NoSeatNoNeed(Obey(h, calls[0]).value, rest, n - 1);
      assert forall k :: 1 <= k < n ==> calls[k] == rest[k - 1];
    }
  }

  /** A held seat that is gone at the end was settled by one call, the first that settles anything. */
  lemma {:induction false} HeldIsSettled(h: Holding, calls: seq<Call>, patch: string) returns (j: nat)
    requires Obeys(h, calls) && h.held == Some(patch)
    ensures j < |calls| && SettlementOf(calls[j], patch) && NoClaim(calls, 0, j + 1)
    ensures Unsettled(calls, 0, j)
    ensures Follow(h, calls[..j + 1]).Some? && Follow(h, calls[..j + 1]).value.held.None?
    decreases |calls|
  {
    var next := Obey(h, calls[0]).value;
    FollowPrefix(h, calls, 0);
    if next.held.None? {
      j := 0;
    } else {
      var rest := calls[1..];
      var k := HeldIsSettled(next, rest, patch);
      j := k + 1;
      assert calls[..j + 1][1..] == rest[..k + 1];
      assert forall m :: 1 <= m < |calls| ==> calls[m] == rest[m - 1];
    }
  }

  lemma {:induction false} FollowSuffix(h: Holding, calls: seq<Call>, k: nat)
    requires Follow(h, calls).Some? && k <= |calls|
    ensures Follow(h, calls[..k]).Some?
    ensures Follow(Follow(h, calls[..k]).value, calls[k..]) == Follow(h, calls)
  {
    FollowPrefix(h, calls, k);
    FollowConcat(h, calls[..k], calls[k..]);
    assert calls[..k] + calls[k..] == calls;
  }

  lemma AfterCall(calls: seq<Call>, i: nat)
    requires Obeys(NOTHING, calls) && i < |calls|
    ensures Follow(NOTHING, calls[..i]).Some? && Obey(Follow(NOTHING, calls[..i]).value, calls[i]).Some?
    ensures Obeys(Obey(Follow(NOTHING, calls[..i]).value, calls[i]).value, calls[i + 1..])
  {
    FollowPrefix(NOTHING, calls, i);
    FollowSuffix(NOTHING, calls, i + 1);
  }

  /** A protocol that goes on after `from` with no seat held makes no seat call before a claim. */
  lemma {:induction false} SuffixSeatless(calls: seq<Call>, from: nat, h: Holding)
    requires from <= |calls| && Follow(h, calls[from..]).Some? && h.held.None?
    ensures SeatlessFrom(calls, from)
  {
    var tail := calls[from..];
    assert forall k :: 0 <= k < |tail| ==> tail[k] == calls[from + k];
    forall m | from <= m < |calls| && NoClaim(calls, from, m + 1) ensures !NeedsSeat(calls[m].action) {
      NoSeatNoNeed(h, tail, m + 1 - from);
      assert tail[m - from] == calls[m];
    }
  }

  lemma ClaimSettledOnce(calls: seq<Call>, i: nat, patch: string) returns (j: nat)
    requires Obeys(NOTHING, calls) && i < |calls| && calls[i].action == Claim(patch, true)
    ensures SettledOnce(calls, i, j, patch)
  {
    AfterCall(calls, i);
    j := TailSettledOnce(calls, i, Obey(Follow(NOTHING, calls[..i]).value, calls[i]).value, patch);
  }

  lemma TailSettledOnce(calls: seq<Call>, i: nat, h: Holding, patch: string) returns (j: nat)
    requires i < |calls| && Obeys(h, calls[i + 1..]) && h.held == Some(patch)
    ensures SettledOnce(calls, i, j, patch)
  {
    var tail := calls[i + 1..];
    var k := HeldIsSettled(h, tail, patch);
    j := i + 1 + k;
    assert forall m :: i + 1 <= m < |calls| ==> calls[m] == tail[m - i - 1];
    FollowSuffix(h, tail, k + 1);
    assert tail[k + 1..] == calls[j + 1..];
    SuffixSeatless(calls, j + 1, Follow(h, tail[..k + 1]).value);
  }

  lemma UngrantedIsSeatless(calls: seq<Call>, i: nat, patch: string)
    requires Obeys(NOTHING, calls) && i < |calls| && calls[i].action == Claim(patch, false)
    ensures SeatlessFrom(calls, i + 1)
  {
    AfterCall(calls, i);
    SuffixSeatless(calls, i + 1, Obey(Follow(NOTHING, calls[..i]).value, calls[i]).value);
  }

  // ----- Over whole runs -------------------------------------------------------------------------

  lemma EarlyWindow(a: seq<Call>, b: seq<Call>, lo: nat, hi: nat)
    requires lo <= hi <= |a|
    ensures NoClaim(a + b, lo, hi) <==> NoClaim(a, lo, hi)
  {
    assert forall k :: 0 <= k < |a| ==> (a + b)[k] == a[k];
  }

  lemma LateWindow(a: seq<Call>, b: seq<Call>, lo: nat, hi: nat)
    requires |a| <= lo <= hi <= |a| + |b|
    ensures NoClaim(a + b, lo, hi) <==> NoClaim(b, lo - |a|, hi - |a|)
  {
    var all := a + b;
    assert forall k :: 0 <= k < |b| ==> b[k] == all[|a| + k];
    assert forall k :: |a| <= k < |all| ==> all[k] == b[k - |a|];
  }

  lemma SeatlessAcross(a: seq<Call>, b: seq<Call>, from: nat)
    requires from <= |a| && SeatlessFrom(a, from) && SeatlessFrom(b, 0)
    ensures SeatlessFrom(a + b, from)
  {
    var all := a + b;
    forall m | from <= m < |all| && NoClaim(all, from, m + 1) ensures !NeedsSeat(all[m].action) {
      if m < |a| {
        EarlyWindow(a, b, from, m + 1);
      } else {
        assert NoClaim(all, |a|, m + 1);
        LateWindow(a, b, |a|, m + 1);
        assert all[m] == b[m - |a|];
      }
    }
  }

  lemma SeatlessLater(a: seq<Call>, b: seq<Call>, from: nat)
    requires SeatlessFrom(b, from)
    ensures SeatlessFrom(a + b, |a| + from)
  {
    var all := a + b;
    forall m | |a| + from <= m < |all| && NoClaim(all, |a| + from, m + 1) ensures !NeedsSeat(all[m].action) {
      LateWindow(a, b, |a| + from, m + 1);
      assert all[m] == b[m - |a|];
    }
  }

  lemma SettledAcross(a: seq<Call>, b: seq<Call>, i: nat, j: nat, patch: string)
    requires SettledOnce(a, i, j, patch) && SeatlessFrom(b, 0)
    ensures SettledOnce(a + b, i, j, patch)
  {
    SeatlessAcross(a, b, j + 1);
    EarlyWindow(a, b, i + 1, j + 1);
    assert forall k :: 0 <= k < |a| ==> (a + b)[k] == a[k];
  }

  lemma SettledLater(a: seq<Call>, b: seq<Call>, i: nat, j: nat, patch: string)
    requires SettledOnce(b, i, j, patch)
    ensures SettledOnce(a + b, |a| + i, |a| + j, patch)
  {
    var all := a + b;
    SeatlessLater(a, b, j + 1);
    LateWindow(a, b, |a| + i + 1, |a| + j + 1);
    assert all[|a| + j] == b[j];
    assert forall k :: |a| <= k < |all| ==> all[k] == b[k - |a|];
  }

  /** The calls of the first event, and those of the rest of the run. */
  lemma RunCons(config: Config, events: seq<PrEvent>, worlds: seq<World>, spend: Spend) returns (first: seq<Call>, after: Spend)
    requires |events| == |worlds| > 0
    ensures Obeys(NOTHING, first)
    ensures RunFrom(config, events, worlds, spend).calls
         == first + RunFrom(config, events[1..], worlds[1..], after).calls
  {
    var seg := Iteration(config, events[0], worlds[0], spend);
    first, after := seg.calls, AddAll(spend, seg.charges);
    IterationObeys(config, events[0], worlds[0], spend);
  }

  /** Before its first claim a run makes no call that needs a seat. */
  lemma {:induction false} RunStartsSeatless(config: Config, events: seq<PrEvent>, worlds: seq<World>, spend: Spend)
    requires |events| == |worlds|
    ensures SeatlessFrom(RunFrom(config, events, worlds, spend).calls, 0)
    decreases |events|
  {
    if events != [] {
      var first, after := RunCons(config, events, worlds, spend);
      RunStartsSeatless(config, events[1..], worlds[1..], after);
      assert first[0..] == first;
      SuffixSeatless(first, 0, NOTHING);
      SeatlessAcross(first, RunFrom(config, events[1..], worlds[1..], after).calls, 0);
    }
  }

  /** Every granted claim among the calls is settled once. */
  ghost predicate SeatsSettled(calls: seq<Call>) {
    forall i, patch :: 0 <= i < |calls| && calls[i].action == Claim(patch, true) ==> exists j :: SettledOnce(calls, i, j, patch)
  }

  /** After every claim that was not granted nothing needs a seat until the next claim. */
  predicate UngrantedHoldNothing(calls: seq<Call>) {
    forall i :: 0 <= i < |calls| && calls[i].action.Claim? && !calls[i].action.granted ==> SeatlessFrom(calls, i + 1)
  }

  lemma FirstSettled(first: seq<Call>, rest: seq<Call>, i: nat, patch: string)
    requires Obeys(NOTHING, first) && SeatlessFrom(rest, 0)
    requires i < |first| && (first + rest)[i].action == Claim(patch, true)
    ensures exists j :: SettledOnce(first + rest, i, j, patch)
  {
    var j := ClaimSettledOnce(first, i, patch);
    SettledAcross(first, rest, i, j, patch);
  }

  lemma LaterSettled(first: seq<Call>, rest: seq<Call>, i: nat, patch: string)
    requires SeatsSettled(rest) && |first| <= i < |first| + |rest| && (first + rest)[i].action == Claim(patch, true)
    ensures exists j :: SettledOnce(first + rest, i, j, patch)
  {
    assert (first + rest)[i] == rest[i - |first|];
    var j :| SettledOnce(rest, i - |first|, j, patch);
    SettledLater(first, rest, i - |first|, j, patch);
  }

  lemma SeatsSettledConcat(first: seq<Call>, rest: seq<Call>)
    requires Obeys(NOTHING, first) && SeatlessFrom(rest, 0) && SeatsSettled(rest)
    ensures SeatsSettled(first + rest)
  {
    var all := first + rest;
    forall i, patch | 0 <= i < |all| && all[i].action == Claim(patch, true) ensures exists j :: SettledOnce(all, i, j, patch) {
      if i < |first| {
        FirstSettled(first, rest, i, patch);
      } else {
        LaterSettled(first, rest, i, patch);
      }
    }
  }

  lemma UngrantedConcat(first: seq<Call>, rest: seq<Call>)
    requires Obeys(NOTHING, first) && SeatlessFrom(rest, 0) && UngrantedHoldNothing(rest)
    ensures UngrantedHoldNothing(first + rest)
  {
    var all := first + rest;
    forall i | 0 <= i < |all| && all[i].action.Claim? && !all[i].action.granted ensures SeatlessFrom(all, i + 1) {
      if i < |first| {
        assert all[i] == first[i];
        UngrantedIsSeatless(first, i, first[i].action.patch);
        SeatlessAcross(first, rest, i + 1);
      } else {
        assert all[i] == rest[i - |first|];
        SeatlessLater(first, rest, i + 1 - |first|);
      }
    }
  }

  lemma {:induction false} RunSettles(config: Config, events: seq<PrEvent>, worlds: seq<World>, spend: Spend)
    requires |events| == |worlds|
    ensures SeatsSettled(RunFrom(config, events, worlds, spend).calls)
    ensures UngrantedHoldNothing(RunFrom(config, events, worlds, spend).calls)
    decreases |events|
  {
    if events != [] {
      var first, after := RunCons(config, events, worlds, spend);
      var rest := RunFrom(config, events[1..], worlds[1..], after).calls;
      RunSettles(config, events[1..], worlds[1..], after);
      RunStartsSeatless(config, events[1..], worlds[1..], after);
      SeatsSettledConcat(first, rest);
      UngrantedConcat(first, rest);
    }
  }

  /**
   * In every run, every granted seat is settled by exactly one call: a release of the same patch or
   * a successful post, made before the next claim.
   */
  lemma EachSeatSettledOnce(config: Config, events: seq<PrEvent>, worlds: seq<World>, spend: Spend,
      calls: seq<Call>, i: nat, patch: string) returns (j: nat)
    requires |events| == |worlds| && calls == RunFrom(config, events, worlds, spend).calls
    requires i < |calls| && calls[i].action == Claim(patch, true)
    ensures SettledOnce(calls, i, j, patch)
  {
    RunSettles(config, events, worlds, spend);
    j :| SettledOnce(calls, i, j, patch);
  }

  /**
   * In every run, after a claim that was not granted, whether an extra is registered or not, nothing
   * is released, no heartbeat is started and no seat is used up until the next claim.
   */
  lemma ExtrasHoldNothing(config: Config, events: seq<PrEvent>, worlds: seq<World>, spend: Spend,
      calls: seq<Call>, i: nat, patch: string)
    requires |events| == |worlds| && calls == RunFrom(config, events, worlds, spend).calls
    requires i < |calls| && calls[i].action == Claim(patch, false)
    ensures SeatlessFrom(calls, i + 1)
  {
    RunSettles(config, events, worlds, spend);
  }

  // ----- The heartbeat ---------------------------------------------------------------------------

  /** Whether a heartbeat runs after these calls: the last one started was not stopped. */
  predicate Beating(calls: seq<Call>)
    decreases |calls|
  {
    var n := |calls|;
    n > 0 && (calls[n - 1].action.HeartbeatOn? || (!calls[n - 1].action.HeartbeatOff? && Beating(calls[..n - 1])))
  }

  lemma {:induction false} BeatingSnoc(calls: seq<Call>, c: Call)
    ensures Beating(calls + [c]) <==> c.action.HeartbeatOn? || (!c.action.HeartbeatOff? && Beating(calls))
  {
    assert (calls + [c])[..|calls|] == calls;
  }

  /** Following the protocol keeps track of the heartbeat. */
  lemma {:induction false} BeatingIsFollowed(calls: seq<Call>, n: nat)
    requires Follow(NOTHING, calls).Some? && n <= |calls|
    ensures Follow(NOTHING, calls[..n]).Some?
    ensures Follow(NOTHING, calls[..n]).value.beating == Beating(calls[..n])
  {
    FollowPrefix(NOTHING, calls, n);
    if n > 0 {
      FollowPrefix(NOTHING, calls, n - 1);
      BeatingIsFollowed(calls, n - 1);
      BeatingSnoc(calls[..n - 1], calls[n - 1]);
      assert calls[..n - 1] + [calls[n - 1]] == calls[..n];
    }
  }

  /** The reported outcomes are the world's: of the diff, of the review, and of the claim. */
  predicate Reports(w: World, c: Call) {
    match c.action
    case RunReview(_, ok) => w.diff.Some? && (ok <==> w.review.Some?)
    case HeartbeatOn(_) => w.claim.Granted?
    case _ => true
  }

  predicate AllReport(w: World, calls: seq<Call>) {
    forall i :: 0 <= i < |calls| ==> Reports(w, calls[i])
  }

  lemma SeatedReports(a: Admitted, d: Decision, w: World)
    ensures AllReport(w, Seated(a, d, w).calls)
  {
    forall mode: Mode | mode.Seat? ==> w.claim.Granted? ensures AllReport(w, Work(a, d, w, mode).calls) {
      WorkReports(a, d, w, mode);
    }
  }

  lemma WorkReports(a: Admitted, d: Decision, w: World, mode: Mode)
    requires mode.Seat? ==> w.claim.Granted?
    ensures AllReport(w, Work(a, d, w, mode).calls)
  {
    assert AllReport(w, GiveUp(a, mode)) && AllReport(w, Beat(a, mode));
    assert AllReport(w, Unbeat(mode, None)) && AllReport(w, Unbeat(mode, Current(a, mode)));
    if w.review.Some? {
      assert AllReport(w, Publish(a, d, w, mode, w.review.value.verdict));
    }
    assert w.diff.Some? ==> AllReport(w, Reviewed(a, d, w, mode).calls);
  }

  /** What following true reports has found out is true of the world. */
  predicate Witnessed(w: World, h: Holding) {
    && (h.beating ==> w.claim.Granted?)
    && (h.reviewed.Some? ==> w.diff.Some? && (h.reviewed.value <==> w.review.Some?))
  }

  lemma {:induction false} FollowWitnessed(w: World, h: Holding, calls: seq<Call>)
    requires Follow(h, calls).Some? && Witnessed(w, h) && AllReport(w, calls)
    ensures Witnessed(w, Follow(h, calls).value)
    decreases |calls|
  {
    if calls != [] {
      assert Reports(w, calls[0]);
      FollowWitnessed(w, Obey(h, calls[0]).value, calls[1..]);
    }
  }

  /** The decision that the event ends up with, and whether the listener goes on to claim a seat. */
  function DecisionOf(w: World, spend: Spend): Decision {
    Capped(TriageDecision(w), AddDailySpend(spend, TriageCharge(w)).total)
  }

  predicate Claims(config: Config, event: PrEvent, w: World, spend: Spend) {
    && Admit(config, event, w.clones).Some?
    && !DecisionOf(w, spend).claimSeat.Skip?
    && (DecisionOf(w, spend).prompt == "default" || w.promptFound)
  }

  lemma IterationCalls(config: Config, event: PrEvent, w: World, spend: Spend)
    ensures var calls := Iteration(config, event, w, spend).calls;
            if Claims(config, event, w, spend)
            then calls == Head(DecisionOf(w, spend), w)
                        + Seated(Admit(config, event, w.clones).value, DecisionOf(w, spend), w).calls
            else calls == [] || calls == Head(DecisionOf(w, spend), w)
  {
  }

  lemma IterationReports(config: Config, event: PrEvent, w: World, spend: Spend)
    ensures AllReport(w, Iteration(config, event, w, spend).calls)
  {
    IterationCalls(config, event, w, spend);
    assert AllReport(w, Head(DecisionOf(w, spend), w));
    if Claims(config, event, w, spend) {
      SeatedReports(Admit(config, event, w.clones).value, DecisionOf(w, spend), w);
    }
  }

  predicate ReleasedWhileBeating(calls: seq<Call>, k: nat) {
    k < |calls| && calls[k].action.Release? && Beating(calls[..k])
  }

  /** The calls of a seat holder whose review fails. */
  lemma FailedReviewCalls(a: Admitted, d: Decision, w: World)
    requires w.claim.Granted? && w.diff.Some? && w.review.None?
    ensures Seated(a, d, w).calls == [
      Call(Claim(a.patch, true), None), Call(FetchDiff(a.pr, a.baseSha, a.headSha, true), Some(a.patch)),
      Call(HeartbeatOn(a.patch), Some(a.patch)), Call(RunReview(a.headSha, false), Some(a.patch)),
      Call(Release(a.patch), None), Call(HeartbeatOff, None)]
  {
  }

  lemma FailedReviewReleases(head: seq<Call>, rest: seq<Call>)
    requires |rest| == 6 && rest[2].action.HeartbeatOn? && rest[3].action.RunReview? && rest[4].action.Release?
    ensures ReleasedWhileBeating(head + rest, |head| + 4)
  {
    var calls, n := head + rest, |head|;
    BeatingSnoc(calls[..n + 2], calls[n + 2]);
    assert calls[..n + 2] + [calls[n + 2]] == calls[..n + 3];
    BeatingSnoc(calls[..n + 3], calls[n + 3]);
    assert calls[..n + 3] + [calls[n + 3]] == calls[..n + 4];
  }

  /**
   * A seat is given back while its heartbeat still runs exactly when the event leads to a claim, the
   * claim is granted, the diff is fetched and the review fails.
   */
  lemma ReleasedWhileBeatingIff(config: Config, event: PrEvent, w: World, spend: Spend, calls: seq<Call>)
    requires calls == Iteration(config, event, w, spend).calls
    ensures (exists k :: ReleasedWhileBeating(calls, k))
       <==> Claims(config, event, w, spend) && w.claim.Granted? && w.diff.Some? && w.review.None?
  {
    IterationCalls(config, event, w, spend);
    if Claims(config, event, w, spend) && w.claim.Granted? && w.diff.Some? && w.review.None? {
      var a, d := Admit(config, event, w.clones).value, DecisionOf(w, spend);
      FailedReviewCalls(a, d, w);
      FailedReviewReleases(Head(d, w), Seated(a, d, w).calls);
    }
    forall k | ReleasedWhileBeating(calls, k)
      ensures Claims(config, event, w, spend) && w.claim.Granted? && w.diff.Some? && w.review.None?
    {
      BeatingReleaseMeansFailure(config, event, w, spend, calls, k);
    }
  }

  lemma BeatingReleaseMeansFailure(config: Config, event: PrEvent, w: World, spend: Spend, calls: seq<Call>, k: nat)
    requires calls == Iteration(config, event, w, spend).calls && ReleasedWhileBeating(calls, k)
    ensures Claims(config, event, w, spend) && w.claim.Granted? && w.diff.Some? && w.review.None?
  {
    IterationObeys(config, event, w, spend);
    IterationReports(config, event, w, spend);
    BeatingReleaseWitnessed(w, calls, k);
    HeadReleasesNothing(config, event, w, spend, calls, k);
  }

  lemma BeatingReleaseWitnessed(w: World, calls: seq<Call>, k: nat)
    requires Obeys(NOTHING, calls) && AllReport(w, calls) && ReleasedWhileBeating(calls, k)
    ensures w.claim.Granted? && w.diff.Some? && w.review.None?
  {
    BeatingIsFollowed(calls, k);
    FollowPrefix(NOTHING, calls, k);
    assert AllReport(w, calls[..k]);
    FollowWitnessed(w, NOTHING, calls[..k]);
  }

  lemma HeadReleasesNothing(config: Config, event: PrEvent, w: World, spend: Spend, calls: seq<Call>, k: nat)
    requires calls == Iteration(config, event, w, spend).calls && k < |calls| && calls[k].action.Release?
    ensures Claims(config, event, w, spend)
  {
    IterationCalls(config, event, w, spend);
    HeadMakesNoRelease(DecisionOf(w, spend), w);
  }

  lemma HeadMakesNoRelease(d: Decision, w: World)
    ensures forall i :: 0 <= i < |Head(d, w)| ==> !Head(d, w)[i].action.Release?
  {
  }

  /**
   * Once a seat holder's review is over, the very next call stops the heartbeat if the review
   * succeeded; if it failed, the next call releases the seat and the one after it stops the heartbeat.
   */
  lemma HeartbeatStopsAfterReview(config: Config, event: PrEvent, w: World, spend: Spend, calls: seq<Call>, k: nat)
    requires calls == Iteration(config, event, w, spend).calls
    requires k < |calls| && calls[k].action.RunReview? && calls[k].current.Some?
    ensures Beating(calls[..k])
    ensures if calls[k].action.reviewed
            then k + 1 < |calls| && calls[k + 1].action.HeartbeatOff?
            else k + 2 < |calls| && calls[k + 1].action == Release(calls[k].current.value)
                 && calls[k + 2].action.HeartbeatOff?
  {
    IterationObeys(config, event, w, spend);
    StopsAfterReview(calls, k);
  }

  lemma StopsAfterReview(calls: seq<Call>, k: nat)
    requires Obeys(NOTHING, calls) && k < |calls| && calls[k].action.RunReview? && calls[k].current.Some?
    ensures Beating(calls[..k])
    ensures if calls[k].action.reviewed
            then k + 1 < |calls| && calls[k + 1].action.HeartbeatOff?
            else k + 2 < |calls| && calls[k + 1].action == Release(calls[k].current.value)
                 && calls[k + 2].action.HeartbeatOff?
  {
    BeatingIsFollowed(calls, k);
    AfterCall(calls, k);
    var rest := calls[k + 1..];
    NextAfterReview(Obey(Follow(NOTHING, calls[..k]).value, calls[k]).value, rest);
    assert forall i :: 0 <= i < |rest| ==> rest[i] == calls[k + 1 + i];
  }

  lemma NextAfterReview(h: Holding, rest: seq<Call>)
    requires Obeys(h, rest) && h.fetched.Some? && h.beating && h.held.Some? && h.reviewed.Some?
    ensures if h.reviewed.value then rest != [] && rest[0].action.HeartbeatOff?
            else |rest| >= 2 && rest[0].action == Release(h.held.value) && rest[1].action.HeartbeatOff?
  {
    assert rest != [] && Obey(h, rest[0]).Some?;
    if !h.reviewed.value {
      var next, tail := Obey(h, rest[0]).value, rest[1..];
      assert Obeys(next, tail);
      assert tail != [] && Obey(next, tail[0]).Some?;
    }
  }

  /**
   * A heartbeat is started right after the diff was fetched, for the seat held, and runs only for a
   * seat whose diff is there; a draft is saved and a review posted only after a review succeeded and
   * with the heartbeat stopped; none runs once the event is done with.
   */
  lemma {:induction false} HeartbeatOnlyDuringReview(config: Config, event: PrEvent, w: World, spend: Spend, calls: seq<Call>, k: nat)
    requires calls == Iteration(config, event, w, spend).calls && k < |calls|
    ensures Follow(NOTHING, calls[..k]).Some?
    ensures calls[k].action.HeartbeatOn? ==> StartsAfterFetch(calls, k)
    ensures Beating(calls[..k]) ==> OnlyForFetchedSeat(Follow(NOTHING, calls[..k]).value)
    ensures calls[k].action.SaveDraft? || calls[k].action.Post? ==>
              !Beating(calls[..k]) && Follow(NOTHING, calls[..k]).value.reviewed == Some(true)
    ensures !Beating(calls)
  {
    IterationObeys(config, event, w, spend);
    BeatingAtEnds(calls, k);
    BeatsForFetchedSeat(NOTHING, calls[..k]);
    if calls[k].action.HeartbeatOn? {
      StartFollowsFetch(calls, k);
    }
  }

  predicate OnlyForFetchedSeat(h: Holding) { h.beating ==> h.fetched.Some? && !h.extra }

  lemma {:induction false} BeatsForFetchedSeat(h: Holding, calls: seq<Call>)
    requires Follow(h, calls).Some? && OnlyForFetchedSeat(h) && (h.held.Some? ==> !h.extra)
    ensures OnlyForFetchedSeat(Follow(h, calls).value)
    decreases |calls|
  {
    if calls != [] {
      BeatsForFetchedSeat(Obey(h, calls[0]).value, calls[1..]);
    }
  }

  lemma {:induction false} BeatingAtEnds(calls: seq<Call>, k: nat)
    requires Obeys(NOTHING, calls) && k < |calls|
    ensures Follow(NOTHING, calls[..k]).Some?
    ensures Follow(NOTHING, calls[..k]).value.beating == Beating(calls[..k])
    ensures calls[k].action.SaveDraft? || calls[k].action.Post? ==>
              !Beating(calls[..k]) && Follow(NOTHING, calls[..k]).value.reviewed == Some(true)
    ensures !Beating(calls)
  {
    BeatingIsFollowed(calls, k);
    FollowPrefix(NOTHING, calls, k);
    BeatingIsFollowed(calls, |calls|);
    assert calls[..|calls|] == calls;
  }

  predicate StartsAfterFetch(calls: seq<Call>, k: nat)
    requires k < |calls| && calls[k].action.HeartbeatOn?
  {
    && k > 0 && calls[k - 1].action.FetchDiff? && calls[k - 1].action.fetched
    && calls[k].current == Some(calls[k].action.patch) && !Beating(calls[..k])
  }

  lemma StartFollowsFetch(calls: seq<Call>, k: nat)
    requires Obeys(NOTHING, calls) && k < |calls| && calls[k].action.HeartbeatOn?
    ensures StartsAfterFetch(calls, k)
  {
    BeatingIsFollowed(calls, k);
    FollowPrefix(NOTHING, calls, k);
    assert k > 0;
    FollowPrefix(NOTHING, calls, k - 1);
  }

  // ----- A concrete event ------------------------------------------------------------------------

  /** A pull request, a full SHA that is both its base and its head, and its patch. */
  datatype Sample = Sample(pr: PrUrl, sha: string, patch: string)
  {
    predicate Valid() { WellFormed(pr) && FullSha(sha) }

    function Repo(): string { pr.owner + "/" + pr.repo }

    function Setup(): Config {
      Config("me", Endpoint(None, false), map[Lower(Repo()) := "/clone"])
    }

    function Copy(): Clone {
      Clone(Some(sha), {sha}, {(sha, sha)}, map[sha := {"author"}], map[])
    }

    function Event(): PrEvent {
      PrEvent("review-requested", "author", patch, None, Some(sha), Some(sha),
        Some(Repo()), Some(UrlOf(PEER_PR_HOST, pr)), None)
    }

    function Accepted(): Admitted { Admitted(pr, patch, sha, sha) }

    /** No rules file; the claim is granted and the diff fetched, and the review comes out as given. */
    function Answers(review: Option<Review>): World {
      World(map["/clone" := Copy()], false, FALLBACK_DECISION, 0.0, "today",
        true, Granted, false, Some("diff"), review, "today", false, true)
    }

    /** The calls made for this event. */
    function Calls(review: Option<Review>): seq<Call> {
      Iteration(Setup(), Event(), Answers(review), Spend(0.0, "today")).calls
    }
  }

  lemma SampleExists()
    ensures Sample(PrUrl("o", "r", 1), seq(40, _ => '0'), "patch").Valid()
  {
  }

  predicate LettersAndDots(s: string) {
    forall i :: 0 <= i < |s| ==> 'a' <= s[i] <= 'z' || s[i] == '.'
  }

  lemma HostHasLettersAndDots()
    ensures PEER_PR_HOST != "" && LettersAndDots(PEER_PR_HOST)
  {
  }

  lemma {:induction false} PlainHost(s: string)
    requires s != "" && LettersAndDots(s)
    ensures HostText(s) && Lower(s) == s
  {
    LowerFixed(s);
  }

  lemma HostIsGithub()
    ensures GithubHost(PEER_PR_HOST)
  {
    HostHasLettersAndDots();
    PlainHost(PEER_PR_HOST);
  }

  lemma SampleIsBound(x: Sample)
    requires x.Valid()
    ensures BindPrUrl(x.Event().Url(), x.Repo()) == Some(x.pr)
  {
    HostIsGithub();
    UrlIsAccepted(PEER_PR_HOST, x.pr);
  }

  lemma SampleIsAdmitted(x: Sample, review: Option<Review>)
    requires x.Valid()
    ensures Admit(x.Setup(), x.Event(), x.Answers(review).clones) == Some(x.Accepted())
  {
    SampleIsBound(x);
    assert AuthorVerified(x.Copy(), x.sha, "author");
  }

  /** Without a rules file the fallback decision stands, and only the triplet precedes the claim. */
  lemma WithoutRules(w: World, spend: Spend)
    requires !w.rules
    ensures DecisionOf(w, spend) == FALLBACK_DECISION
    ensures Head(FALLBACK_DECISION, w) == [Call(Triplet(IfAvailable), None)]
  {
    var triplet := Call(Triplet(IfAvailable), None);
    assert [] + [triplet] == [triplet];
  }

  /** An admitted event without a rules file. */
  lemma UnruledCalls(config: Config, event: PrEvent, w: World, spend: Spend, a: Admitted)
    requires Admit(config, event, w.clones) == Some(a) && !w.rules
    ensures Iteration(config, event, w, spend).calls
         == [Call(Triplet(IfAvailable), None)] + Seated(a, FALLBACK_DECISION, w).calls
    ensures Claims(config, event, w, spend)
  {
    WithoutRules(w, spend);
    IterationCalls(config, event, w, spend);
  }

  /** Without a rules file, a granted seat, a fetched diff and a failed review. */
  lemma UnruledFailure(config: Config, event: PrEvent, w: World, spend: Spend, a: Admitted)
    requires Admit(config, event, w.clones) == Some(a) && !w.rules
    requires w.claim.Granted? && w.diff.Some? && w.review.None?
    ensures ReleasedWhileBeating(Iteration(config, event, w, spend).calls, 5)
  {
    UnruledCalls(config, event, w, spend, a);
    FailedReviewCalls(a, FALLBACK_DECISION, w);
    FailedReviewReleases([Call(Triplet(IfAvailable), None)], Seated(a, FALLBACK_DECISION, w).calls);
  }

  /** An event whose review fails: the seat is released while its heartbeat runs. */
  lemma FailedReviewExample(x: Sample)
    requires x.Valid()
    ensures ReleasedWhileBeating(x.Calls(None), 5)
  {
    SampleIsAdmitted(x, None);
    UnruledFailure(x.Setup(), x.Event(), x.Answers(None), Spend(0.0, "today"), x.Accepted());
  }
}
