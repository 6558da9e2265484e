/** What every run of the event loop of `stamp pr listen` keeps (src/commands/prListen.ts). */
module ListenerRuns {
  import opened Results
  import opened Strings
  import opened Admission
  import opened Listener

  // ----- The seat protocol ---------------------------------------------------------------------

  /**
   * The server's and the operator's view while one event is handled: the seat held, or an extra
   * registered; the head commit of the fetched diff; whether a heartbeat runs; whether a review
   * of that diff has succeeded or failed.
   */
  datatype Holding = Holding(
    held: Option<string>, extra: bool, fetched: Option<string>, beating: bool, reviewed: Option<bool>)

  const NOTHING := Holding(None, false, None, false, None)

  predicate Engaged(h: Holding) { h.held.Some? || h.extra }

  /** The protocol: which calls may come next, and what they change. `None` is a violation. */
  function Obey(h: Holding, c: Call): Option<Holding> {
    match c.action
    case Triage => if h == NOTHING && c.current == None then Some(h) else None
    case Triplet(_) => if h == NOTHING && c.current == None then Some(h) else None
    case Claim(patch, granted) =>
      if h == NOTHING && c.current == None then Some(if granted then h.(held := Some(patch)) else h) else None
    case Register(_, accepted) =>
      if h == NOTHING && c.current == None then Some(h.(extra := accepted)) else None
    case FetchDiff(_, _, head, ok) =>
      if Engaged(h) && h.fetched.None? && c.current == h.held
      then Some(if ok then h.(fetched := Some(head)) else h) else None
    case HeartbeatOn(patch) =>
      if h.held == Some(patch) && h.fetched.Some? && !h.beating && h.reviewed.None? && c.current == h.held
      then Some(h.(beating := true)) else None
    case RunReview(head, ok) =>
      if Engaged(h) && h.fetched == Some(head) && h.reviewed.None? && (h.beating <==> h.held.Some?) && c.current == h.held
      then Some(h.(reviewed := Some(ok))) else None
    case HeartbeatOff =>
      if h.beating && h.reviewed.Some? && (h.held.Some? ==> h.reviewed.value) && c.current == h.held
      then Some(h.(beating := false)) else None
    case Release(patch) =>
      if h.held == Some(patch) && c.current == None && (h.beating ==> h.reviewed == Some(false))
      then Some(h.(held := None)) else None
    case SaveDraft(_) =>
      if Engaged(h) && h.reviewed == Some(true) && !h.beating && c.current == h.held then Some(h) else None
    case Post(_, commit, _, ok, holder) =>
      if Engaged(h) && h.reviewed == Some(true) && !h.beating && h.fetched == Some(commit)
         && c.current == h.held && (holder <==> h.held.Some?)
      then Some(if ok then h.(held := None, extra := false) else h) else None
  }

  function Follow(h: Holding, calls: seq<Call>): Option<Holding>
    decreases |calls|
  {
    if calls == [] then Some(h)
    else
      match Obey(h, calls[0])
      case None => None
      case Some(next) => Follow(next, calls[1..])
  }

  lemma {:induction false} FollowConcat(h: Holding, a: seq<Call>, b: seq<Call>)
    requires Follow(h, a).Some?
    ensures Follow(h, a + b) == Follow(Follow(h, a).value, b)
    decreases |a|
  {
    if a == [] {
      assert a + b == b;
    } else {
      assert (a + b)[0] == a[0] && (a + b)[1..] == a[1..] + b;
      FollowConcat(Obey(h, a[0]).value, a[1..], b);
    }
  }

  lemma {:induction false} FollowOne(h: Holding, c: Call)
    ensures Follow(h, [c]) == Obey(h, c)
  {
    assert [c][1..] == [];
  }

  /** An event is done with: no seat, no heartbeat. */
  predicate Settled(h: Holding) { h.held.None? && !h.beating }

  ghost predicate Obeys(h: Holding, calls: seq<Call>) {
    Follow(h, calls).Some? && Settled(Follow(h, calls).value)
  }

  lemma {:induction false} GiveUpObeys(a: Admitted, mode: Mode, h: Holding)
    requires h.held == Current(a, mode) && (h.beating ==> h.reviewed == Some(false))
    ensures Follow(h, GiveUp(a, mode)) == Some(h.(held := None))
  {
    if mode.Seat? {
      FollowOne(h, Call(Release(a.patch), None));
    }
  }

  lemma PublishObeys(a: Admitted, d: Decision, w: World, mode: Mode, verdict: string, h: Holding)
    requires h == Holding(Current(a, mode), mode.Extra?, Some(a.headSha), false, Some(true))
    ensures Obeys(h, Publish(a, d, w, mode, verdict))
  {
    var cur := Current(a, mode);
    GiveUpObeys(a, mode, h);
    var draft := Call(SaveDraft(a.patch), cur);
    FollowOne(h, draft);
    FollowConcat(h, [draft], GiveUp(a, mode));
    var post := Call(Post(a.pr, a.headSha, verdict, w.posted, mode.Seat?), cur);
    FollowOne(h, post);
    FollowConcat(h, [post], if w.posted then [] else GiveUp(a, mode));
  }

  lemma {:induction false} UnbeatObeys(mode: Mode, h: Holding)
    requires (h.beating <==> mode.Seat?) && h.reviewed.Some? && (h.held.Some? ==> h.reviewed.value)
    ensures Follow(h, Unbeat(mode, h.held)) == Some(h.(beating := false))
  {
    if mode.Seat? {
      FollowOne(h, Call(HeartbeatOff, h.held));
    }
  }

  lemma ReviewedObeys(a: Admitted, d: Decision, w: World, mode: Mode, h: Holding)
    requires h == Holding(Current(a, mode), mode.Extra?, Some(a.headSha), mode.Seat?, None)
    ensures Obeys(h, Reviewed(a, d, w, mode).calls)
  {
    var review := Call(RunReview(a.headSha, w.review.Some?), Current(a, mode));
    FollowOne(h, review);
    match w.review
    case None =>
      var h1 := h.(reviewed := Some(false));
      GiveUpObeys(a, mode, h1);
      FollowConcat(h, [review], GiveUp(a, mode));
      UnbeatObeys(mode, h1.(held := None));
      FollowConcat(h, [review] + GiveUp(a, mode), Unbeat(mode, None));
    case Some(r) =>
      var h1 := h.(reviewed := Some(true));
      UnbeatObeys(mode, h1);
      FollowConcat(h, [review], Unbeat(mode, h.held));
      PublishObeys(a, d, w, mode, r.verdict, h1.(beating := false));
      FollowConcat(h, [review] + Unbeat(mode, h.held), Publish(a, d, w, mode, r.verdict));
  }

  lemma WorkObeys(a: Admitted, d: Decision, w: World, mode: Mode)
    ensures Obeys(Holding(Current(a, mode), mode.Extra?, None, false, None), Work(a, d, w, mode).calls)
  {
    var h := Holding(Current(a, mode), mode.Extra?, None, false, None);
    var fetch := Call(FetchDiff(a.pr, a.baseSha, a.headSha, w.diff.Some?), h.held);
    FollowOne(h, fetch);
    if w.diff.None? {
      GiveUpObeys(a, mode, h);
      FollowConcat(h, [fetch], GiveUp(a, mode));
    } else {
      var h1 := h.(fetched := Some(a.headSha));
      assert Follow(h1, Beat(a, mode)) == Some(h1.(beating := mode.Seat?)) by {
        if mode.Seat? {
          FollowOne(h1, Call(HeartbeatOn(a.patch), h.held));
        }
      }
      FollowConcat(h, [fetch], Beat(a, mode));
      ReviewedObeys(a, d, w, mode, h1.(beating := mode.Seat?));
      FollowConcat(h, [fetch] + Beat(a, mode), Reviewed(a, d, w, mode).calls);
    }
  }

  lemma SeatedObeys(a: Admitted, d: Decision, w: World)
    ensures Obeys(NOTHING, Seated(a, d, w).calls)
  {
    var claim := Call(Claim(a.patch, w.claim.Granted?), None);
    var register := Call(Register(a.patch, w.registered), None);
    var h1 := Obey(NOTHING, claim).value;
    FollowOne(NOTHING, claim);
    FollowOne(h1, register);
    if w.claim.Granted? {
      WorkObeys(a, d, w, Seat);
      FollowConcat(NOTHING, [claim], Work(a, d, w, Seat).calls);
    } else {
      FollowConcat(NOTHING, [claim], [register]);
      assert [claim] + [register] == [claim, register];
      WorkObeys(a, d, w, Extra);
      if w.registered {
        FollowConcat(NOTHING, [claim, register], Work(a, d, w, Extra).calls);
      }
    }
  }

  /** Every iteration starts with nothing held, obeys the protocol, and ends with nothing held. */
  lemma IterationObeys(config: Config, event: PrEvent, w: World, spend: Spend)
    ensures Obeys(NOTHING, Iteration(config, event, w, spend).calls)
  {
    match Admit(config, event, w.clones)
    case None =>
    case Some(a) =>
      var d := Capped(TriageDecision(w), AddDailySpend(spend, TriageCharge(w)).total);
      HeadObeys(d, w);
      SeatedObeys(a, d, w);
      FollowConcat(NOTHING, Head(d, w), Seated(a, d, w).calls);
  }

  lemma HeadObeys(d: Decision, w: World)
    ensures Follow(NOTHING, Head(d, w)) == Some(NOTHING)
  {
    var triage, triplet := Call(Triage, None), Call(Triplet(d.claimSeat), None);
    FollowOne(NOTHING, triage);
    FollowOne(NOTHING, triplet);
    FollowConcat(NOTHING, [triage], [triplet]);
    assert [] + [triplet] == [triplet];
  }

  // ----- What the protocol implies --------------------------------------------------------------

  /** Seats granted, less seats given back by a release or used up by a post. */
  function Balance(calls: seq<Call>): int {
    if calls == [] then 0
    else
      (match calls[0].action
       case Claim(_, granted) => if granted then 1 else 0
       case Release(_) => -1
       case Post(_, _, _, ok, holder) => if ok && holder then -1 else 0
       case _ => 0) + Balance(calls[1..])
  }

  lemma {:induction false} BalanceIsHolding(h: Holding, calls: seq<Call>)
    requires Follow(h, calls).Some?
    ensures Balance(calls)
         == (if Follow(h, calls).value.held.Some? then 1 else 0) - (if h.held.Some? then 1 else 0)
    decreases |calls|
  {
    if calls != [] {
      BalanceIsHolding(Obey(h, calls[0]).value, calls[1..]);
    }
  }

  lemma {:induction false} FollowPrefix(h: Holding, calls: seq<Call>, k: nat)
    requires Follow(h, calls).Some? && k <= |calls|
    ensures Follow(h, calls[..k]).Some?
    ensures k < |calls| ==> Obey(Follow(h, calls[..k]).value, calls[k]).Some?
    ensures k < |calls| ==> Follow(h, calls[..k + 1]) == Obey(Follow(h, calls[..k]).value, calls[k])
    decreases k
  {
    if k > 0 {
      FollowPrefix(Obey(h, calls[0]).value, calls[1..], k - 1);
      assert calls[..k][1..] == calls[1..][..k - 1];
      assert k < |calls| ==> calls[..k + 1][1..] == calls[1..][..k];
    } else {
      assert k < |calls| ==> calls[..1] == [calls[0]];
      if |calls| > 0 {
        FollowOne(h, calls[0]);
      }
    }
  }

  // ----- Checks before effects ------------------------------------------------------------------

  /** A call names only what the admitted event names, and a post pins the head of the fetched diff. */
  predicate About(a: Admitted, c: Call) {
    match c.action
    case Claim(patch, _) => patch == a.patch
    case Register(patch, _) => patch == a.patch
    case FetchDiff(pr, base, head, _) => pr == a.pr && base == a.baseSha && head == a.headSha
    case HeartbeatOn(patch) => patch == a.patch
    case RunReview(head, _) => head == a.headSha
    case Release(patch) => patch == a.patch
    case SaveDraft(patch) => patch == a.patch && HexAnyCase(patch)
    case Post(pr, commit, _, _, _) => pr == a.pr && commit == a.headSha
    case _ => true
  }

  predicate AllAbout(a: Admitted, calls: seq<Call>) {
    forall i :: 0 <= i < |calls| ==> About(a, calls[i])
  }

  lemma WorkIsAbout(a: Admitted, d: Decision, w: World, mode: Mode)
    ensures AllAbout(a, Work(a, d, w, mode).calls)
  {
    assert AllAbout(a, GiveUp(a, mode)) && AllAbout(a, Beat(a, mode));
    assert AllAbout(a, Unbeat(mode, None)) && AllAbout(a, Unbeat(mode, Current(a, mode)));
    if w.review.Some? {
      assert AllAbout(a, Publish(a, d, w, mode, w.review.value.verdict));
    }
    assert AllAbout(a, Reviewed(a, d, w, mode).calls);
  }

  lemma AboutConcat(a: Admitted, x: seq<Call>, y: seq<Call>)
    requires AllAbout(a, x) && AllAbout(a, y)
    ensures AllAbout(a, x + y)
  {
  }

  lemma SeatedIsAbout(a: Admitted, d: Decision, w: World)
    ensures AllAbout(a, Seated(a, d, w).calls)
  {
    WorkIsAbout(a, d, w, Seat);
    WorkIsAbout(a, d, w, Extra);
  }

  /**
   * Nothing at all is done for an event, not even a triage call, unless it passed every check; and
   * all that is done is about that event: its patch, its pull request, its base and head.
   */
  lemma ChecksBeforeEffects(config: Config, event: PrEvent, w: World, spend: Spend)
    ensures var seg := Iteration(config, event, w, spend);
            match Admit(config, event, w.clones)
            case None => seg.calls == [] && seg.charges == []
            case Some(a) => seg.calls != [] && AllAbout(a, seg.calls)
  {
    match Admit(config, event, w.clones)
    case None =>
    case Some(a) =>
      var d := Capped(TriageDecision(w), AddDailySpend(spend, TriageCharge(w)).total);
      assert AllAbout(a, Head(d, w));
      SeatedIsAbout(a, d, w);
      AboutConcat(a, Head(d, w), Seated(a, d, w).calls);
  }

  /** What admission says about a post that is about the admitted event. */
  lemma PinnedPost(config: Config, event: PrEvent, clones: map<string, Clone>, a: Admitted, c: Call)
    requires Admit(config, event, clones) == Some(a) && c.action.Post? && About(a, c)
    ensures Lower(c.action.pr.owner + "/" + c.action.pr.repo) == Lower(event.Repo())
    ensures event.headSha == Some(c.action.commit) && FullSha(c.action.commit)
    ensures Lower(event.Repo()) in config.repos && event.baseSha.Some?
    ensures Authorized(config, event, CloneAt(clones, config.repos[Lower(event.Repo())]), event.baseSha.value)
  {
    AdmitIff(config, event, clones, a);
  }

  /** A review is posted only on the repository whose operators and consent were checked. */
  lemma PostsStayInTheAuthorizedRepository(
      config: Config, event: PrEvent, w: World, spend: Spend, calls: seq<Call>, k: nat)
    requires calls == Iteration(config, event, w, spend).calls
    requires k < |calls| && calls[k].action.Post?
    ensures var post := calls[k].action;
            && Lower(post.pr.owner + "/" + post.pr.repo) == Lower(event.Repo())
            && event.headSha == Some(post.commit) && FullSha(post.commit)
            && Lower(event.Repo()) in config.repos && event.baseSha.Some?
            && Authorized(config, event, CloneAt(w.clones, config.repos[Lower(event.Repo())]), event.baseSha.value)
  {
    ChecksBeforeEffects(config, event, w, spend);
    var a := Admit(config, event, w.clones).value;
    assert About(a, calls[k]);
    PinnedPost(config, event, w.clones, a, calls[k]);
  }

  // ----- Daily spend ----------------------------------------------------------------------------

  /** The charges since the last change of day. */
  function Today(charges: seq<Charge>): seq<Charge> {
    var n := |charges|;
    if n <= 1 then charges
    else if charges[n - 2].day == charges[n - 1].day then Today(charges[..n - 1]) + [charges[n - 1]]
    else [charges[n - 1]]
  }

  function Sum(charges: seq<Charge>): real {
    if charges == [] then 0.0 else Sum(charges[..|charges| - 1]) + charges[|charges| - 1].amount
  }

  lemma {:induction false} SumSnoc(charges: seq<Charge>, c: Charge)
    ensures Sum(charges + [c]) == Sum(charges) + c.amount
  {
    assert (charges + [c])[..|charges|] == charges;
  }

  lemma TodaySnoc(charges: seq<Charge>, c: Charge)
    ensures Today(charges + [c])
         == (if charges != [] && charges[|charges| - 1].day == c.day then Today(charges) else []) + [c]
  {
    var all := charges + [c];
    assert all[..|charges|] == charges;
    assert charges == [] ==> all == [c];
  }

  lemma {:induction false} TodaysSumSnoc(charges: seq<Charge>, c: Charge)
    ensures Sum(Today(charges + [c]))
         == (if charges != [] && charges[|charges| - 1].day == c.day then Sum(Today(charges)) else 0.0) + c.amount
  {
    TodaySnoc(charges, c);
    SumSnoc(Today(charges), c);
    SumSnoc([], c);
  }

  function LastDay(start: string, charges: seq<Charge>): string {
    if charges == [] then start else charges[|charges| - 1].day
  }

  lemma {:induction false} SpendSnoc(s: Spend, charges: seq<Charge>, c: Charge)
    ensures AddAll(s, charges + [c]) == AddDailySpend(AddAll(s, charges), c)
  {
    AddAllConcat(s, charges, [c]);
    AddAllCons(AddAll(s, charges), c, []);
  }

  /** `dailySpend` is always the exact sum of the charges since the day last changed. */
  lemma {:induction false} SpendIsTodaysSum(start: string, charges: seq<Charge>)
    ensures AddAll(Spend(0.0, start), charges) == Spend(Sum(Today(charges)), LastDay(start, charges))
  {
    if charges == [] {
    } else {
      var n := |charges|;
      var before, c := charges[..n - 1], charges[n - 1];
      assert charges == before + [c];
      SpendIsTodaysSum(start, before);
      SpendSnoc(Spend(0.0, start), before, c);
      TodaysSumSnoc(before, c);
      assert before == [] ==> Sum(Today(before)) == 0.0;
    }
  }

  function ReviewSum(charges: seq<Charge>): real {
    if charges == [] then 0.0
    else
      var last := charges[|charges| - 1];
      ReviewSum(charges[..|charges| - 1]) + (if last.review then last.amount else 0.0)
  }

  lemma {:induction false} ReviewSumSnoc(charges: seq<Charge>, c: Charge)
    ensures ReviewSum(charges + [c]) == ReviewSum(charges) + (if c.review then c.amount else 0.0)
  {
    assert (charges + [c])[..|charges|] == charges;
  }

  /** Charges a capped run can produce: a review only while the day's sum is below the cap. */
  ghost predicate Guarded(charges: seq<Charge>, cap: real, most: real) {
    forall k :: 0 <= k < |charges| ==>
      && charges[k].amount >= 0.0
      && (charges[k].review ==> charges[k].amount <= most && Sum(Today(charges[..k])) < cap)
  }

  lemma GuardedPrefix(charges: seq<Charge>, cap: real, most: real, n: nat)
    requires Guarded(charges, cap, most) && n <= |charges|
    ensures Guarded(charges[..n], cap, most)
  {
    forall k | 0 <= k < n ensures charges[..n][..k] == charges[..k] {
    }
  }

  lemma {:induction false} GuardedSnoc(charges: seq<Charge>, c: Charge, cap: real, most: real)
    requires Guarded(charges, cap, most) && c.amount >= 0.0
    requires c.review ==> c.amount <= most && Sum(Today(charges)) < cap
    ensures Guarded(charges + [c], cap, most)
  {
    var all := charges + [c];
    forall k | 0 <= k < |all| ensures all[..k] == charges[..k] {
    }
    assert charges[..|charges|] == charges;
  }

  lemma {:induction false} GuardedBound(charges: seq<Charge>, cap: real, most: real)
    requires Guarded(charges, cap, most) && cap > 0.0 && most >= 0.0
    ensures 0.0 <= ReviewSum(Today(charges)) <= Sum(Today(charges))
    ensures ReviewSum(Today(charges)) < cap + most
  {
    if charges == [] {
    } else {
      var n := |charges|;
      var before, c := charges[..n - 1], charges[n - 1];
      assert charges == before + [c];
      GuardedPrefix(charges, cap, most, n - 1);
      GuardedBound(before, cap, most);
      TodaySnoc(before, c);
      SumSnoc(Today(before), c);
      SumSnoc([], c);
      ReviewSumSnoc(Today(before), c);
      ReviewSumSnoc([], c);
    }
  }

  /** Costs are not negative, a review costs at most `most`, and a claim carries a cap of at most `cap`. */
  predicate Capping(w: World, cap: real, most: real) {
    && TriageCharge(w).amount >= 0.0
    && (w.review.Some? ==> 0.0 <= w.review.value.cost <= most)
    && (!TriageDecision(w).claimSeat.Skip? ==>
          TriageDecision(w).cap.Some? && 0.0 < TriageDecision(w).cap.value <= cap)
  }

  lemma SeatedCharges(a: Admitted, d: Decision, w: World)
    ensures var c := Seated(a, d, w).charges;
            c == [] || (w.review.Some? && c == [Charge(w.reviewDay, w.review.value.cost, true)])
  {
  }

  /** What an admitted event charges: its triage, and, unless it ends up skipped, what the rest charges. */
  lemma AdmittedCharges(config: Config, event: PrEvent, w: World, spend: Spend, a: Admitted)
    requires Admit(config, event, w.clones) == Some(a)
    ensures var d := Capped(TriageDecision(w), AddDailySpend(spend, TriageCharge(w)).total);
            var charges := Iteration(config, event, w, spend).charges;
            || charges == [TriageCharge(w)]
            || (!d.claimSeat.Skip? && charges == [TriageCharge(w)] + Seated(a, d, w).charges)
  {
  }

  lemma {:induction false} IterationGuarded(config: Config, event: PrEvent, w: World, start: string, past: seq<Charge>, cap: real, most: real)
    requires Guarded(past, cap, most) && Capping(w, cap, most)
    ensures Guarded(past + Iteration(config, event, w, AddAll(Spend(0.0, start), past)).charges, cap, most)
  {
    var spend := AddAll(Spend(0.0, start), past);
    match Admit(config, event, w.clones)
    case None => assert past + [] == past;
    case Some(a) =>
      AdmittedCharges(config, event, w, spend, a);
      AdmittedGuarded(w, start, past, cap, most, a, Iteration(config, event, w, spend).charges);
  }

  lemma {:induction false} AdmittedGuarded(w: World, start: string, past: seq<Charge>, cap: real, most: real,
      a: Admitted, charges: seq<Charge>)
    requires Guarded(past, cap, most) && Capping(w, cap, most)
    requires var d := Capped(TriageDecision(w), AddDailySpend(AddAll(Spend(0.0, start), past), TriageCharge(w)).total);
             || charges == [TriageCharge(w)]
             || (!d.claimSeat.Skip? && charges == [TriageCharge(w)] + Seated(a, d, w).charges)
    ensures Guarded(past + charges, cap, most)
  {
    var t := TriageCharge(w);
    GuardedSnoc(past, t, cap, most);
    SpendSnoc(Spend(0.0, start), past, t);
    SpendIsTodaysSum(start, past + [t]);
    var d := Capped(TriageDecision(w), AddDailySpend(AddAll(Spend(0.0, start), past), t).total);
    SeatedCharges(a, d, w);
    assert [t] + [] == [t];
    if charges != [t] {
      ReviewGuarded(past, t, Charge(w.reviewDay, w.review.value.cost, true), cap, most);
    }
  }

  lemma {:induction false} ReviewGuarded(past: seq<Charge>, triage: Charge, review: Charge, cap: real, most: real)
    requires Guarded(past + [triage], cap, most) && review.review
    requires 0.0 <= review.amount <= most && Sum(Today(past + [triage])) < cap
    ensures Guarded(past + ([triage] + [review]), cap, most)
  {
    GuardedSnoc(past + [triage], review, cap, most);
    Assoc(past, [triage], [review]);
  }

  lemma {:induction false} RunGuarded(config: Config, events: seq<PrEvent>, worlds: seq<World>,
      start: string, past: seq<Charge>, cap: real, most: real)
    requires |events| == |worlds| && Guarded(past, cap, most)
    requires forall i :: 0 <= i < |worlds| ==> Capping(worlds[i], cap, most)
    ensures Guarded(past + RunFrom(config, events, worlds, AddAll(Spend(0.0, start), past)).charges, cap, most)
    decreases |events|
  {
    if events == [] {
      assert past + [] == past;
    } else {
      var spend := AddAll(Spend(0.0, start), past);
      var first := Iteration(config, events[0], worlds[0], spend).charges;
      IterationGuarded(config, events[0], worlds[0], start, past, cap, most);
      AddAllConcat(Spend(0.0, start), past, first);
      RunGuarded(config, events[1..], worlds[1..], start, past + first, cap, most);
      Assoc(past, first, RunFrom(config, events[1..], worlds[1..], AddAll(spend, first)).charges);
    }
  }

  /**
   * The review costs recorded on one day stay below cap plus the dearest review, at every moment
   * of every run, also when a review claimed on one day is billed on the next.
   */
  lemma {:induction false} DailyReviewSpendBounded(config: Config, events: seq<PrEvent>, worlds: seq<World>,
      start: string, cap: real, most: real, charges: seq<Charge>, n: nat)
    requires |events| == |worlds| && cap > 0.0 && most >= 0.0
    requires forall i :: 0 <= i < |worlds| ==> Capping(worlds[i], cap, most)
    requires charges == RunFrom(config, events, worlds, Spend(0.0, start)).charges && n <= |charges|
    ensures ReviewSum(Today(charges[..n])) < cap + most
  {
    RunGuarded(config, events, worlds, start, [], cap, most);
    assert [] + charges == charges;
    GuardedPrefix(charges, cap, most, n);
    GuardedBound(charges[..n], cap, most);
  }

  // ----- Whole runs -----------------------------------------------------------------------------

  lemma {:induction false} BalanceConcat(a: seq<Call>, b: seq<Call>)
    ensures Balance(a + b) == Balance(a) + Balance(b)
  {
    if a == [] {
      assert a + b == b;
    } else {
      assert (a + b)[0] == a[0] && (a + b)[1..] == a[1..] + b;
      BalanceConcat(a[1..], b);
    }
  }

  /** Over any run, seats granted equal seats released plus seats used up by a successful post. */
  lemma {:induction false} EverySeatSettled(config: Config, events: seq<PrEvent>, worlds: seq<World>, spend: Spend)
    requires |events| == |worlds|
    ensures Balance(RunFrom(config, events, worlds, spend).calls) == 0
    decreases |events|
  {
    if events != [] {
      var first := Iteration(config, events[0], worlds[0], spend);
      IterationObeys(config, events[0], worlds[0], spend);
      BalanceIsHolding(NOTHING, first.calls);
      EverySeatSettled(config, events[1..], worlds[1..], AddAll(spend, first.charges));
      BalanceConcat(first.calls, RunFrom(config, events[1..], worlds[1..], AddAll(spend, first.charges)).calls);
    }
  }
}
