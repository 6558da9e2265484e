/**
 * What one iteration of the event loop of `stamp pr listen` does and what it leaves undone
 * (src/commands/prListen.ts), read off the event, the decision and the answers of the world.
 */
module ListenerCalls {
  import opened Results
  import opened Strings
  import opened Admission
  import opened Listener

  // ----- How often each call is made -------------------------------------------------------------

  /** The calls by kind; heartbeats and releases belong to the seat protocol. */
  datatype Kind = ATriage | ATriplet | AClaim | ARegister | AFetch | AReview | ADraft | APost

  predicate Is(kind: Kind, a: Action) {
    match kind
    case ATriage => a.Triage?
    case ATriplet => a.Triplet?
    case AClaim => a.Claim?
    case ARegister => a.Register?
    case AFetch => a.FetchDiff?
    case AReview => a.RunReview?
    case ADraft => a.SaveDraft?
    case APost => a.Post?
  }

  function Once(b: bool): nat { if b then 1 else 0 }

  function Times(kind: Kind, calls: seq<Call>): nat {
    if calls == [] then 0 else Once(Is(kind, calls[0].action)) + Times(kind, calls[1..])
  }

  lemma {:induction false} TimesConcat(kind: Kind, a: seq<Call>, b: seq<Call>)
    ensures Times(kind, a + b) == Times(kind, a) + Times(kind, b)
  {
    if a == [] {
      assert a + b == b;
    } else {
      assert (a + b)[0] == a[0] && (a + b)[1..] == a[1..] + b;
      TimesConcat(kind, a[1..], b);
    }
  }

  lemma {:induction false} TimesOne(kind: Kind, c: Call)
    ensures Times(kind, [c]) == Once(Is(kind, c.action))
  {
    assert [c][1..] == [];
  }

  // ----- What decides ----------------------------------------------------------------------------

  /** The rules' decision, or without rules: a seat if one is free, the default prompt, no cap. */
  function Asked(w: World): Decision {
    if w.rules then w.triage else Decision(IfAvailable, AutoPost, "default", None)
  }

  /** The day's spend once this event's triage is paid. */
  function SpentToday(w: World, spend: Spend): real {
    (if w.triageDay == spend.day then spend.total else 0.0) + (if w.rules then w.triageCost else 0.0)
  }

  /** A positive cap has been reached. */
  predicate CapHit(w: World, spend: Spend) {
    Asked(w).cap.Some? && 0.0 < Asked(w).cap.value <= SpentToday(w, spend)
  }

  /** The event leads to a claim. */
  predicate Goes(config: Config, event: PrEvent, w: World, spend: Spend) {
    && Admit(config, event, w.clones).Some?
    && !Asked(w).claimSeat.Skip? && !CapHit(w, spend)
    && (Asked(w).prompt == "default" || w.promptFound)
  }

  /** All seats are taken, and the decision is to review all the same. */
  predicate AsksAsExtra(w: World) {
    w.claim == Rejected(true) && Asked(w).claimSeat.Always?
  }

  /** A seat, or a place as an extra. */
  predicate Placed(w: World) {
    w.claim.Granted? || (AsksAsExtra(w) && w.registered)
  }

  predicate FullHex(s: string) {
    |s| == 40 && forall i :: 0 <= i < |s| ==> '0' <= s[i] <= '9' || 'a' <= s[i] <= 'f' || 'A' <= s[i] <= 'F'
  }

  /** Whether a call of this kind is due for the event. */
  predicate Due(kind: Kind, config: Config, event: PrEvent, w: World, spend: Spend) {
    var admitted, goes := Admit(config, event, w.clones).Some?, Goes(config, event, w, spend);
    match kind
    case ATriage => admitted && w.rules
    case ATriplet => admitted
    case AClaim => goes
    case ARegister => goes && AsksAsExtra(w)
    case AFetch => goes && Placed(w)
    case AReview => goes && Placed(w) && w.diff.Some?
    case ADraft => goes && Placed(w) && w.diff.Some? && w.review.Some? && Asked(w).postMode.Draft? && FullHex(event.Patch())
    case APost => goes && Placed(w) && w.diff.Some? && w.review.Some? && Asked(w).postMode.AutoPost?
  }

  // ----- The pieces of an iteration --------------------------------------------------------------

  lemma {:induction false} SeatCallsDoNotCount(kind: Kind, a: Admitted, mode: Mode, current: Option<string>)
    ensures Times(kind, GiveUp(a, mode)) == 0
    ensures Times(kind, Beat(a, mode)) == 0
    ensures Times(kind, Unbeat(mode, current)) == 0
  {
    TimesOne(kind, Call(Release(a.patch), None));
    TimesOne(kind, Call(HeartbeatOn(a.patch), Current(a, mode)));
    TimesOne(kind, Call(HeartbeatOff, current));
  }

  lemma {:induction false} PublishTimes(kind: Kind, a: Admitted, d: Decision, w: World, mode: Mode, verdict: string)
    ensures Times(kind, Publish(a, d, w, mode, verdict))
         == Once((kind.ADraft? && d.postMode.Draft? && FullHex(a.patch)) || (kind.APost? && d.postMode.AutoPost?))
  {
    var draft, post := Call(SaveDraft(a.patch), Current(a, mode)),
      Call(Post(a.pr, a.headSha, verdict, w.posted, mode.Seat?), Current(a, mode));
    SeatCallsDoNotCount(kind, a, mode, None);
    TimesOne(kind, draft);
    TimesOne(kind, post);
    TimesConcat(kind, [draft], GiveUp(a, mode));
    TimesConcat(kind, [post], if w.posted then [] else GiveUp(a, mode));
  }

  lemma {:induction false} ReviewedTimes(kind: Kind, a: Admitted, d: Decision, w: World, mode: Mode)
    ensures Times(kind, Reviewed(a, d, w, mode).calls)
         == Once(kind.AReview?
              || (w.review.Some? && ((kind.ADraft? && d.postMode.Draft? && FullHex(a.patch)) || (kind.APost? && d.postMode.AutoPost?))))
  {
    var cur := Current(a, mode);
    var review := Call(RunReview(a.headSha, w.review.Some?), cur);
    TimesOne(kind, review);
    SeatCallsDoNotCount(kind, a, mode, None);
    SeatCallsDoNotCount(kind, a, mode, cur);
    match w.review
    case None =>
      TimesConcat(kind, [review], GiveUp(a, mode));
      TimesConcat(kind, [review] + GiveUp(a, mode), Unbeat(mode, None));
    case Some(r) =>
      PublishTimes(kind, a, d, w, mode, r.verdict);
      TimesConcat(kind, [review], Unbeat(mode, cur));
      TimesConcat(kind, [review] + Unbeat(mode, cur), Publish(a, d, w, mode, r.verdict));
  }

  /** From a place on: the fetch, and with a diff the review, and with a review what the mode says. */
  predicate Follows(kind: Kind, a: Admitted, d: Decision, w: World) {
    || kind.AFetch?
    || (kind.AReview? && w.diff.Some?)
    || (w.diff.Some? && w.review.Some?
        && ((kind.ADraft? && d.postMode.Draft? && FullHex(a.patch)) || (kind.APost? && d.postMode.AutoPost?)))
  }

  lemma {:induction false} WorkTimes(kind: Kind, a: Admitted, d: Decision, w: World, mode: Mode)
    ensures Times(kind, Work(a, d, w, mode).calls) == Once(Follows(kind, a, d, w))
  {
    var fetch := Call(FetchDiff(a.pr, a.baseSha, a.headSha, w.diff.Some?), Current(a, mode));
    TimesOne(kind, fetch);
    SeatCallsDoNotCount(kind, a, mode, None);
    if w.diff.None? {
      TimesConcat(kind, [fetch], GiveUp(a, mode));
    } else {
      ReviewedTimes(kind, a, d, w, mode);
      TimesConcat(kind, [fetch], Beat(a, mode));
      TimesConcat(kind, [fetch] + Beat(a, mode), Reviewed(a, d, w, mode).calls);
    }
  }

  lemma {:induction false} SeatedTimes(kind: Kind, a: Admitted, d: Decision, w: World)
    ensures Times(kind, Seated(a, d, w).calls)
         == Once(|| kind.AClaim?
                 || (kind.ARegister? && w.claim == Rejected(true) && d.claimSeat.Always?)
                 || ((w.claim.Granted? || (w.claim == Rejected(true) && d.claimSeat.Always? && w.registered))
                     && Follows(kind, a, d, w)))
  {
    var claim := Call(Claim(a.patch, w.claim.Granted?), None);
    var register := Call(Register(a.patch, w.registered), None);
    TimesOne(kind, claim);
    TimesOne(kind, register);
    TimesConcat(kind, [claim], [register]);
    assert [claim] + [register] == [claim, register];
    WorkTimes(kind, a, d, w, Seat);
    WorkTimes(kind, a, d, w, Extra);
    TimesConcat(kind, [claim], Work(a, d, w, Seat).calls);
    TimesConcat(kind, [claim, register], Work(a, d, w, Extra).calls);
  }

  lemma {:induction false} HeadTimes(kind: Kind, d: Decision, w: World)
    ensures Times(kind, Head(d, w)) == Once((kind.ATriage? && w.rules) || kind.ATriplet?)
  {
    var triage, triplet := Call(Triage, None), Call(Triplet(d.claimSeat), None);
    TimesOne(kind, triage);
    TimesOne(kind, triplet);
    TimesConcat(kind, [triage], [triplet]);
    assert [] + [triplet] == [triplet];
  }

  /** The decision logged: the one asked for, unless a cap turned a claim into a skip. */
  function Logged(w: World, spend: Spend): Decision {
    if CapHit(w, spend) then Asked(w).(claimSeat := Skip) else Asked(w)
  }

  lemma DecisionIsLogged(w: World, spend: Spend)
    ensures Capped(TriageDecision(w), AddDailySpend(spend, TriageCharge(w)).total) == Logged(w, spend)
  {
  }

  lemma AdmittedCalls(config: Config, event: PrEvent, w: World, spend: Spend, a: Admitted)
    requires Admit(config, event, w.clones) == Some(a)
    ensures Iteration(config, event, w, spend).calls
         == Head(Logged(w, spend), w)
            + (if Goes(config, event, w, spend) then Seated(a, Logged(w, spend), w).calls else [])
  {
    DecisionIsLogged(w, spend);
    assert Head(Logged(w, spend), w) + [] == Head(Logged(w, spend), w);
  }

  lemma {:induction false} AdmittedTimes(kind: Kind, config: Config, event: PrEvent, w: World, spend: Spend, a: Admitted)
    requires Admit(config, event, w.clones) == Some(a)
    ensures Times(kind, Iteration(config, event, w, spend).calls) == TimesAdmitted(kind, config, event, w, spend, a)
  {
    var d := Logged(w, spend);
    AdmittedCalls(config, event, w, spend, a);
    HeadTimes(kind, d, w);
    TimesConcat(kind, Head(d, w), if Goes(config, event, w, spend) then Seated(a, d, w).calls else []);
  }

  function TimesAdmitted(kind: Kind, config: Config, event: PrEvent, w: World, spend: Spend, a: Admitted): nat {
    Once((kind.ATriage? && w.rules) || kind.ATriplet?)
    + (if Goes(config, event, w, spend) then Times(kind, Seated(a, Logged(w, spend), w).calls) else 0)
  }

  lemma AdmittedDue(kind: Kind, config: Config, event: PrEvent, w: World, spend: Spend, a: Admitted)
    requires Admit(config, event, w.clones) == Some(a)
    ensures TimesAdmitted(kind, config, event, w, spend, a) == Once(Due(kind, config, event, w, spend))
  {
    SeatedTimes(kind, a, Logged(w, spend), w);
    SamePatch(config, event, w, a);
  }

  lemma SamePatch(config: Config, event: PrEvent, w: World, a: Admitted)
    requires Admit(config, event, w.clones) == Some(a)
    ensures a.patch == event.Patch()
  {
  }

  /**
   * Every iteration makes exactly the calls that its answers call for, each once: a review is posted
   * only in mode auto-post, a draft saved only in mode draft and for a full hexadecimal patch, and a
   * dry run does neither.
   */
  lemma {:induction false} CallsAreDue(kind: Kind, config: Config, event: PrEvent, w: World, spend: Spend)
    ensures Times(kind, Iteration(config, event, w, spend).calls) == if Due(kind, config, event, w, spend) then 1 else 0
  {
    match Admit(config, event, w.clones)
    case None =>
    case Some(a) =>
      AdmittedTimes(kind, config, event, w, spend, a);
      AdmittedDue(kind, config, event, w, spend, a);
  }

  // ----- What each call says ---------------------------------------------------------------------

  /** The call carries the admitted event's own fields, the decision's, and the world's answer to it. */
  predicate Tells(a: Admitted, claimSeat: ClaimSeat, w: World, c: Call) {
    match c.action
    case Triage => true
    case Triplet(seat) => seat == claimSeat
    case Claim(patch, granted) => patch == a.patch && (granted <==> w.claim.Granted?)
    case Register(patch, accepted) => patch == a.patch && (accepted <==> w.registered)
    case FetchDiff(pr, base, head, ok) => pr == a.pr && base == a.baseSha && head == a.headSha && (ok <==> w.diff.Some?)
    case HeartbeatOn(patch) => patch == a.patch
    case RunReview(head, ok) => head == a.headSha && (ok <==> w.review.Some?)
    case HeartbeatOff => true
    case Release(patch) => patch == a.patch
    case SaveDraft(patch) => patch == a.patch
    case Post(pr, commit, verdict, posted, holder) =>
      && pr == a.pr && commit == a.headSha && w.review.Some? && verdict == w.review.value.verdict
      && (posted <==> w.posted) && (holder <==> w.claim.Granted?)
  }

  predicate AllTell(a: Admitted, claimSeat: ClaimSeat, w: World, calls: seq<Call>) {
    forall i :: 0 <= i < |calls| ==> Tells(a, claimSeat, w, calls[i])
  }

  lemma WorkTells(a: Admitted, d: Decision, w: World, mode: Mode)
    requires mode.Seat? <==> w.claim.Granted?
    ensures AllTell(a, d.claimSeat, w, Work(a, d, w, mode).calls)
  {
    assert AllTell(a, d.claimSeat, w, GiveUp(a, mode)) && AllTell(a, d.claimSeat, w, Beat(a, mode));
    assert AllTell(a, d.claimSeat, w, Unbeat(mode, None)) && AllTell(a, d.claimSeat, w, Unbeat(mode, Current(a, mode)));
    if w.review.Some? {
      assert AllTell(a, d.claimSeat, w, Publish(a, d, w, mode, w.review.value.verdict));
    }
    assert AllTell(a, d.claimSeat, w, Reviewed(a, d, w, mode).calls);
  }

  lemma TellConcat(a: Admitted, claimSeat: ClaimSeat, w: World, x: seq<Call>, y: seq<Call>)
    requires AllTell(a, claimSeat, w, x) && AllTell(a, claimSeat, w, y)
    ensures AllTell(a, claimSeat, w, x + y)
  {
  }

  lemma SeatedTells(a: Admitted, d: Decision, w: World)
    ensures AllTell(a, d.claimSeat, w, Seated(a, d, w).calls)
  {
    if w.claim.Granted? {
      WorkTells(a, d, w, Seat);
    } else {
      WorkTells(a, d, w, Extra);
    }
  }

  /** Every call of every iteration tells the truth about the event, the decision and the answers. */
  lemma CallsTell(config: Config, event: PrEvent, w: World, spend: Spend, k: nat)
    requires k < |Iteration(config, event, w, spend).calls|
    ensures var claimSeat := if CapHit(w, spend) then Skip else Asked(w).claimSeat;
            && Admit(config, event, w.clones).Some?
            && Tells(Admit(config, event, w.clones).value, claimSeat, w, Iteration(config, event, w, spend).calls[k])
  {
    var a, d := Admit(config, event, w.clones).value, Logged(w, spend);
    AdmittedCalls(config, event, w, spend, a);
    assert AllTell(a, d.claimSeat, w, Head(d, w));
    SeatedTells(a, d, w);
    TellConcat(a, d.claimSeat, w, Head(d, w), if Goes(config, event, w, spend) then Seated(a, d, w).calls else []);
  }

  // ----- In which order --------------------------------------------------------------------------

  /** The place of a call in the order of an iteration; heartbeats and releases have none. */
  function Rank(a: Action): Option<nat> {
    match a
    case Triage => Some(0)
    case Triplet(_) => Some(1)
    case Claim(_, _) => Some(2)
    case Register(_, _) => Some(3)
    case FetchDiff(_, _, _, _) => Some(4)
    case RunReview(_, _) => Some(5)
    case SaveDraft(_) => Some(6)
    case Post(_, _, _, _, _) => Some(6)
    case _ => None
  }

  /** Ranks go up from call to call, from `lo` on and below `hi`. */
  predicate Ordered(calls: seq<Call>, lo: nat, hi: nat) {
    && (forall i :: 0 <= i < |calls| && Rank(calls[i].action).Some? ==> lo <= Rank(calls[i].action).value < hi)
    && forall i, j :: 0 <= i < j < |calls| && Rank(calls[i].action).Some? && Rank(calls[j].action).Some? ==>
         Rank(calls[i].action).value < Rank(calls[j].action).value
  }

  lemma OrderedConcat(a: seq<Call>, b: seq<Call>, lo: nat, mid: nat, hi: nat)
    requires lo <= mid <= hi && Ordered(a, lo, mid) && Ordered(b, mid, hi)
    ensures Ordered(a + b, lo, hi)
  {
  }

  lemma PublishOrdered(a: Admitted, d: Decision, w: World, mode: Mode, verdict: string)
    ensures Ordered(Publish(a, d, w, mode, verdict), 6, 7)
  {
  }

  lemma ReviewedOrdered(a: Admitted, d: Decision, w: World, mode: Mode)
    ensures Ordered(Reviewed(a, d, w, mode).calls, 5, 7)
  {
    var cur := Current(a, mode);
    var review := Call(RunReview(a.headSha, w.review.Some?), cur);
    match w.review
    case None =>
      OrderedConcat([review], GiveUp(a, mode), 5, 6, 7);
      OrderedConcat([review] + GiveUp(a, mode), Unbeat(mode, None), 5, 7, 7);
    case Some(r) =>
      PublishOrdered(a, d, w, mode, r.verdict);
      OrderedConcat([review], Unbeat(mode, cur), 5, 6, 6);
      OrderedConcat([review] + Unbeat(mode, cur), Publish(a, d, w, mode, r.verdict), 5, 6, 7);
  }

  lemma WorkOrdered(a: Admitted, d: Decision, w: World, mode: Mode)
    ensures Ordered(Work(a, d, w, mode).calls, 4, 7)
  {
    var fetch := Call(FetchDiff(a.pr, a.baseSha, a.headSha, w.diff.Some?), Current(a, mode));
    if w.diff.None? {
      OrderedConcat([fetch], GiveUp(a, mode), 4, 5, 7);
    } else {
      ReviewedOrdered(a, d, w, mode);
      OrderedConcat([fetch], Beat(a, mode), 4, 5, 5);
      OrderedConcat([fetch] + Beat(a, mode), Reviewed(a, d, w, mode).calls, 4, 5, 7);
    }
  }

  lemma SeatedOrdered(a: Admitted, d: Decision, w: World)
    ensures Ordered(Seated(a, d, w).calls, 2, 7)
  {
    var claim, register := Call(Claim(a.patch, w.claim.Granted?), None), Call(Register(a.patch, w.registered), None);
    if w.claim.Granted? {
      WorkOrdered(a, d, w, Seat);
      OrderedConcat([claim], Work(a, d, w, Seat).calls, 2, 4, 7);
    } else {
      WorkOrdered(a, d, w, Extra);
      OrderedConcat([claim, register], Work(a, d, w, Extra).calls, 2, 4, 7);
    }
  }

  /** In every iteration triage, log, claim, registration, fetch, review and publication come in this order. */
  lemma CallsAreOrdered(config: Config, event: PrEvent, w: World, spend: Spend)
    ensures Ordered(Iteration(config, event, w, spend).calls, 0, 7)
  {
    match Admit(config, event, w.clones)
    case None =>
    case Some(a) =>
      AdmittedCalls(config, event, w, spend, a);
      AdmittedOrdered(a, Logged(w, spend), w, Goes(config, event, w, spend));
  }

  lemma AdmittedOrdered(a: Admitted, d: Decision, w: World, goes: bool)
    ensures Ordered(Head(d, w) + (if goes then Seated(a, d, w).calls else []), 0, 7)
  {
    assert Ordered(Head(d, w), 0, 2);
    SeatedOrdered(a, d, w);
    OrderedConcat(Head(d, w), if goes then Seated(a, d, w).calls else [], 0, 2, 7);
  }

  // ----- What is charged -------------------------------------------------------------------------

  /** An admitted event pays for its triage, and for its review if one came back; nothing else is charged. */
  lemma ChargesAreDue(config: Config, event: PrEvent, w: World, spend: Spend)
    ensures Iteration(config, event, w, spend).charges ==
            if Admit(config, event, w.clones).None? then []
            else [Charge(w.triageDay, if w.rules then w.triageCost else 0.0, false)]
                 + (if Goes(config, event, w, spend) then ReviewCharge(w) else [])
  {
    match Admit(config, event, w.clones)
    case None =>
    case Some(a) =>
      AdmittedCharges(config, event, w, spend, a);
      if Goes(config, event, w, spend) {
        SeatedCharges(a, Asked(w), w);
      }
  }

  /** The cost of the review, if the listener was placed, had the diff, and a review came back. */
  function ReviewCharge(w: World): seq<Charge> {
    if Placed(w) && w.diff.Some? && w.review.Some? then [Charge(w.reviewDay, w.review.value.cost, true)] else []
  }

  lemma AdmittedCharges(config: Config, event: PrEvent, w: World, spend: Spend, a: Admitted)
    requires Admit(config, event, w.clones) == Some(a)
    ensures Iteration(config, event, w, spend).charges
         == [Charge(w.triageDay, if w.rules then w.triageCost else 0.0, false)]
            + (if Goes(config, event, w, spend) then Seated(a, Logged(w, spend), w).charges else [])
  {
    DecisionIsLogged(w, spend);
    var charge := Charge(w.triageDay, if w.rules then w.triageCost else 0.0, false);
    assert [charge] + [] == [charge];
  }

  lemma SeatedCharges(a: Admitted, d: Decision, w: World)
    requires d.claimSeat == Asked(w).claimSeat
    ensures Seated(a, d, w).charges == ReviewCharge(w)
  {
  }
}
