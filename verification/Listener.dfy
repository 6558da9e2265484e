/**
 * The event loop of `stamp pr listen` (src/commands/prListen.ts): for each event the checks, the
 * triage, the spend cap, the seat, the diff, the review and the post.
 */
module Listener {
  import opened Results
  import opened Strings
  import opened Admission

  // ----- Inputs --------------------------------------------------------------------------------

  datatype ClaimSeat = Skip | IfAvailable | Always
  datatype PostMode = AutoPost | Draft | DryRun

  datatype Decision = Decision(claimSeat: ClaimSeat, postMode: PostMode, prompt: string, cap: Option<real>)

  const FALLBACK_DECISION := Decision(IfAvailable, AutoPost, "default", None)

  datatype ClaimResult = Granted | Rejected(seatsFull: bool) | Failed

  datatype Review = Review(body: string, verdict: string, cost: real)

  /** One call of `addDailySpend`: the local day it falls on, the amount, and whether a review ran it up. */
  datatype Charge = Charge(day: string, amount: real, review: bool)

  /**
   * How the outside world answers while one event is handled: the local clones, the triage (with
   * no rules file there is none), the prompt file, the server, GitHub, the reviewer and the disk.
   */
  datatype World = World(
    clones: map<string, Clone>,
    rules: bool, triage: Decision, triageCost: real, triageDay: string,
    promptFound: bool, claim: ClaimResult, registered: bool,
    diff: Option<string>, review: Option<Review>, reviewDay: string,
    draftSaved: bool, posted: bool)

  // ----- Calls to the outside ------------------------------------------------------------------

  datatype Action =
    | Triage
    | Triplet(claimSeat: ClaimSeat)
    | Claim(patch: string, granted: bool)
    | Register(patch: string, accepted: bool)
    | FetchDiff(pr: PrUrl, base: string, head: string, fetched: bool)
    | HeartbeatOn(patch: string)
    | RunReview(head: string, reviewed: bool)
    | HeartbeatOff
    | Release(patch: string)
    | SaveDraft(patch: string)
    | Post(pr: PrUrl, commit: string, verdict: string, posted: bool, holder: bool)

  /** A call, and the seat that the SIGINT handler would release while the call is in progress. */
  datatype Call = Call(action: Action, current: Option<string>)

  // ----- One iteration, as a function ----------------------------------------------------------

  datatype Spend = Spend(total: real, day: string)

  /** `addDailySpend`. */
  function AddDailySpend(s: Spend, c: Charge): Spend {
    if c.day != s.day then Spend(0.0 + c.amount, c.day) else Spend(s.total + c.amount, s.day)
  }

  function TriageDecision(w: World): Decision {
    if w.rules then w.triage else FALLBACK_DECISION
  }

  function TriageCharge(w: World): Charge {
    Charge(w.triageDay, if w.rules then w.triageCost else 0.0, false)
  }

  /** The cap: a positive cap that the day's spend has reached turns a claim into a skip. */
  function Capped(d: Decision, spent: real): Decision {
    if d.cap.Some? && d.cap.value > 0.0 && spent >= d.cap.value && !d.claimSeat.Skip?
    then d.(claimSeat := Skip) else d
  }

  /** What one event adds: calls in order, and charges in order. */
  datatype Segment = Segment(calls: seq<Call>, charges: seq<Charge>)

  datatype Mode = Seat | Extra

  function Current(a: Admitted, mode: Mode): Option<string> {
    if mode.Seat? then Some(a.patch) else None
  }

  /** `currentSeatPatchId = null; await callReleaseSeat(...)`, for seat holders only. */
  function GiveUp(a: Admitted, mode: Mode): seq<Call> {
    if mode.Seat? then [Call(Release(a.patch), None)] else []
  }

  predicate HexAnyCase(s: string) {
    |s| == 40 && forall i :: 0 <= i < |s| ==> HexDigit(s[i]) || 'A' <= s[i] <= 'F'
  }

  function Publish(a: Admitted, d: Decision, w: World, mode: Mode, verdict: string): seq<Call> {
    var cur := Current(a, mode);
    match d.postMode
    case Draft =>
      if !HexAnyCase(a.patch) then GiveUp(a, mode)
      else [Call(SaveDraft(a.patch), cur)] + GiveUp(a, mode)
    case DryRun => GiveUp(a, mode)
    case AutoPost =>
      [Call(Post(a.pr, a.headSha, verdict, w.posted, mode.Seat?), cur)]
      + (if w.posted then [] else GiveUp(a, mode))
  }

  function Beat(a: Admitted, mode: Mode): seq<Call> {
    if mode.Seat? then [Call(HeartbeatOn(a.patch), Current(a, mode))] else []
  }

  /** `clearHeartbeat()` in the `finally`: it stops a heartbeat if there is one. */
  function Unbeat(mode: Mode, current: Option<string>): seq<Call> {
    if mode.Seat? then [Call(HeartbeatOff, current)] else []
  }

  /** The review, the end of the heartbeat, and what becomes of the review. */
  function Reviewed(a: Admitted, d: Decision, w: World, mode: Mode): Segment {
    var review := Call(RunReview(a.headSha, w.review.Some?), Current(a, mode));
    match w.review
    case None => Segment([review] + GiveUp(a, mode) + Unbeat(mode, None), [])
    case Some(r) => Segment(
      [review] + Unbeat(mode, Current(a, mode)) + Publish(a, d, w, mode, r.verdict),
      [Charge(w.reviewDay, r.cost, true)])
  }

  function Work(a: Admitted, d: Decision, w: World, mode: Mode): Segment {
    var fetch := Call(FetchDiff(a.pr, a.baseSha, a.headSha, w.diff.Some?), Current(a, mode));
    if w.diff.None? then Segment([fetch] + GiveUp(a, mode), [])
    else
      var r := Reviewed(a, d, w, mode);
      Segment([fetch] + Beat(a, mode) + r.calls, r.charges)
  }

  function Seated(a: Admitted, d: Decision, w: World): Segment {
    var claim := Call(Claim(a.patch, w.claim.Granted?), None);
    match w.claim
    case Granted =>
      var r := Work(a, d, w, Seat);
      Segment([claim] + r.calls, r.charges)
    case Rejected(seatsFull) =>
      if !seatsFull || !d.claimSeat.Always? then Segment([claim], [])
      else
        var register := Call(Register(a.patch, w.registered), None);
        if !w.registered then Segment([claim, register], [])
        else
          var r := Work(a, d, w, Extra);
          Segment([claim, register] + r.calls, r.charges)
    case Failed => Segment([claim], [])
  }

  /** Before any claim: the triage call when there are rules, then the logged triplet. */
  function Head(d: Decision, w: World): seq<Call> {
    (if w.rules then [Call(Triage, None)] else []) + [Call(Triplet(d.claimSeat), None)]
  }

  function Iteration(config: Config, event: PrEvent, w: World, spend: Spend): Segment {
    match Admit(config, event, w.clones)
    case None => Segment([], [])
    case Some(a) =>
      var charge := TriageCharge(w);
      var d := Capped(TriageDecision(w), AddDailySpend(spend, charge).total);
      var head := Head(d, w);
      if d.claimSeat.Skip? || (d.prompt != "default" && !w.promptFound) then Segment(head, [charge])
      else
        var r := Seated(a, d, w);
        Segment(head + r.calls, [charge] + r.charges)
  }

  function AddAll(s: Spend, charges: seq<Charge>): Spend
    decreases |charges|
  {
    if charges == [] then s else AddAll(AddDailySpend(s, charges[0]), charges[1..])
  }

  // ----- The iteration as the loop body that updates its variables ------------------------------

  class Loop {
    const config: Config
    var currentSeatPatchId: Option<string>
    var heartbeat: Option<string>  // the patch whose heartbeat timer is running
    var dailySpend: real
    var spendDayKey: string
    ghost var calls: seq<Call>
    ghost var charges: seq<Charge>

    constructor (config: Config, today: string)
      ensures this.config == config && AtHead()
      ensures dailySpend == 0.0 && spendDayKey == today && calls == [] && charges == []
    {
      this.config := config;
      currentSeatPatchId, heartbeat := None, None;
      dailySpend, spendDayKey := 0.0, today;
      calls, charges := [], [];
    }

    /** No seat is recorded and no heartbeat runs. */
    predicate AtHead()
      reads this
    {
      currentSeatPatchId == None && heartbeat == None
    }

    ghost function Spent(): Spend
      reads this
    {
      Spend(dailySpend, spendDayKey)
    }

    ghost method Record(action: Action)
      modifies `calls
      ensures calls == old(calls) + [Call(action, currentSeatPatchId)]
    {
      calls := calls + [Call(action, currentSeatPatchId)];
    }

    method AddSpend(amount: real, today: string, ghost review: bool)
      modifies `dailySpend, `spendDayKey, `charges
      ensures charges == old(charges) + [Charge(today, amount, review)]
      ensures Spent() == AddDailySpend(old(Spent()), Charge(today, amount, review))
    {
      if today != spendDayKey {
        dailySpend := 0.0;
        spendDayKey := today;
      }
      dailySpend := dailySpend + amount;
      charges := charges + [Charge(today, amount, review)];
    }

    method ReleaseSeat(a: Admitted, mode: Mode)
      requires currentSeatPatchId == Current(a, mode)
      modifies `currentSeatPatchId, `calls
      ensures currentSeatPatchId == None && calls == old(calls) + GiveUp(a, mode)
    {
      if mode.Seat? {
        currentSeatPatchId := None;
        Record(Release(a.patch));
      }
    }

    method ClearHeartbeat(ghost mode: Mode)
      requires heartbeat.Some? <==> mode.Seat?
      modifies `heartbeat, `calls
      ensures heartbeat == None && calls == old(calls) + Unbeat(mode, currentSeatPatchId)
    {
      if heartbeat.Some? {
        heartbeat := None;
        Record(HeartbeatOff);
      }
    }

    method PublishReview(a: Admitted, d: Decision, w: World, mode: Mode, verdict: string)
      requires currentSeatPatchId == Current(a, mode)
      modifies `currentSeatPatchId, `calls
      ensures currentSeatPatchId == None && calls == old(calls) + Publish(a, d, w, mode, verdict)
    {
      if d.postMode.Draft? {
        if !HexAnyCase(a.patch) {
          ReleaseSeat(a, mode);
          return;
        }
        Record(SaveDraft(a.patch));
        ReleaseSeat(a, mode);
        return;
      }
      if d.postMode.DryRun? {
        ReleaseSeat(a, mode);
        return;
      }
      Record(Post(a.pr, a.headSha, verdict, w.posted, mode.Seat?));
      if !w.posted {
        ReleaseSeat(a, mode);
        return;
      }
      if mode.Seat? {
        currentSeatPatchId := None;
      }
    }

    method FetchReviewPublish(a: Admitted, d: Decision, w: World, mode: Mode)
      requires currentSeatPatchId == Current(a, mode) && heartbeat == None
      modifies this
      ensures AtHead()
      ensures calls == old(calls) + Work(a, d, w, mode).calls
      ensures charges == old(charges) + Work(a, d, w, mode).charges
      ensures Spent() == AddAll(old(Spent()), Work(a, d, w, mode).charges)
    {
      ghost var fetch := Call(FetchDiff(a.pr, a.baseSha, a.headSha, w.diff.Some?), currentSeatPatchId);
      Record(fetch.action);
      if w.diff.None? {
        ReleaseSeat(a, mode);
        Assoc(old(calls), [fetch], GiveUp(a, mode));
        return;
      }
      StartHeartbeat(a, mode);
      Assoc(old(calls), [fetch], Beat(a, mode));
      Reviewing(a, d, w, mode);
      Assoc(old(calls), [fetch] + Beat(a, mode), Reviewed(a, d, w, mode).calls);
    }

    method StartHeartbeat(a: Admitted, mode: Mode)
      requires currentSeatPatchId == Current(a, mode) && heartbeat == None
      modifies `heartbeat, `calls
      ensures heartbeat == Current(a, mode) && calls == old(calls) + Beat(a, mode)
    {
      if mode.Seat? {
        heartbeat := Some(a.patch);
        Record(HeartbeatOn(a.patch));
      }
    }

    method Reviewing(a: Admitted, d: Decision, w: World, mode: Mode)
      requires currentSeatPatchId == Current(a, mode) == heartbeat
      modifies this
      ensures AtHead()
      ensures calls == old(calls) + Reviewed(a, d, w, mode).calls
      ensures charges == old(charges) + Reviewed(a, d, w, mode).charges
      ensures Spent() == AddAll(old(Spent()), Reviewed(a, d, w, mode).charges)
    {
      ghost var review := Call(RunReview(a.headSha, w.review.Some?), currentSeatPatchId);
      Record(review.action);
      if w.review.None? {
        ReleaseSeat(a, mode);
        ClearHeartbeat(mode);
        Assoc(old(calls), [review], GiveUp(a, mode));
        Assoc(old(calls), [review] + GiveUp(a, mode), Unbeat(mode, None));
        return;
      }
      AddSpend(w.review.value.cost, w.reviewDay, true);
      AddAllCons(old(Spent()), Charge(w.reviewDay, w.review.value.cost, true), []);
      ghost var off := Unbeat(mode, currentSeatPatchId);
      ClearHeartbeat(mode);
      PublishReview(a, d, w, mode, w.review.value.verdict);
      Assoc(old(calls), [review], off);
      Assoc(old(calls), [review] + off, Publish(a, d, w, mode, w.review.value.verdict));
    }

    method HandleEvent(event: PrEvent, w: World)
      requires AtHead()
      modifies this
      ensures AtHead()
      ensures calls == old(calls) + Iteration(config, event, w, old(Spent())).calls
      ensures charges == old(charges) + Iteration(config, event, w, old(Spent())).charges
      ensures Spent() == AddAll(old(Spent()), Iteration(config, event, w, old(Spent())).charges)
    {
      var admitted := Admit(config, event, w.clones);
      if admitted.None? {
        return;
      }
      var a := admitted.value;
      ghost var spend, charge := Spent(), TriageCharge(w);
      var decision := DecideAndLog(w);
      if decision.claimSeat.Skip? {
        return;
      }
      if decision.prompt != "default" && !w.promptFound {
        return;
      }
      ghost var rest := Seated(a, decision, w);
      ClaimAndWork(a, decision, w);
      Assoc(old(calls), Head(decision, w), rest.calls);
      Assoc(old(charges), [charge], rest.charges);
      AddAllCons(spend, charge, rest.charges);
    }

    /** Triage, the spend it adds, the cap, and the logged triplet. */
    method DecideAndLog(w: World) returns (decision: Decision)
      requires AtHead()
      modifies this
      ensures AtHead()
      ensures decision == Capped(TriageDecision(w), AddDailySpend(old(Spent()), TriageCharge(w)).total)
      ensures calls == old(calls) + Head(decision, w)
      ensures charges == old(charges) + [TriageCharge(w)]
      ensures Spent() == AddDailySpend(old(Spent()), TriageCharge(w))
    {
      decision := FALLBACK_DECISION;
      var cost := 0.0;
      if w.rules {
        Record(Triage);
        decision, cost := w.triage, w.triageCost;
      }
      AddSpend(cost, w.triageDay, false);
      if decision.cap.Some? && decision.cap.value > 0.0 && dailySpend >= decision.cap.value
         && (decision.claimSeat.IfAvailable? || decision.claimSeat.Always?) {
        decision := decision.(claimSeat := Skip);
      }
      Record(Triplet(decision.claimSeat));
    }

    method ClaimAndWork(a: Admitted, d: Decision, w: World)
      requires AtHead()
      modifies this
      ensures AtHead()
      ensures calls == old(calls) + Seated(a, d, w).calls
      ensures charges == old(charges) + Seated(a, d, w).charges
      ensures Spent() == AddAll(old(Spent()), Seated(a, d, w).charges)
    {
      ghost var begun := [Call(Claim(a.patch, w.claim.Granted?), None)];
      Record(Claim(a.patch, w.claim.Granted?));
      var mode;
      match w.claim {
        case Granted =>
          mode := Seat;
          currentSeatPatchId := Some(a.patch);
        case Rejected(seatsFull) =>
          if !seatsFull || !d.claimSeat.Always? {
            return;
          }
          ghost var register := Call(Register(a.patch, w.registered), None);
          Record(register.action);
          Assoc(old(calls), begun, [register]);
          begun := begun + [register];
          if !w.registered {
            return;
          }
          mode := Extra;
        case Failed => return;
      }
      FetchReviewPublish(a, d, w, mode);
      Assoc(old(calls), begun, Work(a, d, w, mode).calls);
    }

    /** The loop itself, until the event source is drained. */
    method Run(events: seq<PrEvent>, worlds: seq<World>)
      requires AtHead() && |events| == |worlds|
      modifies this
      ensures AtHead()
      ensures calls == old(calls) + RunFrom(config, events, worlds, old(Spent())).calls
      ensures charges == old(charges) + RunFrom(config, events, worlds, old(Spent())).charges
      ensures Spent() == AddAll(old(Spent()), RunFrom(config, events, worlds, old(Spent())).charges)
    {
      var i := 0;
      assert events[0..] == events && worlds[0..] == worlds;
      while i < |events|
        invariant i <= |events| && AtHead()
        invariant Ahead(config, events, worlds, i, calls, charges, Spent())
               == Ahead(config, events, worlds, 0, old(calls), old(charges), old(Spent()))
      {
        OneAhead(config, events, worlds, i, calls, charges, Spent());
        HandleEvent(events[i], worlds[i]);
        i := i + 1;
      }
      assert calls + [] == calls && charges + [] == charges;
    }
  }

  lemma {:induction false} AddAllCons(s: Spend, c: Charge, rest: seq<Charge>)
    ensures AddAll(s, [c] + rest) == AddAll(AddDailySpend(s, c), rest)
    ensures AddAll(s, [c]) == AddDailySpend(s, c)
  {
    assert ([c] + rest)[1..] == rest && [c][1..] == [];
  }

  lemma {:induction false} AddAllConcat(s: Spend, a: seq<Charge>, b: seq<Charge>)
    ensures AddAll(s, a + b) == AddAll(AddAll(s, a), b)
    decreases |a|
  {
    if a == [] {
      assert a + b == b;
    } else {
      assert (a + b)[1..] == a[1..] + b;
      AddAllConcat(AddDailySpend(s, a[0]), a[1..], b);
    }
  }

  /** The records once a segment has been added to them. */
  ghost function Finish(calls: seq<Call>, charges: seq<Charge>, s: Spend, seg: Segment): (seq<Call>, seq<Charge>, Spend) {
    (calls + seg.calls, charges + seg.charges, AddAll(s, seg.charges))
  }

  lemma {:induction false} FinishThen(calls: seq<Call>, charges: seq<Charge>, s: Spend, first: Segment, rest: Segment)
    ensures Finish(calls, charges, s, Segment(first.calls + rest.calls, first.charges + rest.charges))
         == Finish(calls + first.calls, charges + first.charges, AddAll(s, first.charges), rest)
  {
    Assoc(calls, first.calls, rest.calls);
    Assoc(charges, first.charges, rest.charges);
    AddAllConcat(s, first.charges, rest.charges);
  }

  function RunFrom(config: Config, events: seq<PrEvent>, worlds: seq<World>, spend: Spend): Segment
    requires |events| == |worlds|
    decreases |events|
  {
    if events == [] then Segment([], [])
    else
      var first := Iteration(config, events[0], worlds[0], spend);
      var rest := RunFrom(config, events[1..], worlds[1..], AddAll(spend, first.charges));
      Segment(first.calls + rest.calls, first.charges + rest.charges)
  }

  /** The records at the end of the run, from those before event `i`. */
  ghost function Ahead(config: Config, events: seq<PrEvent>, worlds: seq<World>, i: nat,
      calls: seq<Call>, charges: seq<Charge>, s: Spend): (seq<Call>, seq<Charge>, Spend)
    requires i <= |events| == |worlds|
  {
    Finish(calls, charges, s, RunFrom(config, events[i..], worlds[i..], s))
  }

  lemma {:induction false} OneAhead(config: Config, events: seq<PrEvent>, worlds: seq<World>, i: nat,
      calls: seq<Call>, charges: seq<Charge>, s: Spend)
    requires i < |events| == |worlds|
    ensures var first := Iteration(config, events[i], worlds[i], s);
            Ahead(config, events, worlds, i, calls, charges, s) ==
            Ahead(config, events, worlds, i + 1, calls + first.calls, charges + first.charges, AddAll(s, first.charges))
  {
    var first := Iteration(config, events[i], worlds[i], s);
    var later := RunFrom(config, events[i..][1..], worlds[i..][1..], AddAll(s, first.charges));
    FinishThen(calls, charges, s, first, later);
    assert events[i..][1..] == events[i + 1..] && worlds[i..][1..] == worlds[i + 1..];
  }
}
