/**
 * From the event stream to the event loop of `stamp pr listen` (src/commands/prListen.ts): the
 * one-slot promise queue of each connection, and the loop that reconnects with growing delays.
 */
module Delivery {
  import opened Results
  import opened Strings

  // ----- The queue of one connection -----------------------------------------------------------

  /** A promise, by its number, and what it resolved to; `None` stands for `null`. */
  datatype Settlement<E> = Settlement(promise: nat, value: Option<E>)

  /**
   * `pending` is the promise whose resolver is stored; `issued` counts the promises made and
   * `settled` lists what those that resolved carry.
   */
  datatype Queue<E> = Queue(
    queue: seq<E>, pending: Option<nat>, ended: bool, issued: nat, settled: seq<Settlement<E>>)

  datatype QueueOp<E> = Deliver(event: E) | SignalEnd | NextEvent

  function NewQueue<E>(): Queue<E> {
    Queue([], None, false, 0, [])
  }

  function Settle<E>(q: Queue<E>, promise: nat, value: Option<E>): Queue<E> {
    q.(settled := q.settled + [Settlement(promise, value)])
  }

  function QueueStep<E>(q: Queue<E>, op: QueueOp<E>): Queue<E> {
    match op
    case Deliver(event) =>
      if q.pending.Some? then Settle(q.(pending := None), q.pending.value, Some(event))
      else q.(queue := q.queue + [event])
    case SignalEnd =>
      var e := q.(ended := true);
      if q.pending.Some? then Settle(e.(pending := None), q.pending.value, None) else e
    case NextEvent =>
      var p := q.(issued := q.issued + 1);
      if q.queue != [] then Settle(p.(queue := q.queue[1..]), q.issued, Some(q.queue[0]))
      else if q.ended then Settle(p, q.issued, None)
      else p.(pending := Some(q.issued))
  }

  /** The same queue as the closures that update it in place. */
  class EventQueue<E> {
    var queue: seq<E>
    var pendingResolve: Option<nat>
    var ended: bool
    var issued: nat
    var settled: seq<Settlement<E>>

    function Value(): Queue<E>
      reads this
    {
      Queue(queue, pendingResolve, ended, issued, settled)
    }

    constructor ()
      ensures Value() == NewQueue()
    {
      queue, pendingResolve, ended, issued, settled := [], None, false, 0, [];
    }

    method Deliver(event: E)
      modifies this
      ensures Value() == QueueStep(old(Value()), QueueOp.Deliver(event))
    {
      if pendingResolve.Some? {
        settled := settled + [Settlement(pendingResolve.value, Some(event))];
        pendingResolve := None;
      } else {
        queue := queue + [event];
      }
    }

    method SignalEnd()
      modifies this
      ensures Value() == QueueStep(old(Value()), QueueOp.SignalEnd)
    {
      ended := true;
      if pendingResolve.Some? {
        settled := settled + [Settlement(pendingResolve.value, None)];
        pendingResolve := None;
      }
    }

    method NextEvent()
      modifies this
      ensures Value() == QueueStep(old(Value()), QueueOp.NextEvent)
    {
      var promise := issued;
      issued := issued + 1;
      if queue != [] {
        settled := settled + [Settlement(promise, Some(queue[0]))];
        queue := queue[1..];
        return;
      }
      if ended {
        settled := settled + [Settlement(promise, None)];
        return;
      }
      pendingResolve := Some(promise);
    }
  }

  function QueueRun<E>(ops: seq<QueueOp<E>>): Queue<E> {
    if ops == [] then NewQueue() else QueueStep(QueueRun(ops[..|ops| - 1]), ops[|ops| - 1])
  }

  function Delivered<E>(ops: seq<QueueOp<E>>): seq<E> {
    if ops == [] then []
    else Delivered(ops[..|ops| - 1]) + (match ops[|ops| - 1] case Deliver(e) => [e] case _ => [])
  }

  /** The events among the values promises resolved to, in the order they resolved. */
  function Handed<E>(settled: seq<Settlement<E>>): seq<E> {
    if settled == [] then []
    else
      var last := settled[|settled| - 1].value;
      Handed(settled[..|settled| - 1]) + (if last.Some? then [last.value] else [])
  }

  lemma {:induction false} HandedSnoc<E>(settled: seq<Settlement<E>>, s: Settlement<E>)
    ensures Handed(settled + [s]) == Handed(settled) + (if s.value.Some? then [s.value.value] else [])
  {
    assert (settled + [s])[..|settled|] == settled;
  }

  /** How often a promise was asked for while another was still open. */
  function Overwritten<E>(ops: seq<QueueOp<E>>): nat {
    if ops == [] then 0
    else
      var before := ops[..|ops| - 1];
      Overwritten(before)
      + (if ops[|ops| - 1].NextEvent? && QueueRun(before).pending.Some? then 1 else 0)
  }

  ghost predicate QueueInv<E>(q: Queue<E>) {
    && (q.pending.Some? ==> q.queue == [] && !q.ended && q.issued > 0 && q.pending.value == q.issued - 1)
    && (forall i :: 0 <= i < |q.settled| ==> q.settled[i].promise < q.issued)
    && (q.pending.Some? ==> forall i :: 0 <= i < |q.settled| ==> q.settled[i].promise < q.pending.value)
    && (forall i, j :: 0 <= i < j < |q.settled| ==> q.settled[i].promise < q.settled[j].promise)
  }

  lemma QueueStepKeepsInv<E>(q: Queue<E>, op: QueueOp<E>)
    requires QueueInv(q)
    ensures QueueInv(QueueStep(q, op))
  {
  }

  /** Events handed over and events waiting, oldest first. */
  function Flow<E>(q: Queue<E>): seq<E> { Handed(q.settled) + q.queue }

  lemma DeliverFlow<E>(q: Queue<E>, event: E)
    requires QueueInv(q)
    ensures Flow(QueueStep(q, Deliver(event))) == Flow(q) + [event]
  {
    if q.pending.Some? {
      HandedSnoc(q.settled, Settlement(q.pending.value, Some(event)));
      assert Handed(q.settled) + [event] + [] == Handed(q.settled) + [] + [event];
    } else {
      assert Handed(q.settled) + (q.queue + [event]) == Handed(q.settled) + q.queue + [event];
    }
  }

  lemma EndFlow<E>(q: Queue<E>)
    requires QueueInv(q)
    ensures Flow(QueueStep(q, SignalEnd)) == Flow(q)
  {
    if q.pending.Some? {
      HandedSnoc(q.settled, Settlement(q.pending.value, None));
      assert Handed(q.settled) + [] == Handed(q.settled);
    }
  }

  lemma NextFlow<E>(q: Queue<E>)
    requires QueueInv(q)
    ensures Flow(QueueStep(q, NextEvent)) == Flow(q)
  {
    if q.queue != [] {
      HandedSnoc(q.settled, Settlement(q.issued, Some(q.queue[0])));
      assert Handed(q.settled) + [q.queue[0]] + q.queue[1..] == Handed(q.settled) + q.queue;
    } else if q.ended {
      HandedSnoc(q.settled, Settlement(q.issued, None));
      assert Handed(q.settled) + [] == Handed(q.settled);
    }
  }

  lemma QueueStepKeeps<E>(q: Queue<E>, op: QueueOp<E>)
    requires QueueInv(q)
    ensures QueueInv(QueueStep(q, op))
    ensures Flow(QueueStep(q, op)) == Flow(q) + (if op.Deliver? then [op.event] else [])
  {
    QueueStepKeepsInv(q, op);
    assert Flow(q) + [] == Flow(q);
    match op
    case Deliver(event) => DeliverFlow(q, event);
    case SignalEnd => EndFlow(q);
    case NextEvent => NextFlow(q);
  }

  /** No event is lost, duplicated or reordered, whatever the order of calls. */
  lemma {:induction false} EventsConserved<E>(ops: seq<QueueOp<E>>)
    ensures QueueInv(QueueRun(ops))
    ensures Flow(QueueRun(ops)) == Delivered(ops)
  {
    if ops != [] {
      var before, op := ops[..|ops| - 1], ops[|ops| - 1];
      EventsConserved(before);
      QueueStepKeeps(QueueRun(before), op);
    }
  }

  /** Every promise is resolved or is the one waiting, exactly when none was asked for over another. */
  lemma {:induction false} EveryPromiseKept<E>(ops: seq<QueueOp<E>>)
    ensures var q := QueueRun(ops);
            && q.issued == |q.settled| + (if q.pending.Some? then 1 else 0) + Overwritten(ops)
            && (Overwritten(ops) == 0 ==> forall i :: 0 <= i < |q.settled| ==> q.settled[i].promise == i)
  {
    if ops != [] {
      EveryPromiseKept(ops[..|ops| - 1]);
      EventsConserved(ops[..|ops| - 1]);
    }
  }

  /** A promise resolves to `null` only at or after the end, and with every event handed over. */
  lemma {:induction false} NullMeansDrained<E>(ops: seq<QueueOp<E>>, op: QueueOp<E>)
    requires var q, r := QueueRun(ops), QueueStep(QueueRun(ops), op);
             |r.settled| > |q.settled| && r.settled[|q.settled|].value.None?
    ensures var r := QueueStep(QueueRun(ops), op);
            r.ended && Handed(r.settled) == Delivered(ops + [op])
  {
    assert (ops + [op])[..|ops|] == ops;
    EventsConserved(ops);
    EventsConserved(ops + [op]);
    var r := QueueRun(ops + [op]);
    assert r.queue == [];
    assert Handed(r.settled) + [] == Handed(r.settled);
  }

  /** Once the connection has ended, asking never waits. */
  lemma {:induction false} NeverWaitsAfterEnd<E>(ops: seq<QueueOp<E>>)
    ensures SignalEnd in ops ==> QueueRun(ops).ended && QueueRun(ops).pending.None?
  {
    if ops != [] {
      var before, op := ops[..|ops| - 1], ops[|ops| - 1];
      assert ops == before + [op];
      NeverWaitsAfterEnd(before);
    }
  }

  // ----- Growing delays ------------------------------------------------------------------------

  const BACKOFF_BASE_MS := 1_000
  const BACKOFF_CAP_MS := 60_000

  function Pow2(n: nat): nat {
    if n == 0 then 1 else 2 * Pow2(n - 1)
  }

  /** `Math.min(BACKOFF_CAP_MS, BACKOFF_BASE_MS * 2 ** attempt)`. */
  function Delay(attempt: nat): nat {
    var d := BACKOFF_BASE_MS * Pow2(attempt);
    if d < BACKOFF_CAP_MS then d else BACKOFF_CAP_MS
  }

  function Total(sleeps: seq<nat>): nat {
    if sleeps == [] then 0 else Total(sleeps[..|sleeps| - 1]) + sleeps[|sleeps| - 1]
  }

  /** The delays are those of attempts 0, 1, 2, ... */
  predicate Backoff(sleeps: seq<nat>) {
    forall i :: 0 <= i < |sleeps| ==> sleeps[i] == Delay(i)
  }

  lemma {:induction false} Pow2Grows(n: nat)
    ensures n >= 6 ==> Pow2(n) >= 64
    ensures Pow2(n + 1) >= Pow2(n) >= 1
  {
    if n == 6 {
      assert Pow2(6) == 2 * Pow2(5) && Pow2(5) == 2 * Pow2(4) && Pow2(4) == 2 * Pow2(3);
      assert Pow2(3) == 8;
    }
    if n > 0 {
      Pow2Grows(n - 1);
    }
  }

  lemma DelayBounds(i: nat)
    ensures BACKOFF_BASE_MS <= Delay(i) <= Delay(i + 1) <= BACKOFF_CAP_MS
  {
    Pow2Grows(i);
  }

  lemma {:induction false} BackoffTotal(sleeps: seq<nat>)
    requires Backoff(sleeps)
    ensures var n := |sleeps|;
            && (n <= 6 ==> Total(sleeps) == 1_000 * (Pow2(n) - 1))
            && (n >= 6 ==> Total(sleeps) == 63_000 + 60_000 * (n - 6))
  {
    var n := |sleeps|;
    if n > 0 {
      var front := sleeps[..n - 1];
      BackoffTotal(front);
      Pow2Grows(n - 1);
      assert sleeps[n - 1] == Delay(n - 1);
      if n <= 6 {
        assert Pow2(n - 1) <= 32 by { SmallPow2(n - 1); }
      }
      if n == 6 {
        SmallPow2(5);
      }
    }
  }

  lemma {:induction false} SmallPow2(n: nat)
    requires n <= 5
    ensures Pow2(n) <= 32 && (n == 5 ==> Pow2(n) == 32)
  {
    assert Pow2(5) == 2 * Pow2(4) && Pow2(4) == 2 * Pow2(3) && Pow2(3) == 2 * Pow2(2);
    assert Pow2(2) == 4 && Pow2(1) == 2 && Pow2(0) == 1;
  }

  // ----- The reconnecting loop -----------------------------------------------------------------

  datatype Answer = Connected | Refused(status: Option<int>)

  /** What happens between two resumptions of the loop, and the resumptions. */
  datatype Input<E> =
    | Arrive(event: E)         // a parsed event reaches `deliver`
    | Close                    // the stream reports end, close or error
    | Shutdown                 // SIGINT
    | Call                     // the event loop asks for the next event
    | Wake                     // a resolved promise or an expired sleep resumes the loop
    | Answered(answer: Answer) // the connect call returns

  datatype Outcome = Null | Exit1

  /** Where the loop is suspended: in the event loop, at one of its three awaits, or finished. */
  datatype Phase = Idle | Reading | Sleeping | Connecting | Stopped(outcome: Outcome)

  /**
   * `offered` and `handed` record every event that arrived and every event returned; `sleeps`
   * the delays since the last successful connect.
   */
  datatype Loop<E> = Loop(
    conn: Queue<E>, attempt: nat, shuttingDown: bool, phase: Phase,
    offered: seq<E>, handed: seq<E>, sleeps: seq<nat>)

  /** The first connect: its failure ends the program, its success leaves the attempt count at 0. */
  function Start<E>(first: Answer): Loop<E> {
    Loop(NewQueue(), 0, false, if first.Connected? then Idle else Stopped(Exit1), [], [], [])
  }

  /** The top of the outer loop. */
  function Read<E>(s: Loop<E>): Loop<E> {
    if s.shuttingDown then s.(phase := Stopped(Null))
    else s.(conn := QueueStep(s.conn, NextEvent), phase := Reading)
  }

  /** The top of the inner loop. */
  function Retry<E>(s: Loop<E>): Loop<E> {
    if s.shuttingDown then s.(phase := Stopped(Null))
    else s.(sleeps := s.sleeps + [Delay(s.attempt)], phase := Sleeping)
  }

  /** The promise being awaited has resolved. */
  predicate Resolved<E>(s: Loop<E>) {
    |s.conn.settled| == s.conn.issued > 0
  }

  function OnAnswer<E>(s: Loop<E>, answer: Answer): Loop<E> {
    match answer
    case Connected => Read(s.(conn := NewQueue(), attempt := 0, sleeps := []))
    case Refused(status) =>
      var next := s.(attempt := s.attempt + 1);
      if status == Some(401) || status == Some(403) then next.(phase := Stopped(Exit1)) else Retry(next)
  }

  function Resume<E>(s: Loop<E>): Loop<E> {
    if s.phase.Reading? && Resolved(s) then
      match s.conn.settled[|s.conn.settled| - 1].value
      case Some(event) => s.(handed := s.handed + [event], phase := Idle)
      case None => Retry(s)
    else if s.phase.Sleeping? then
      s.(phase := if s.shuttingDown then Stopped(Null) else Connecting)
    else s
  }

  /** One input; one that cannot happen in this phase changes nothing. A closed stream is silent. */
  function Step<E>(s: Loop<E>, input: Input<E>): Loop<E> {
    match input
    case Arrive(event) =>
      if s.conn.ended then s
      else s.(conn := QueueStep(s.conn, Deliver(event)), offered := s.offered + [event])
    case Close => s.(conn := QueueStep(s.conn, SignalEnd))
    case Shutdown => s.(shuttingDown := true)
    case Call => if s.phase.Idle? then Read(s) else s
    case Wake => Resume(s)
    case Answered(answer) => if s.phase.Connecting? then OnAnswer(s, answer) else s
  }

  function Run<E>(s: Loop<E>, inputs: seq<Input<E>>): Loop<E> {
    if inputs == [] then s else Step(Run(s, inputs[..|inputs| - 1]), inputs[|inputs| - 1])
  }

  lemma {:induction false} RunSnoc<E>(s: Loop<E>, inputs: seq<Input<E>>, input: Input<E>)
    ensures Run(s, inputs + [input]) == Step(Run(s, inputs), input)
  {
    assert (inputs + [input])[..|inputs|] == inputs;
  }

  // ----- What every run keeps ------------------------------------------------------------------

  /** The event that was resolved but not yet taken by the loop. */
  function InFlight<E>(s: Loop<E>): seq<E> {
    if s.phase.Reading? && Resolved(s) then
      match s.conn.settled[|s.conn.settled| - 1].value case Some(e) => [e] case None => []
    else []
  }

  ghost predicate ConnInv<E>(s: Loop<E>) {
    var c := s.conn;
    && (c.pending.Some? <==> s.phase.Reading? && !Resolved(s))
    && (s.phase.Reading? ==> c.issued > 0)
    && c.issued == |c.settled| + (if c.pending.Some? then 1 else 0)
    && (c.pending.Some? ==> c.queue == [] && !c.ended)
    && (s.phase.Reading? && Resolved(s) && c.settled[|c.settled| - 1].value.None? ==> c.ended && c.queue == [])
    && (s.phase.Sleeping? || s.phase.Connecting? ==> c.ended && c.queue == [])
  }

  ghost predicate SleepInv<E>(s: Loop<E>) {
    && Backoff(s.sleeps)
    && (s.phase.Idle? || s.phase.Reading? ==> s.attempt == 0 && s.sleeps == [])
    && (s.phase.Sleeping? || s.phase.Connecting? ==> |s.sleeps| == s.attempt + 1)
  }

  ghost predicate Inv<E>(s: Loop<E>) {
    && ConnInv(s)
    && SleepInv(s)
    && s.offered == s.handed + InFlight(s) + s.conn.queue
    && (s.phase == Stopped(Null) ==> s.shuttingDown)
  }

  lemma ReadKeeps<E>(s: Loop<E>)
    requires s.conn.pending.None? && s.conn.issued == |s.conn.settled|
    requires s.attempt == 0 && s.sleeps == [] && s.offered == s.handed + s.conn.queue
    ensures Inv(Read(s))
  {
    var r := Read(s);
    if s.shuttingDown {
      assert r.handed + [] + r.conn.queue == s.handed + s.conn.queue;
    } else if s.conn.queue != [] {
      assert InFlight(r) == [s.conn.queue[0]];
      assert r.handed + [s.conn.queue[0]] + s.conn.queue[1..] == s.handed + s.conn.queue;
    } else {
      assert r.handed + [] + [] == s.handed + [];
    }
  }

  lemma RetryKeeps<E>(s: Loop<E>)
    requires s.conn.pending.None? && s.conn.issued == |s.conn.settled| && s.conn.ended && s.conn.queue == []
    requires Backoff(s.sleeps) && |s.sleeps| == s.attempt && s.offered == s.handed
    ensures Inv(Retry(s))
  {
    var r := Retry(s);
    assert r.handed + [] + [] == s.handed;
  }

  lemma ResumeKeeps<E>(s: Loop<E>)
    requires Inv(s)
    ensures Inv(Resume(s))
  {
    if s.phase.Reading? && Resolved(s) {
      var value := s.conn.settled[|s.conn.settled| - 1].value;
      if value.Some? {
        var r := Resume(s);
        assert r.handed + [] + r.conn.queue == s.handed + [value.value] + s.conn.queue;
      } else {
        assert s.handed + [] + [] == s.handed;
        RetryKeeps(s);
      }
    } else if s.phase.Sleeping? {
      assert InFlight(Resume(s)) == [];
    }
  }

  lemma AnswerKeeps<E>(s: Loop<E>, answer: Answer)
    requires Inv(s) && s.phase.Connecting?
    ensures Inv(OnAnswer(s, answer))
  {
    assert s.handed + [] + [] == s.handed;
    if answer.Connected? {
      assert s.handed + [] == s.handed;
      ReadKeeps(s.(conn := NewQueue(), attempt := 0, sleeps := []));
    } else if answer.status != Some(401) && answer.status != Some(403) {
      RetryKeeps(s.(attempt := s.attempt + 1));
    }
  }

  lemma ArriveKeeps<E>(s: Loop<E>, event: E)
    requires Inv(s)
    ensures Inv(Step(s, Arrive(event)))
  {
    var r := Step(s, Arrive(event));
    if !s.conn.ended {
      if s.conn.pending.Some? {
        assert InFlight(r) == [event];
        assert s.handed + [event] + [] == s.handed + [] + [] + [event];
      } else {
        assert InFlight(r) == InFlight(s);
        assert s.handed + InFlight(s) + (s.conn.queue + [event]) == s.handed + InFlight(s) + s.conn.queue + [event];
      }
    }
  }

  lemma StepKeeps<E>(s: Loop<E>, input: Input<E>)
    requires Inv(s)
    ensures Inv(Step(s, input))
  {
    match input
    case Arrive(event) => ArriveKeeps(s, event);
    case Close => assert InFlight(Step(s, Close)) == InFlight(s);
    case Shutdown => assert InFlight(Step(s, Shutdown)) == InFlight(s);
    case Call =>
      if s.phase.Idle? {
        assert s.handed + [] + s.conn.queue == s.handed + s.conn.queue;
        ReadKeeps(s);
      }
    case Wake => ResumeKeeps(s);
    case Answered(answer) =>
      if s.phase.Connecting? {
        AnswerKeeps(s, answer);
      }
  }

  lemma {:induction false} RunKeeps<E>(first: Answer, inputs: seq<Input<E>>)
    ensures Inv(Run(Start<E>(first), inputs))
  {
    if inputs == [] {
      var s := Start<E>(first);
      assert s.handed + [] + [] == s.handed;
    } else {
      RunKeeps(first, inputs[..|inputs| - 1]);
      StepKeeps(Run(Start(first), inputs[..|inputs| - 1]), inputs[|inputs| - 1]);
    }
  }

  /**
   * Across any number of reconnects the events returned are a prefix, in order, of the events that
   * arrived, and all that is missing is in flight or queued; each time the loop is between
   * connections nothing is missing.
   */
  lemma {:induction false} ExactlyOnce<E>(first: Answer, inputs: seq<Input<E>>)
    ensures var s := Run(Start<E>(first), inputs);
            && s.offered == s.handed + (InFlight(s) + s.conn.queue)
            && s.handed <= s.offered
            && (s.phase.Sleeping? || s.phase.Connecting? ==> s.handed == s.offered)
  {
    RunKeeps(first, inputs);
    var s := Run(Start<E>(first), inputs);
    Assoc(s.handed, InFlight(s), s.conn.queue);
    assert s.handed + ([] + []) == s.handed;
  }

  /** While a read is suspended with nothing to resume it, the connection is open and silent. */
  lemma {:induction false} WaitsOnlyOnOpenConnection<E>(first: Answer, inputs: seq<Input<E>>)
    ensures var s := Run(Start<E>(first), inputs);
            s.phase.Reading? ==> (!Resolved(s) <==> !s.conn.ended && s.conn.queue == [] && InFlight(s) == [])
  {
    RunKeeps(first, inputs);
  }

  /** Between connects the delays are 1s, 2s, 4s ... 60s, 60s, with the closed-form total. */
  lemma {:induction false} BackoffOverRuns<E>(first: Answer, inputs: seq<Input<E>>)
    ensures var s := Run(Start<E>(first), inputs);
            && (forall i :: 0 <= i < |s.sleeps| ==> 1_000 <= s.sleeps[i] <= 60_000)
            && (forall i :: 0 < i < |s.sleeps| ==> s.sleeps[i - 1] <= s.sleeps[i])
            && (s.phase.Connecting? ==>
                  var n := s.attempt + 1;
                  && (n <= 6 ==> Total(s.sleeps) == 1_000 * (Pow2(n) - 1))
                  && (n >= 6 ==> Total(s.sleeps) == 63_000 + 60_000 * (n - 6)))
  {
    RunKeeps(first, inputs);
    var s := Run(Start<E>(first), inputs);
    BackoffIsBounded(s.sleeps);
    BackoffTotal(s.sleeps);
  }

  lemma BackoffIsBounded(sleeps: seq<nat>)
    requires Backoff(sleeps)
    ensures forall i :: 0 <= i < |sleeps| ==> 1_000 <= sleeps[i] <= 60_000
    ensures forall i :: 0 < i < |sleeps| ==> sleeps[i - 1] <= sleeps[i]
  {
    forall i | 0 <= i < |sleeps|
      ensures 1_000 <= sleeps[i] <= 60_000 && (i > 0 ==> sleeps[i - 1] <= sleeps[i])
    {
      DelayBounds(i);
      if i > 0 {
        DelayBounds(i - 1);
      }
    }
  }

  /** `answer` says the key or its grants are gone. */
  predicate Barred<E>(input: Input<E>) {
    input.Answered? && input.answer.Refused? && input.answer.status in [Some(401), Some(403)]
  }

  /** The loop gives up in exactly two ways: `null` after SIGINT, exit 1 on a 401 or 403. */
  lemma {:induction false} StopsOnlyWhenTold<E>(inputs: seq<Input<E>>)
    ensures var s := Run(Start<E>(Connected), inputs);
            && (s.shuttingDown <==> Shutdown in inputs)
            && (s.phase == Stopped(Null) ==> Shutdown in inputs)
            && (s.phase == Stopped(Exit1) ==> exists i :: 0 <= i < |inputs| && Barred(inputs[i]))
  {
    if inputs != [] {
      var n := |inputs| - 1;
      var before, input := inputs[..n], inputs[n];
      assert inputs == before + [input];
      StopsOnlyWhenTold(before);
      RunKeeps(Connected, inputs);
      var s, s' := Run(Start<E>(Connected), before), Run(Start<E>(Connected), inputs);
      if s'.phase == Stopped(Exit1) {
        if s.phase == Stopped(Exit1) {
          var i :| 0 <= i < n && Barred(before[i]);
          assert Barred(inputs[i]);
        } else {
          assert Barred(inputs[n]);
        }
      }
    }
  }

  // What SIGINT stops: the loop begins nothing more, and ends where it is next resumed.

  /** After SIGINT: no delay or connect that was not under way, and the events handed over so far. */
  ghost predicate WindsDown<E>(s: Loop<E>, r: Loop<E>) {
    && r.shuttingDown
    && (r.phase.Reading? ==> s.phase.Reading?)
    && (r.phase.Sleeping? ==> s.phase.Sleeping? && r.sleeps == s.sleeps)
    && (r.phase.Connecting? ==> s.phase.Connecting? && r.sleeps == s.sleeps)
    && s.handed <= r.handed
    && (|r.handed| == |s.handed| || (s.phase.Reading? && !r.phase.Reading? && |r.handed| == |s.handed| + 1))
  }

  /** Under SIGINT every resumption but that of a resolved event ends the loop, with null but for a 401 or 403. */
  lemma ShutResumption<E>(s: Loop<E>, input: Input<E>)
    requires s.shuttingDown
    ensures s.phase.Idle? && input.Call? ==> Step(s, input).phase == Stopped(Null)
    ensures s.phase.Sleeping? && input.Wake? ==> Step(s, input).phase == Stopped(Null)
    ensures s.phase.Reading? && input.Wake? && Resolved(s) ==>
              match s.conn.settled[|s.conn.settled| - 1].value
              case None => Step(s, input).phase == Stopped(Null)
              case Some(e) => Step(s, input).phase == Idle && Step(s, input).handed == s.handed + [e]
    ensures s.phase.Connecting? && input.Answered? ==>
              Step(s, input).phase == Stopped(if Barred(input) then Exit1 else Null)
    ensures s.phase.Stopped? ==> Step(s, input).phase == s.phase
    ensures WindsDown(s, Step(s, input))
  {
  }

  /**
   * From SIGINT on, whatever arrives: no read, no delay and no connect begins, at most the event
   * already being read is handed over, and a loop that has stopped stays stopped.
   */
  lemma {:induction false} ShutdownEnds<E>(s: Loop<E>, later: seq<Input<E>>)
    ensures WindsDown(s, Run(Step(s, Shutdown), later))
    ensures s.phase.Stopped? ==> Run(Step(s, Shutdown), later).phase == s.phase
  {
    if later != [] {
      var n := |later| - 1;
      ShutdownEnds(s, later[..n]);
      ShutResumption(Run(Step(s, Shutdown), later[..n]), later[n]);
    }
  }

  /** Without SIGINT an ended stream is reconnected: any number of refusals, then a connect, and the loop reads on. */
  function Refusals<E>(n: nat): seq<Input<E>> {
    if n == 0 then [] else Refusals(n - 1) + [Wake] + [Answered(Refused(None))]
  }

  lemma {:induction false} RefusalsAreRetried<E>(s: Loop<E>, n: nat)
    requires Inv(s) && !s.shuttingDown && s.phase.Sleeping?
    ensures var r := Run(s, Refusals(n));
            && Inv(r) && !r.shuttingDown && r.phase.Sleeping? && r.attempt == s.attempt + n
            && r.handed == s.handed && r.offered == s.offered
  {
    if n > 0 {
      RefusalsAreRetried(s, n - 1);
      var r := Run(s, Refusals(n - 1));
      RunSnoc(s, Refusals(n - 1), Wake);
      RunSnoc(s, Refusals(n - 1) + [Wake], Answered(Refused(None)));
      RefusedOnce(r);
    }
  }

  lemma RefusedOnce<E>(s: Loop<E>)
    requires Inv(s) && !s.shuttingDown && s.phase.Sleeping?
    ensures var r := Step(Step(s, Wake), Answered(Refused(None)));
            && Inv(r) && !r.shuttingDown && r.phase.Sleeping? && r.attempt == s.attempt + 1
            && r.handed == s.handed && r.offered == s.offered
  {
    StepKeeps(s, Wake);
    StepKeeps(Step(s, Wake), Answered(Refused(None)));
  }

  /** The stream ends while it is read: after n refused connects and one that stands the loop reads the new stream. */
  lemma {:induction false} EndedStreamIsReconnected<E>(s: Loop<E>, n: nat)
    requires Inv(s) && !s.shuttingDown && s.phase.Reading? && Resolved(s)
    requires s.conn.settled[|s.conn.settled| - 1].value.None?
    ensures var r := Run(Step(s, Wake), Refusals(n) + [Wake] + [Answered(Connected)]);
            && Inv(r) && r.phase.Reading? && !r.conn.ended && r.attempt == 0
            && r.handed == s.handed && r.offered == s.offered
  {
    StepKeeps(s, Wake);
    var t := Step(s, Wake);
    RefusalsAreRetried(t, n);
    var r := Run(t, Refusals(n));
    RunSnoc(t, Refusals(n), Wake);
    RunSnoc(t, Refusals(n) + [Wake], Answered(Connected));
    StepKeeps(r, Wake);
    StepKeeps(Step(r, Wake), Answered(Connected));
  }

  /** A connect refused with 401 or 403 is never retried, even while shutting down. */
  lemma {:induction false} BarredStops<E>(s: Loop<E>, input: Input<E>, later: seq<Input<E>>)
    requires s.phase.Connecting? && Barred(input)
    ensures Run(Step(s, input), later).phase == Stopped(Exit1)
    ensures Run(Step(s, input), later).sleeps == s.sleeps
    decreases |later|
  {
    if later != [] {
      BarredStops(s, input, later[..|later| - 1]);
    }
  }

  /** Asking and resuming once for each queued event hands over everything that arrived. */
  function AskFor<E>(n: nat): seq<Input<E>> {
    if n == 0 then [] else AskFor(n - 1) + [Call] + [Wake]
  }

  lemma AskOnce<E>(s: Loop<E>)
    requires Inv(s) && s.phase.Idle? && !s.shuttingDown && s.conn.queue != []
    ensures var r := Step(Step(s, Call), Wake);
            && Inv(r) && r.phase.Idle? && !r.shuttingDown && r.offered == s.offered
            && r.conn.queue == s.conn.queue[1..]
  {
    StepKeeps(s, Call);
    StepKeeps(Step(s, Call), Wake);
  }

  lemma NothingMissing<E>(s: Loop<E>)
    requires Inv(s) && s.phase.Idle? && s.conn.queue == []
    ensures s.handed == s.offered
  {
    assert s.handed + [] + [] == s.handed;
  }

  lemma {:induction false} AskingDrains<E>(s: Loop<E>, n: nat)
    requires Inv(s) && s.phase.Idle? && !s.shuttingDown && n <= |s.conn.queue|
    ensures var r := Run(s, AskFor(n));
            && Inv(r) && r.phase.Idle? && !r.shuttingDown && r.offered == s.offered
            && r.conn.queue == s.conn.queue[n..]
            && (n == |s.conn.queue| ==> r.handed == s.offered)
  {
    if n > 0 {
      AskingDrains(s, n - 1);
      RunSnoc(s, AskFor(n - 1), Call);
      RunSnoc(s, AskFor(n - 1) + [Call], Wake);
      AskOnce(Run(s, AskFor(n - 1)));
    }
    if n == |s.conn.queue| {
      NothingMissing(Run(s, AskFor(n)));
    }
  }

  // ----- The loop as the closure that updates its variables -------------------------------------

  /** The input that resumes the loop where it is suspended. */
  predicate Resumes<E>(phase: Phase, resolved: bool, input: Input<E>) {
    match phase
    case Reading => input.Wake? && resolved
    case Sleeping => input.Wake?
    case Connecting => input.Answered?
    case _ => false
  }

  datatype Next<E> = Event(event: E) | Finished(outcome: Outcome) | StillWaiting

  datatype Tried<E> = Up | Again | Halt(next: Next<E>)

  class Reconnector<E> {
    var inner: EventQueue<E>
    var connectAttempt: nat
    var shuttingDown: bool
    var phase: Phase
    ghost var offered: seq<E>
    ghost var handed: seq<E>
    ghost var sleeps: seq<nat>

    ghost function Value(): Loop<E>
      reads this, inner
    {
      Loop(inner.Value(), connectAttempt, shuttingDown, phase, offered, handed, sleeps)
    }

    constructor ()
      ensures Value() == Start(Connected) && fresh(inner)
    {
      inner := new EventQueue();
      connectAttempt, shuttingDown := 0, false;
      phase, offered, handed, sleeps := Idle, [], [], [];
    }

    method Callback(input: Input<E>)
      requires !Resumes(phase, Resolved(Value()), input) && (phase.Idle? ==> !input.Call?)
      modifies this, inner
      ensures inner == old(inner) && phase == old(phase) && connectAttempt == old(connectAttempt)
      ensures handed == old(handed) && sleeps == old(sleeps)
      ensures Value() == Step(old(Value()), input)
    {
      match input {
        case Arrive(event) =>
          if !inner.ended {
            inner.Deliver(event);
            offered := offered + [event];
          }
        case Close => inner.SignalEnd();
        case Shutdown => shuttingDown := true;
        case _ =>
      }
    }

    /** What arrives while the event loop is busy with an event. */
    method WhileBusy(script: seq<Input<E>>)
      requires phase.Idle? && forall i :: 0 <= i < |script| ==> !script[i].Call?
      modifies this, inner
      ensures inner == old(inner) && phase.Idle? && Value() == Run(old(Value()), script)
    {
      var i := 0;
      while i < |script|
        invariant i <= |script| && inner == old(inner) && phase.Idle?
        invariant Value() == Run(old(Value()), script[..i])
      {
        Callback(script[i]);
        RunSnoc(old(Value()), script[..i], script[i]);
        assert script[..i] + [script[i]] == script[..i + 1];
        i := i + 1;
      }
      assert script[..i] == script;
    }

    // The assignments between two awaits, each with the state it leaves behind.

    method Ask()
      modifies this, inner
      ensures inner == old(inner) && handed == old(handed) && phase == Reading
      ensures Value() == old(Value()).(conn := QueueStep(old(inner.Value()), QueueOp.NextEvent), phase := Reading)
    {
      inner.NextEvent();
      phase := Reading;
    }

    method Return(event: E)
      modifies this
      ensures inner == old(inner)
      ensures Value() == old(Value()).(handed := old(handed) + [event], phase := Idle)
    {
      handed := handed + [event];
      phase := Idle;
    }

    method Sleep()
      requires !shuttingDown
      modifies this
      ensures inner == old(inner) && handed == old(handed) && phase == Sleeping
      ensures Value() == Retry(old(Value()))
    {
      var delay := Delay(connectAttempt);
      sleeps := sleeps + [delay];
      phase := Sleeping;
    }

    method Connect()
      modifies this
      ensures inner == old(inner)
      ensures Value() == old(Value()).(phase := Connecting)
    {
      phase := Connecting;
    }

    method Attempted()
      modifies this
      ensures inner == old(inner)
      ensures Value() == old(Value()).(attempt := old(connectAttempt) + 1)
    {
      connectAttempt := connectAttempt + 1;
    }

    method Subscribed()
      modifies this
      ensures fresh(inner)
      ensures Value() == old(Value()).(conn := NewQueue(), attempt := 0, sleeps := [])
    {
      inner := new EventQueue();
      connectAttempt := 0;
      sleeps := [];
    }

    method Stop(outcome: Outcome)
      modifies this
      ensures inner == old(inner)
      ensures Value() == old(Value()).(phase := Stopped(outcome))
    {
      phase := Stopped(outcome);
    }

    /** One call by the event loop; `used` inputs of the script have happened when it returns. */
    method NextEvent(script: seq<Input<E>>) returns (next: Next<E>, used: nat)
      requires phase.Idle?
      modifies this, inner
      ensures inner == old(inner) || fresh(inner)
      ensures used <= |script| && Value() == After(old(Value()), script, used)
      ensures match next
              case Event(e) => phase.Idle? && handed == old(handed) + [e]
              case _ => Halted(next, used == |script|) && handed == old(handed)
      ensures old(shuttingDown) ==> next == Finished(Null) && used == 0
    {
      ghost var start := Value();
      used := 0;
      Called(start, script);
      while true
        invariant used <= |script| && (inner == old(inner) || fresh(inner))
        invariant Read(Value()) == After(start, script, used)
        invariant handed == old(handed)
        invariant old(shuttingDown) ==> shuttingDown && used == 0
        decreases |script| - used
      {
        var taken;
        taken, used := Take(start, script, used);
        if taken.Halt? {
          next := taken.next;
          return;
        }
        var stop;
        stop, used := Reconnect(start, script, used);
        if stop.Some? {
          next := stop.value;
          return;
        }
      }
    }

    /** One read of the current stream; `Again` means it has ended and the loop goes on. */
    method Take(ghost start: Loop<E>, script: seq<Input<E>>, from: nat) returns (taken: Tried<E>, used: nat)
      requires from <= |script| && Read(Value()) == After(start, script, from)
      modifies this, inner
      ensures from <= used <= |script| && inner == old(inner)
      ensures match taken
              case Up => false
              case Again => from < used && phase == Reading && handed == old(handed)
                            && Retry(Value()) == After(start, script, used)
              case Halt(Event(e)) => phase.Idle? && handed == old(handed) + [e] && Value() == After(start, script, used)
              case Halt(n) => Halted(n, used == |script|) && handed == old(handed)
                              && Value() == After(start, script, used)
      ensures old(shuttingDown) ==> taken == Halt(Finished(Null)) && used == from
    {
      used := from;
      if shuttingDown {
        Stop(Null);
        return Halt(Finished(Null)), used;
      }
      Ask();
      used := Await(start, script, used);
      if used == |script| {
        return Halt(StillWaiting), used;
      }
      var event := inner.settled[|inner.settled| - 1].value;
      TookValue(start, script, used, Value(), event);
      used := used + 1;
      if event.Some? {
        Return(event.value);
        return Halt(Event(event.value)), used;
      }
      if shuttingDown {
        Stop(Null);
        return Halt(Finished(Null)), used;
      }
      return Again, used;
    }

    /** The inner loop: sleep and connect until a connection stands; `None` means it does. */
    method Reconnect(ghost start: Loop<E>, script: seq<Input<E>>, from: nat)
      returns (stop: Option<Next<E>>, used: nat)
      requires from <= |script| && !phase.Idle? && !phase.Stopped?
      requires Retry(Value()) == After(start, script, from)
      modifies this, inner
      ensures inner == old(inner) || fresh(inner)
      ensures from <= used <= |script| && handed == old(handed)
      ensures match stop
              case None => Read(Value()) == After(start, script, used)
              case Some(n) => Value() == After(start, script, used) && Halted(n, used == |script|)
    {
      used := from;
      while !shuttingDown
        invariant from <= used <= |script| && inner == old(inner) && !phase.Idle? && !phase.Stopped?
        invariant Retry(Value()) == After(start, script, used)
        invariant handed == old(handed)
        decreases |script| - used
      {
        var tried;
        tried, used := Try(start, script, used);
        match tried {
          case Up => return None, used;
          case Halt(n) => return Some(n), used;
          case Again =>
        }
      }
      Stop(Null);
      return Some(Finished(Null)), used;
    }

    /** What it means for the call to end, or to be left suspended, without an event. */
    predicate Halted(n: Next<E>, exhausted: bool)
      reads this
    {
      match n
      case Finished(outcome) => phase == Stopped(outcome)
      case StillWaiting => exhausted && !phase.Idle? && !phase.Stopped?
      case Event(_) => false
    }

    /** The delay; `Again` means the connect is due. */
    method Doze(ghost start: Loop<E>, script: seq<Input<E>>, from: nat) returns (tried: Tried<E>, used: nat)
      requires from <= |script| && !shuttingDown
      requires Retry(Value()) == After(start, script, from)
      modifies this, inner
      ensures from <= used <= |script| && handed == old(handed) && inner == old(inner)
      ensures Value() == After(start, script, used)
      ensures match tried
              case Up => false
              case Again => from < used && phase == Connecting
              case Halt(n) => Halted(n, used == |script|)
    {
      Sleep();
      used := Await(start, script, from);
      if used == |script| {
        return Halt(StillWaiting), used;
      }
      TookSleep(start, script, used, Value());
      used := used + 1;
      if shuttingDown {
        Stop(Null);
        return Halt(Finished(Null)), used;
      }
      Connect();
      return Again, used;
    }

    /** One round: a delay, then a connect. */
    method Try(ghost start: Loop<E>, script: seq<Input<E>>, from: nat) returns (tried: Tried<E>, used: nat)
      requires from <= |script| && !shuttingDown
      requires Retry(Value()) == After(start, script, from)
      modifies this, inner
      ensures from <= used <= |script| && handed == old(handed)
      ensures match tried
              case Up => fresh(inner) && Read(Value()) == After(start, script, used)
              case Again => from < used && inner == old(inner) && phase == Connecting
                            && Retry(Value()) == After(start, script, used)
              case Halt(n) => inner == old(inner) && Value() == After(start, script, used)
                              && Halted(n, used == |script|)
    {
      tried, used := Doze(start, script, from);
      if tried.Halt? {
        return;
      }
      used := Await(start, script, used);
      if used == |script| {
        return Halt(StillWaiting), used;
      }
      var answer := script[used].answer;
      TookAnswer(start, script, used, Value());
      used := used + 1;
      tried := Judge(answer);
    }

    /** What the loop does with the result of a connect. */
    method Judge(answer: Answer) returns (tried: Tried<E>)
      modifies this
      ensures handed == old(handed)
      ensures match tried
              case Up => fresh(inner) && Read(Value()) == OnAnswer(old(Value()), answer)
              case Again => inner == old(inner) && phase == old(phase) && Retry(Value()) == OnAnswer(old(Value()), answer)
              case Halt(n) => inner == old(inner) && n == Finished(Exit1) && phase == Stopped(Exit1)
                              && Value() == OnAnswer(old(Value()), answer)
    {
      Attempted();
      if answer.Connected? {
        Subscribed();
        return Up;
      }
      if answer.status == Some(401) || answer.status == Some(403) {
        Stop(Exit1);
        return Halt(Finished(Exit1));
      }
      return Again;
    }

    /** Suspends until the script holds the input that resumes the loop. */
    method Await(ghost start: Loop<E>, script: seq<Input<E>>, from: nat) returns (i: nat)
      requires from <= |script| && !phase.Idle? && Value() == After(start, script, from)
      modifies this, inner
      ensures inner == old(inner) && phase == old(phase) && connectAttempt == old(connectAttempt)
      ensures handed == old(handed) && sleeps == old(sleeps)
      ensures from <= i <= |script| && Value() == After(start, script, i)
      ensures i < |script| ==> Resumes(phase, Resolved(Value()), script[i])
    {
      i := from;
      while i < |script| && !Resumes(phase, |inner.settled| == inner.issued > 0, script[i])
        invariant from <= i <= |script|
        invariant inner == old(inner) && phase == old(phase) && connectAttempt == old(connectAttempt)
        invariant handed == old(handed) && sleeps == old(sleeps)
        invariant Value() == After(start, script, i)
      {
        Pass(start, script, i);
        i := i + 1;
      }
    }

    /** An input of the script that does not resume the loop. */
    method Pass(ghost start: Loop<E>, script: seq<Input<E>>, i: nat)
      requires i < |script| && !phase.Idle? && Value() == After(start, script, i)
      requires !Resumes(phase, Resolved(Value()), script[i])
      modifies this, inner
      ensures inner == old(inner) && phase == old(phase) && connectAttempt == old(connectAttempt)
      ensures handed == old(handed) && sleeps == old(sleeps)
      ensures Value() == After(start, script, i + 1)
    {
      Took(start, script, i);
      Callback(script[i]);
    }
  }

  /** The run since `start`: the call and the first inputs of the script. */
  ghost function After<E>(start: Loop<E>, script: seq<Input<E>>, used: nat): Loop<E>
    requires used <= |script|
  {
    Run(start, [Call] + script[..used])
  }

  lemma Called<E>(start: Loop<E>, script: seq<Input<E>>)
    requires start.phase.Idle?
    ensures After(start, script, 0) == Read(start)
  {
    assert [Call] + script[..0] == [] + [Call];
    RunSnoc(start, [], Call);
  }

  lemma Took<E>(start: Loop<E>, script: seq<Input<E>>, used: nat)
    requires used < |script|
    ensures After(start, script, used + 1) == Step(After(start, script, used), script[used])
  {
    RunSnoc(start, [Call] + script[..used], script[used]);
    assert [Call] + script[..used] + [script[used]] == [Call] + script[..used + 1];
  }

  lemma TookValue<E>(start: Loop<E>, script: seq<Input<E>>, used: nat, s: Loop<E>, value: Option<E>)
    requires used < |script| && s == After(start, script, used)
    requires s.phase.Reading? && Resolved(s) && script[used].Wake?
    requires value == s.conn.settled[|s.conn.settled| - 1].value
    ensures value.Some? ==> After(start, script, used + 1) == s.(handed := s.handed + [value.value], phase := Idle)
    ensures value.None? ==> After(start, script, used + 1) == Retry(s)
  {
    Took(start, script, used);
  }

  lemma TookSleep<E>(start: Loop<E>, script: seq<Input<E>>, used: nat, s: Loop<E>)
    requires used < |script| && s == After(start, script, used)
    requires s.phase.Sleeping? && script[used].Wake?
    ensures After(start, script, used + 1) == s.(phase := if s.shuttingDown then Stopped(Null) else Connecting)
  {
    Took(start, script, used);
  }

  lemma TookAnswer<E>(start: Loop<E>, script: seq<Input<E>>, used: nat, s: Loop<E>)
    requires used < |script| && s == After(start, script, used)
    requires s.phase.Connecting? && script[used].Answered?
    ensures After(start, script, used + 1) == OnAnswer(s, script[used].answer)
  {
    Took(start, script, used);
  }
}