/**
 * The sender-side session loop: ask the engine for the next fragment, stop
 * on failure or completion, otherwise send the fragment or drop it (loss
 * injection), and wait for one acknowledgment when the rule's mode asks for
 * acks and the engine did not say "continue".
 */
module Sender {
  import opened Wrappers
  import opened Engine
  import opened Loss

  /** One iteration's worth of answers from the outside world: the status
      `next_fragment` returns, the random draw a loss policy may consult, and
      how the ack wait ends if the iteration waits. */
  datatype Round = Round(status: Status, draw: Draw, ack: AckWait)

  /** What a session does on the wire; `n` is the packet counter of the
      iteration, 1-based. */
  datatype Event =
    | Sent(n: nat)                      // the fragment went out on the socket
    | Dropped(n: nat)                   // loss injection: logged, not sent
    | Awaited(n: nat, result: AckWait)  // one wait for an acknowledgment

  /** How a session ends. `Exhausted` means the script ran out while the
      engine still had not reported completion or failure. */
  datatype Outcome = NoFragmentation | Completed | Failed | Exhausted

  /** The arguments of the engine's `setbuf` call. */
  datatype EngineSetup = EngineSetup(msg: string, dtag: Option<int>, l2Size: int)

  /** The result of one iteration: its events, and how the session ends if
      the iteration ends it. */
  datatype Step = Step(events: seq<Event>, stop: Option<Outcome>)

  /** The loop's result: its events, how it ended, and the final value of the
      packet counter (the number of `next_fragment` calls). */
  datatype Run = Run(events: seq<Event>, outcome: Outcome, calls: nat)

  /** A whole call of the sender for one message. */
  datatype Session = Session(setup: Option<EngineSetup>, events: seq<Event>, outcome: Outcome, calls: nat)

  /** The loop waits for an ack after a fragment unless the rule is No-ACK or
      the engine said "continue". */
  predicate Waits(mode: AckMode, s: Status)
  {
    mode != NoAck && s != Cont
  }

  /** A round that ends the session: the engine reports completion or
      failure, or the iteration waits and the parsed ack reports completion. */
  predicate Terminal(mode: AckMode, rd: Round)
  {
    rd.status == Done || rd.status == Fail
    || (mode != NoAck && rd.status == WaitAck && rd.ack == Ack(Done))
  }

  /** One iteration of the loop, after the counter became `k`. */
  function Iterate(mode: AckMode, policy: Policy, k: nat, rd: Round): (step: Step)
    ensures rd.status == Fail <==> step.stop == Some(Failed)
    ensures step.stop.Some? <==> Terminal(mode, rd)
    ensures step.stop.Some? ==> step.stop.value == Completed || step.stop.value == Failed
    ensures !Transmits(rd.status) ==> step.events == []
    ensures Transmits(rd.status) ==> |step.events| >= 1
    ensures Transmits(rd.status) ==> step.events[0] == (if ShouldDrop(policy, k, rd.draw) then Dropped(k) else Sent(k))
  {
    if rd.status == Fail then Step([], Some(Failed))
    else if rd.status == Done then Step([], Some(Completed))
    else
      var tx := if ShouldDrop(policy, k, rd.draw) then Dropped(k) else Sent(k);
      if Waits(mode, rd.status) then
        var events := [tx, Awaited(k, rd.ack)];
        if rd.ack == Ack(Done) then Step(events, Some(Completed)) else Step(events, None)
      else Step([tx], None)
  }

  /** The loop from the point where `i` rounds have been consumed (the
      counter equals `i`) to the end of the session or of the script. */
  function Loop(mode: AckMode, policy: Policy, script: seq<Round>, i: nat): (r: Run)
    requires i <= |script|
    ensures i <= r.calls <= |script|
    ensures r.outcome != NoFragmentation
    ensures r.outcome == Exhausted ==> r.calls == |script|
    ensures r.outcome != Exhausted ==> i < r.calls
    decreases |script| - i
  {
    if i == |script| then Run([], Exhausted, i)
    else
      var step := Iterate(mode, policy, i + 1, script[i]);
      match step.stop
      case Some(o) => Run(step.events, o, i + 1)
      case None =>
        var rest := Loop(mode, policy, script, i + 1);
        Run(step.events + rest.events, rest.outcome, rest.calls)
  }

  /** Every event of an iteration carries that iteration's counter value. */
  lemma IterationCounter(mode: AckMode, policy: Policy, k: nat, rd: Round)
    ensures forall e :: e in Iterate(mode, policy, k, rd).events ==> e.n == k
  {
  }

  /** What one iteration puts on the wire: the fragment is sent once unless
      the loss policy drops it, dropped once otherwise, and awaited once when
      the rule is not No-ACK and the engine answered `WaitAck`. */
  lemma IterationEvents(mode: AckMode, policy: Policy, k: nat, rd: Round, w: AckWait)
    ensures var ev := multiset(Iterate(mode, policy, k, rd).events);
      ev[Sent(k)] == if Transmits(rd.status) && !ShouldDrop(policy, k, rd.draw) then 1 else 0
    ensures var ev := multiset(Iterate(mode, policy, k, rd).events);
      ev[Dropped(k)] == if Transmits(rd.status) && ShouldDrop(policy, k, rd.draw) then 1 else 0
    ensures var ev := multiset(Iterate(mode, policy, k, rd).events);
      ev[Awaited(k, w)] == if mode != NoAck && rd.status == WaitAck && w == rd.ack then 1 else 0
  {
  }

  /** Every event of the loop carries the counter value of the iteration it
      happened in, and so lies between the rounds already consumed and the
      final counter. */
  lemma {:induction false} LoopCounters(mode: AckMode, policy: Policy, script: seq<Round>, i: nat)
    requires i <= |script|
    ensures var r := Loop(mode, policy, script, i);
      forall e :: e in r.events ==> i < e.n <= r.calls
    decreases |script| - i
  {
    if i < |script| {
      var step := Iterate(mode, policy, i + 1, script[i]);
      IterationCounter(mode, policy, i + 1, script[i]);
      if step.stop.None? {
        LoopCounters(mode, policy, script, i + 1);
      }
    }
  }

  /** The events `prefix` followed by the run `r`. */
  function Then(prefix: seq<Event>, r: Run): Run
  {
    Run(prefix + r.events, r.outcome, r.calls)
  }

  lemma ThenAssoc(a: seq<Event>, b: seq<Event>, r: Run)
    ensures Then(a, Then(b, r)) == Then(a + b, r)
  {
    assert a + (b + r.events) == (a + b) + r.events;
  }

  /** One unfolding of the loop: a round that does not end the session
      contributes its events ahead of the rest of the loop. */
  lemma LoopUnfold(mode: AckMode, policy: Policy, script: seq<Round>, i: nat)
    requires i < |script|
    ensures var step := Iterate(mode, policy, i + 1, script[i]);
      if step.stop.Some? then Loop(mode, policy, script, i) == Run(step.events, step.stop.value, i + 1)
      else Loop(mode, policy, script, i) == Then(step.events, Loop(mode, policy, script, i + 1))
  {
  }

  /** One iteration of the loop seen from a run whose first events are
      already known. */
  lemma LoopAdvance(mode: AckMode, policy: Policy, script: seq<Round>, i: nat,
                    events: seq<Event>, whole: Run)
    requires i < |script|
    requires whole == Then(events, Loop(mode, policy, script, i))
    ensures var step := Iterate(mode, policy, i + 1, script[i]);
      if step.stop.Some? then whole == Run(events + step.events, step.stop.value, i + 1)
      else whole == Then(events + step.events, Loop(mode, policy, script, i + 1))
  {
    var step := Iterate(mode, policy, i + 1, script[i]);
    LoopUnfold(mode, policy, script, i);
    if step.stop.None? {
      ThenAssoc(events, step.events, Loop(mode, policy, script, i + 1));
    }
  }

  /** The sender for one message: when the message fits in one L2 payload
      nothing is set up and nothing is sent; otherwise the engine is given
      the message and the loop runs from a counter of zero. */
  function Send(msg: string, dtag: Option<int>, l2Size: int, mode: AckMode, policy: Policy,
                script: seq<Round>): (s: Session)
    ensures s.outcome == NoFragmentation <==> l2Size >= |msg|
    ensures s.outcome == NoFragmentation ==> s.setup == None && s.events == [] && s.calls == 0
    ensures s.outcome != NoFragmentation ==> s.setup == Some(EngineSetup(msg, dtag, l2Size))
    ensures s.calls <= |script|
  {
    if l2Size >= |msg| then Session(None, [], NoFragmentation, 0)
    else
      var r := Loop(mode, policy, script, 0);
      Session(Some(EngineSetup(msg, dtag, l2Size)), r.events, r.outcome, r.calls)
  }

  /** The imperative form of `Send`: the early exit when the message fits,
      the engine set up with the message, DTag and L2 size, then `RunLoop`.
      It exists to show the `while True` loop of the sender computes `Send`. */
  method RunSender(msg: string, dtag: Option<int>, l2Size: int, mode: AckMode, policy: Policy,
                   script: seq<Round>) returns (s: Session)
    ensures s == Send(msg, dtag, l2Size, mode, policy, script)
  {
    if l2Size >= |msg| {
      return Session(None, [], NoFragmentation, 0);
    }
    var r := RunLoop(mode, policy, script);
    s := Session(Some(EngineSetup(msg, dtag, l2Size)), r.events, r.outcome, r.calls);
  }

  /** The main loop as the sender writes it: an unbounded `while` whose
      counter is incremented right after each `next_fragment` call, with
      `Iterate` as its body, left as soon as an iteration ends the session.
      It computes exactly the run `Loop` describes from a counter of zero. */
  method RunLoop(mode: AckMode, policy: Policy, script: seq<Round>) returns (r: Run)
    ensures r == Loop(mode, policy, script, 0)
  {
    ghost var whole := Loop(mode, policy, script, 0);
    var events: seq<Event> := [];
    var n: nat := 0;
    while true
      invariant n <= |script|
      invariant whole == Then(events, Loop(mode, policy, script, n))
      decreases |script| - n
    {
      if n == |script| {
        return Run(events, Exhausted, n);
      }
      var rd := script[n];
      n := n + 1;
      var step := Iterate(mode, policy, n, rd);
      LoopAdvance(mode, policy, script, n - 1, events, whole);
      events := events + step.events;
      if step.stop.Some? {
        return Run(events, step.stop.value, n);
      }
    }
  }
}
