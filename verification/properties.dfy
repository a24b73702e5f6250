/**
 * Properties of the sender's session loop, over every engine script: where
 * the loop stops and why, which fragments go out, which are dropped, and
 * when the sender waits for an acknowledgment.
 */
module Properties {
  import opened Wrappers
  import opened Engine
  import opened Loss
  import opened Sender

  /** The loop stops at the first round that ends the session, and at no
      earlier one; it fails exactly when that round is a `Fail` from
      `next_fragment`, and only runs out of script when no round ends it. */
  lemma {:induction false} StopsAtFirstTerminal(mode: AckMode, policy: Policy, script: seq<Round>, i: nat)
    requires i <= |script|
    ensures var r := Loop(mode, policy, script, i);
      forall j :: i <= j && j + 1 < r.calls ==> !Terminal(mode, script[j])
    ensures var r := Loop(mode, policy, script, i);
      r.outcome == Exhausted <==> forall j :: i <= j < |script| ==> !Terminal(mode, script[j])
    ensures var r := Loop(mode, policy, script, i);
      r.outcome != Exhausted ==> i < r.calls && Terminal(mode, script[r.calls - 1])
    ensures var r := Loop(mode, policy, script, i);
      r.outcome == Failed <==> i < r.calls && script[r.calls - 1].status == Fail
    decreases |script| - i
  {
    if i < |script| {
      var step := Iterate(mode, policy, i + 1, script[i]);
      if step.stop.None? {
        StopsAtFirstTerminal(mode, policy, script, i + 1);
      }
    }
  }

  /** The loop's events are the events of its iterations: an event with
      counter value `k` occurs in the run as often as iteration `k` produces
      it, and not at all when iteration `k` never ran. */
  lemma {:induction false} EventsOfIterations(mode: AckMode, policy: Policy, script: seq<Round>,
                                              i: nat, e: Event)
    requires i <= |script|
    ensures var r := Loop(mode, policy, script, i);
      multiset(r.events)[e]
        == if i < e.n <= r.calls then multiset(Iterate(mode, policy, e.n, script[e.n - 1]).events)[e] else 0
    decreases |script| - i
  {
    var r := Loop(mode, policy, script, i);
    if i < |script| {
      var step := Iterate(mode, policy, i + 1, script[i]);
      IterationCounter(mode, policy, i + 1, script[i]);
      var own := if e.n == i + 1 then multiset(step.events)[e] else 0;
      assert multiset(step.events)[e] == own;
      if step.stop.None? {
        var rest := Loop(mode, policy, script, i + 1);
        EventsOfIterations(mode, policy, script, i + 1, e);
        LoopCounters(mode, policy, script, i + 1);
        assert r.events == step.events + rest.events;
        assert multiset(r.events)[e] == own + multiset(rest.events)[e];
        if e.n == i + 1 {
          assert e !in rest.events;
        }
      } else {
        assert r.events == step.events && r.calls == i + 1;
      }
    }
  }

  /** Every iteration that produced a fragment either sends it or drops it,
      exactly once, and which of the two is the loss policy's decision for
      the iteration's counter value; iterations that end on `Done` or `Fail`
      from `next_fragment` do neither. */
  lemma TransmitOnce(mode: AckMode, policy: Policy, script: seq<Round>, i: nat, k: nat)
    requires i <= |script|
    ensures var r := Loop(mode, policy, script, i);
      multiset(r.events)[Sent(k)] + multiset(r.events)[Dropped(k)]
        == if i < k <= r.calls && Transmits(script[k - 1].status) then 1 else 0
    ensures var r := Loop(mode, policy, script, i);
      Sent(k) in r.events <==>
        i < k <= r.calls && Transmits(script[k - 1].status) && !ShouldDrop(policy, k, script[k - 1].draw)
    ensures var r := Loop(mode, policy, script, i);
      Dropped(k) in r.events <==>
        i < k <= r.calls && Transmits(script[k - 1].status) && ShouldDrop(policy, k, script[k - 1].draw)
  {
    EventsOfIterations(mode, policy, script, i, Sent(k));
    EventsOfIterations(mode, policy, script, i, Dropped(k));
    var r := Loop(mode, policy, script, i);
    if i < k <= r.calls {
      IterationEvents(mode, policy, k, script[k - 1], Timeout);
    }
  }

  /** The sender waits for an acknowledgment after iteration `k` exactly when
      the rule is not No-ACK and `next_fragment` answered `WaitAck` there,
      whether or not the fragment was dropped; the wait's result is the one
      the outside world gave in that round, and there is one wait at most. */
  lemma AckWaitIff(mode: AckMode, policy: Policy, script: seq<Round>, i: nat, k: nat, w: AckWait)
    requires i <= |script|
    ensures var r := Loop(mode, policy, script, i);
      Awaited(k, w) in r.events <==>
        i < k <= r.calls && mode != NoAck && script[k - 1].status == WaitAck && w == script[k - 1].ack
    ensures multiset(Loop(mode, policy, script, i).events)[Awaited(k, w)] <= 1
  {
    EventsOfIterations(mode, policy, script, i, Awaited(k, w));
    var r := Loop(mode, policy, script, i);
    if i < k <= r.calls {
      IterationEvents(mode, policy, k, script[k - 1], w);
    }
  }

  /** Events in counter order, and within one counter value the send or
      drop before the wait for the acknowledgment. */
  predicate InCounterOrder(ev: seq<Event>)
  {
    forall a, b :: 0 <= a < b < |ev| ==>
      ev[a].n < ev[b].n || (ev[a].n == ev[b].n && !ev[a].Awaited? && ev[b].Awaited?)
  }

  lemma OrderedConcat(first: seq<Event>, rest: seq<Event>, k: nat)
    requires InCounterOrder(first) && InCounterOrder(rest)
    requires forall e :: e in first ==> e.n == k
    requires forall e :: e in rest ==> e.n > k
    ensures InCounterOrder(first + rest)
  {
    var ev := first + rest;
    forall a, b | 0 <= a < b < |ev|
      ensures ev[a].n < ev[b].n || (ev[a].n == ev[b].n && !ev[a].Awaited? && ev[b].Awaited?)
    {
      if b < |first| {
        assert ev[a] == first[a] && ev[b] == first[b];
      } else if a < |first| {
        assert ev[a] in first;
        assert ev[b] == rest[b - |first|];
        assert ev[b] in rest;
      } else {
        assert ev[a] == rest[a - |first|] && ev[b] == rest[b - |first|];
      }
    }
  }

  /** Events come in counter order, and within one iteration the send or
      drop of the fragment comes before the wait for its acknowledgment. */
  lemma {:induction false} EventsInOrder(mode: AckMode, policy: Policy, script: seq<Round>, i: nat)
    requires i <= |script|
    ensures InCounterOrder(Loop(mode, policy, script, i).events)
    decreases |script| - i
  {
    if i < |script| {
      var step := Iterate(mode, policy, i + 1, script[i]);
      assert InCounterOrder(step.events);
      if step.stop.None? {
        EventsInOrder(mode, policy, script, i + 1);
        LoopCounters(mode, policy, script, i + 1);
        IterationCounter(mode, policy, i + 1, script[i]);
        OrderedConcat(step.events, Loop(mode, policy, script, i + 1).events, i + 1);
      }
    }
  }

  // ---------------------------------------------------------------------------
  // The same properties for a whole call of the sender
  // ---------------------------------------------------------------------------

  /** The iteration that fails puts nothing on the wire. */
  lemma {:induction false} FailedIterationSilent(mode: AckMode, policy: Policy, script: seq<Round>, i: nat)
    requires i <= |script|
    requires Loop(mode, policy, script, i).outcome == Failed
    ensures var r := Loop(mode, policy, script, i);
      forall e :: e in r.events ==> e.n < r.calls
    decreases |script| - i
  {
    var step := Iterate(mode, policy, i + 1, script[i]);
    if step.stop.None? {
      var rest := Loop(mode, policy, script, i + 1);
      FailedIterationSilent(mode, policy, script, i + 1);
      IterationCounter(mode, policy, i + 1, script[i]);
      assert Loop(mode, policy, script, i).events == step.events + rest.events;
    }
  }

  /** A `Fail` from `next_fragment` ends the session in that same iteration:
      nothing is sent, dropped or awaited for it, and every earlier round
      went on normally. */
  lemma FailEndsSession(msg: string, dtag: Option<int>, l2Size: int, mode: AckMode, policy: Policy,
                        script: seq<Round>)
    ensures var s := Send(msg, dtag, l2Size, mode, policy, script);
      s.outcome == Failed <==> l2Size < |msg| && s.calls >= 1 && script[s.calls - 1].status == Fail
    ensures var s := Send(msg, dtag, l2Size, mode, policy, script);
      s.outcome == Failed ==>
        (forall e :: e in s.events ==> e.n < s.calls)
        && forall j :: 0 <= j && j + 1 < s.calls ==> !Terminal(mode, script[j])
  {
    if l2Size < |msg| {
      StopsAtFirstTerminal(mode, policy, script, 0);
      if Loop(mode, policy, script, 0).outcome == Failed {
        FailedIterationSilent(mode, policy, script, 0);
      }
    }
  }

  /** With an index-list policy, the fragment produced at counter value `k`
      is dropped exactly when `k` is in the list, and sent otherwise. */
  lemma LossListDropsListed(msg: string, dtag: Option<int>, l2Size: int, mode: AckMode,
                            indices: seq<int>, script: seq<Round>, k: nat)
    ensures var s := Send(msg, dtag, l2Size, mode, LossList(indices), script);
      Dropped(k) in s.events <==> 0 < k <= s.calls && Transmits(script[k - 1].status) && k in indices
    ensures var s := Send(msg, dtag, l2Size, mode, LossList(indices), script);
      Sent(k) in s.events <==> 0 < k <= s.calls && Transmits(script[k - 1].status) && k !in indices
  {
    if l2Size < |msg| {
      TransmitOnce(mode, LossList(indices), script, 0, k);
    }
  }

  /** Without a loss policy every produced fragment is sent, once. */
  lemma NoLossSendsAll(msg: string, dtag: Option<int>, l2Size: int, mode: AckMode,
                       script: seq<Round>, k: nat)
    ensures var s := Send(msg, dtag, l2Size, mode, NoLoss, script);
      multiset(s.events)[Sent(k)] == if 0 < k <= s.calls && Transmits(script[k - 1].status) then 1 else 0
    ensures var s := Send(msg, dtag, l2Size, mode, NoLoss, script);
      Dropped(k) !in s.events
  {
    if l2Size < |msg| {
      TransmitOnce(mode, NoLoss, script, 0, k);
    }
  }

  /** In No-ACK mode the sender never waits for an acknowledgment. */
  lemma NoAckNeverWaits(msg: string, dtag: Option<int>, l2Size: int, policy: Policy,
                        script: seq<Round>)
    ensures forall e :: e in Send(msg, dtag, l2Size, NoAck, policy, script).events ==> !e.Awaited?
  {
    var s := Send(msg, dtag, l2Size, NoAck, policy, script);
    forall e | e in s.events
      ensures !e.Awaited?
    {
      if e.Awaited? {
        AckWaitIff(NoAck, policy, script, 0, e.n, e.result);
      }
    }
  }

  /** Within the loop: a wait whose ack parses to `Done` is the last thing
      the session does, and any other wait result lets it go on. */
  lemma LoopAckOutcomes(mode: AckMode, policy: Policy, script: seq<Round>, k: nat, w: AckWait)
    requires Awaited(k, w) in Loop(mode, policy, script, 0).events
    ensures var r := Loop(mode, policy, script, 0);
      w == Ack(Done) ==> r.outcome == Completed && k == r.calls
    ensures var r := Loop(mode, policy, script, 0);
      w != Ack(Done) ==> k < r.calls || r.outcome == Exhausted
  {
    var r := Loop(mode, policy, script, 0);
    AckWaitIff(mode, policy, script, 0, k, w);
    assert 0 < k <= r.calls && mode != NoAck && script[k - 1].status == WaitAck && w == script[k - 1].ack;
    StopsAtFirstTerminal(mode, policy, script, 0);
    if w == Ack(Done) {
      assert Terminal(mode, script[k - 1]);
      assert k == r.calls;
      assert r.outcome != Exhausted && r.outcome != Failed;
    } else {
      assert !Terminal(mode, script[k - 1]);
    }
  }

  /** A wait whose parsed ack says `Done` ends the session with success;
      a timeout, another error or any other parsed status is absorbed and
      the loop goes on to the next round (unless the script ends there). */
  lemma AckOutcomes(msg: string, dtag: Option<int>, l2Size: int, mode: AckMode, policy: Policy,
                    script: seq<Round>, k: nat, w: AckWait)
    requires Awaited(k, w) in Send(msg, dtag, l2Size, mode, policy, script).events
    ensures var s := Send(msg, dtag, l2Size, mode, policy, script);
      w == Ack(Done) ==> s.outcome == Completed && k == s.calls
    ensures var s := Send(msg, dtag, l2Size, mode, policy, script);
      w != Ack(Done) ==> k < s.calls || s.outcome == Exhausted
  {
    LoopAckOutcomes(mode, policy, script, k, w);
  }
}
