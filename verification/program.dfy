/**
 * The sender program as a whole: configuration is validated first, and a
 * session runs only on a configuration that passed.
 */
module Program {
  import opened Wrappers
  import opened Engine
  import opened Loss
  import opened Options
  import opened Sender

  /** The command-line options that bear on one session. */
  datatype Arguments = Arguments(lossList: Option<string>, lossRate: Option<real>, lossRandom: bool,
                                 dtag: Option<string>, l2Size: int)

  /** Configure, then send the message; a refused configuration ends the
      program before any fragment is produced. */
  function Start(args: Arguments, msg: string, mode: AckMode, script: seq<Round>)
    : (r: Result<Session, ConfigError>)
    ensures CountTrue(args.lossList.Some?, args.lossRate.Some?, args.lossRandom) > 1
      ==> r == Err(TooManyLossOptions)
    ensures r.Ok? <==> Configure(args.lossList, args.lossRate, args.lossRandom, args.dtag).Ok?
    ensures r.Ok? ==>
      var cfg := Configure(args.lossList, args.lossRate, args.lossRandom, args.dtag).value;
      r.value == Send(msg, cfg.dtag, args.l2Size, mode, cfg.policy, script)
  {
    match Configure(args.lossList, args.lossRate, args.lossRandom, args.dtag)
    case Err(e) => Err(e)
    case Ok(cfg) => Ok(Send(msg, cfg.dtag, args.l2Size, mode, cfg.policy, script))
  }

  // ---------------------------------------------------------------------------
  // Worked sessions
  // ---------------------------------------------------------------------------

  const NoDraw := Draw(0.5, false)

  /** A 10-character message with a 20-byte L2 payload is not fragmented. */
  lemma ShortMessageNotFragmented(script: seq<Round>)
    ensures Send("0123456789", None, 20, AckAlways, NoLoss, script)
      == Session(None, [], NoFragmentation, 0)
  {
  }

  /** In No-ACK mode with three fragments the loop sends them in order and
      ends on `Done` from `next_fragment`, never waiting. */
  lemma NoAckThreeFragments(msg: string)
    requires |msg| == 50
    ensures var script := [Round(Cont, NoDraw, Timeout), Round(Cont, NoDraw, Timeout),
                           Round(Cont, NoDraw, Timeout), Round(Done, NoDraw, Timeout)];
      Send(msg, None, 20, NoAck, NoLoss, script)
        == Session(Some(EngineSetup(msg, None, 20)), [Sent(1), Sent(2), Sent(3)], Completed, 4)
  {
    var script := [Round(Cont, NoDraw, Timeout), Round(Cont, NoDraw, Timeout),
                   Round(Cont, NoDraw, Timeout), Round(Done, NoDraw, Timeout)];
    assert Loop(NoAck, NoLoss, script, 3) == Run([], Completed, 4);
    assert Loop(NoAck, NoLoss, script, 2) == Run([Sent(3)], Completed, 4);
    assert Loop(NoAck, NoLoss, script, 1) == Run([Sent(2), Sent(3)], Completed, 4);
  }

  /** In an ack mode, a timed-out wait does not end the session: the next
      round sends again and the ack that reports `Done` completes it. */
  lemma TimeoutThenFinalAck(msg: string)
    requires |msg| == 50
    ensures var script := [Round(Cont, NoDraw, Timeout), Round(WaitAck, NoDraw, Timeout),
                           Round(WaitAck, NoDraw, Ack(Done))];
      Send(msg, None, 20, AckAlways, NoLoss, script)
        == Session(Some(EngineSetup(msg, None, 20)),
                   [Sent(1), Sent(2), Awaited(2, Timeout), Sent(3), Awaited(3, Ack(Done))],
                   Completed, 3)
  {
    var script := [Round(Cont, NoDraw, Timeout), Round(WaitAck, NoDraw, Timeout),
                   Round(WaitAck, NoDraw, Ack(Done))];
    assert Loop(AckAlways, NoLoss, script, 2) == Run([Sent(3), Awaited(3, Ack(Done))], Completed, 3);
    assert Loop(AckAlways, NoLoss, script, 1)
      == Run([Sent(2), Awaited(2, Timeout), Sent(3), Awaited(3, Ack(Done))], Completed, 3);
  }

  /** A dropped fragment still counts and still leads to the ack wait its
      status asks for. */
  lemma DroppedFragmentStillAwaited(msg: string)
    requires |msg| == 50
    ensures var script := [Round(Cont, NoDraw, Timeout), Round(WaitAck, NoDraw, OtherError),
                           Round(Fail, NoDraw, Timeout)];
      Send(msg, Some(7), 20, AckOnError, LossList([2]), script)
        == Session(Some(EngineSetup(msg, Some(7), 20)),
                   [Sent(1), Dropped(2), Awaited(2, OtherError)], Failed, 3)
  {
    var script := [Round(Cont, NoDraw, Timeout), Round(WaitAck, NoDraw, OtherError),
                   Round(Fail, NoDraw, Timeout)];
    assert Loop(AckOnError, LossList([2]), script, 2) == Run([], Failed, 3);
    assert Loop(AckOnError, LossList([2]), script, 1) == Run([Dropped(2), Awaited(2, OtherError)], Failed, 3);
  }
}
