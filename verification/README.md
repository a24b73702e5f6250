# Sender-side SCHC fragmentation driver, modelled in Dafny

This project models the sender loop of `test-frag-client-udp.py`, the test
client of the schc-fragment repository. The client sends one message as
SCHC fragments over UDP. The model covers:

- the session loop `schc_sender`. It asks the fragmentation engine for the
  next fragment and counts each call. It stops on `FAIL` or `DONE`. Otherwise
  it sends the fragment, or drops it when a loss option is set, and then
  waits for one acknowledgment when the rule's mode is not No-ACK and the
  engine did not answer `CONT`;
- the early exit when the message fits in one L2 payload;
- the loss policies: the index list, the rate and the random coin;
- the configuration checks of `parse_args`: at most one loss option, the
  comma-separated loss list, and the optional numeric DTag.

The fragmentation engine (`next_fragment`, `parse_ack`) is foreign code. The
model treats it, together with the socket and the random source, as a
finite **script**. A script is a sequence of `Round(status, draw, ack)`, and
each loop iteration consumes one round:

- `status` is what `next_fragment` returns;
- `draw` is what `random.random()` or `random.choice` would give if the loss
  policy asks;
- `ack` is how the ack wait ends if the iteration waits: a parsed status, a
  timeout, or another exception.

The driver is then a pure function from (message, DTag, L2 size, ack mode,
loss policy, script) to a `Session`. A session holds the engine setup (or
none), the trace of `Sent k` / `Dropped k` / `Awaited k` events, the outcome,
and the final packet counter.

Files:

- `engine.dfy`: the engine's statuses, ack modes and ack-wait results.
- `loss.dfy`: the loss policies.
- `text.dfy`: Python's `str.split` and base-10 `int()`, with their inverses.
- `options.dfy`: the configuration decisions.
- `sender.dfy`: one iteration, the loop, the whole sender, and an imperative
  `while` loop proved equal to the functional one.
- `properties.dfy`: the lemmas about traces.
- `program.dfy`: configuration followed by a session, and worked scenarios.

The outcome `Exhausted` belongs to the model, not the source. It means the
script ended before the engine reported `DONE` or `FAIL`. The source would
keep calling the engine; its termination depends on that engine.

Three details of the code shape the model:

- The code never checks that the L2 size is positive. The model accepts any
  integer.
- The early exit compares the L2 size with `len(msg)`, the number of
  characters in the string. The model uses the character count too.
- A malformed loss list is not reported with a message. `int()` raises
  `ValueError` and the program stops with a traceback. The model records
  this as the configuration error `BadLossList`.

## Model

| member | source | states |
|---|---|---|
| `Text.Split` | test-frag-client-udp.py:163 | splitting the loss-list option always yields at least one piece, and no piece contains a comma |
| `Text.JoinSplit` | test-frag-client-udp.py:163 | joining the split pieces with commas gives back the option string |
| `Text.SplitJoin` | test-frag-client-udp.py:163 | splitting a comma join of comma-free pieces gives back exactly those pieces |
| `Text.ParseInt` | test-frag-client-udp.py:163 | a string `int()` reads is not blank once surrounding whitespace is stripped |
| `Text.ParseShowInt` | test-frag-client-udp.py:163 | `int()` reads every integer's decimal text back as that integer, negative numbers included |
| `Options.AtMostOneOf3` | test-frag-client-udp.py:96-97 | the one-in-three test holds exactly when at most one of the three loss flags is set |
| `Options.ParseAll` | test-frag-client-udp.py:163 | the list converts only if every piece converts; the result has one integer per piece, in order, each the piece's `int()` value |
| `Options.ParseLossList` | test-frag-client-udp.py:163 | a loss list that converts has one integer per comma-separated piece, and at least one |
| `Options.LossListRoundTrip` | test-frag-client-udp.py:160-163 | any non-empty list of indices written with commas parses back to the same list |
| `Options.ParseDTag` | test-frag-client-udp.py:172-179 | an absent DTag gives no tag; a present one is accepted exactly when `int()` reads it, with that value, and otherwise gives the DTag error |
| `Options.DTagRoundTrip` | test-frag-client-udp.py:176 | a DTag written as a number is read back as that number |
| `Options.Configure` | test-frag-client-udp.py:156-179 | more than one loss option is rejected, and only then with that error; otherwise a loss list that does not parse is rejected, then a DTag that does not parse, each exactly in that case; an accepted configuration selects the policy of the one option given (none if none) and the DTag `ParseDTag` reads |
| `Loss.ShouldDrop` | test-frag-client-udp.py:16-23 | without a policy nothing is dropped; a loss list drops exactly the listed counter values; a rate of 0 never drops and a rate of 1 always drops, for any draw in [0, 1) |
| `Loss.RateZeroNeverDrops` | test-frag-client-udp.py:19-20 | with a loss rate of 0 no fragment is dropped, for any draw of `random.random()` |
| `Loss.RateOneAlwaysDrops` | test-frag-client-udp.py:19-20 | with a loss rate of 1 every fragment is dropped |
| `Sender.Iterate` | test-frag-client-udp.py:54-91 | one iteration fails exactly on `FAIL` and ends the session exactly on a terminal round; `DONE` and `FAIL` put nothing on the wire; a produced fragment is first sent or dropped as the policy decides for counter `k` |
| `Sender.IterationCounter` | test-frag-client-udp.py:50-73 | every event of one iteration carries that iteration's counter value `k` |
| `Sender.IterationEvents` | test-frag-client-udp.py:61-73 | within one iteration the fragment is sent once or dropped once, never both, and one ack wait happens exactly when the mode is not No-ACK and the status is `WAIT_ACK` |
| `Sender.Loop` | test-frag-client-udp.py:41-93 | the counter only grows and never exceeds the script; the loop never reports "no fragmentation"; running out of script means every round was consumed |
| `Sender.LoopCounters` | test-frag-client-udp.py:41-51 | every event carries the 1-based counter value of its iteration, between the calls already made and the final count |
| `Sender.Send` | test-frag-client-udp.py:25-36 | no fragmentation happens exactly when `l2_size >= len(msg)`, equality included; then there is no engine setup, no event and no call; otherwise the engine is set up with the message, DTag and L2 size |
| `Sender.RunSender` | test-frag-client-udp.py:25-36 | the imperative sender yields the same session as `Send` |
| `Sender.RunLoop` | test-frag-client-udp.py:41-93 | the `while True` loop, with its counter incremented after each `next_fragment` call and exits on the terminal statuses, yields the same run as `Loop` |
| `Properties.StopsAtFirstTerminal` | test-frag-client-udp.py:44-91 | the loop stops at the first round that ends the session and at no earlier one; it fails exactly when that round is `FAIL`; it runs out of script exactly when no round ends it |
| `Properties.EventsOfIterations` | test-frag-client-udp.py:44-93 | each event occurs in the trace as often as the iteration with its counter value produces it, and never for an iteration that did not run |
| `Properties.TransmitOnce` | test-frag-client-udp.py:61-65 | each iteration that produced a fragment sends it or drops it exactly once; it is sent iff the policy does not drop it at that counter value; `DONE`/`FAIL` iterations do neither |
| `Properties.AckWaitIff` | test-frag-client-udp.py:68-73 | an ack wait after iteration `k` happens iff the mode is not No-ACK and the status was `WAIT_ACK`, dropped or not; it happens at most once, with that round's result |
| `Properties.EventsInOrder` | test-frag-client-udp.py:61-73 | events come in counter order, and within an iteration the send or drop precedes the ack wait |
| `Properties.FailedIterationSilent` | test-frag-client-udp.py:54-55 | the iteration that fails sends, drops and awaits nothing |
| `Properties.FailEndsSession` | test-frag-client-udp.py:50-58 | a session fails iff it was fragmented and the last `next_fragment` call returned `FAIL`; that iteration puts nothing on the wire and no earlier round ended the session |
| `Properties.LossListDropsListed` | test-frag-client-udp.py:16-17 | with the index-list policy the fragment at counter `k` is dropped iff `k` is in the list and sent iff it is not |
| `Properties.NoLossSendsAll` | test-frag-client-udp.py:61-64 | without a loss option every produced fragment is sent exactly once and none is dropped |
| `Properties.NoAckNeverWaits` | test-frag-client-udp.py:68 | in No-ACK mode the sender never waits for an acknowledgment |
| `Properties.AckOutcomes` | test-frag-client-udp.py:76-91 | a wait whose ack parses to `DONE` ends the session with success; a timeout, another error or another parsed status lets the loop continue |
| `Program.Start` | test-frag-client-udp.py:156-159 | more than one loss option is rejected before any session runs; a session runs exactly when the configuration is accepted, with the configured policy and DTag |
| `Program.NoAckThreeFragments` | test-frag-client-udp.py:44-65 | a No-ACK session with three fragments sends fragments 1, 2 and 3 and completes on the fourth call, without waiting |
| `Program.TimeoutThenFinalAck` | test-frag-client-udp.py:68-91 | in an ack mode a timed-out wait is followed by another round, and the ack that parses to `DONE` completes the session |
| `Program.DroppedFragmentStillAwaited` | test-frag-client-udp.py:61-73 | a dropped fragment still counts and is still followed by the ack wait its status asks for |

## Left out

- Socket creation, `sendto`, `recvfrom` and the socket timeout are not modelled as I/O. A send is a trace event, and a wait's result comes from the script.
- `time.sleep(opt.interval)` between iterations is left out. Pacing does not change the trace.
- The timeout test, a search for "timeout" in `repr(e)`, becomes the structured result `Timeout`. Every other exception becomes `OtherError`. Both are absorbed in the same way.
- The fragmentation engine, `fragment_factory`, `setbuf` and rule resolution through `schc_fragment_ruledb` are foreign code. The engine's answers are the script. The setup call is recorded as `EngineSetup`, and the rule is reduced to its ack mode.
- Loop termination depends on the engine. The model bounds the loop by the length of the script and reports `Exhausted` when the script runs out.
- `random.random()` and `random.choice` are draws taken from the script. The loss rate and the draw are modelled as exact reals, not binary floating point.
- argparse itself is left out: conversion of `--loss-rate` to a float, required options, the debug options, `--version` and the server address.
- Reading the message from stdin or a file is left out, and so is the per-line mode. Each line would be one call of the sender, with the counter reset to zero.
- `Text.ParseInt`: the model's `int()` skips only the ASCII whitespace space, tab, line feed, carriage return, vertical tab and form feed, and reads only ASCII digits. Python also accepts Unicode whitespace and Unicode decimal digits, which the model rejects.
- `Text.ParseInt`: CPython 3.11 and later reject strings of more than 4300 digits by default; the model accepts numbers of any length.
- `Text.ParseInt`: its own contract only says that an accepted string is not blank. Its meaning is stated by the round-trip lemma `Text.ParseShowInt`.
- `Options.ParseLossList`: its own contract only relates the length of the result to the pieces. Its meaning is stated by `Options.ParseAll` and the round-trip lemma `Options.LossListRoundTrip`.
