/**
 * The interface the sender sees of the fragmentation engine and of the
 * socket. The engine itself is not part of this model: a session is driven
 * by a script of the answers the engine (and the network) give.
 */
module Engine {

  /** What `next_fragment` and `parse_ack` report: keep sending, a window or
      the last fragment is out and an ack is due, the session is complete, or
      fragmentation failed. */
  datatype Status = Cont | WaitAck | Done | Fail

  /** The acknowledgment mode of the fragmentation rule (section 8.4 of
      RFC 8724). Only the distinction between No-ACK and the other two
      matters to the sender loop. */
  datatype AckMode = NoAck | AckAlways | AckOnError

  /** How one wait for an acknowledgment ends: a datagram arrived and the
      engine parsed it to a status, the socket timed out, or some other
      exception was raised (by the socket or by the parser). */
  datatype AckWait = Ack(status: Status) | Timeout | OtherError

  /** A status that produced a fragment the loop must send or drop. */
  predicate Transmits(s: Status)
  {
    s == Cont || s == WaitAck
  }
}
