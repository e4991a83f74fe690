/** Subscriber channels: 256 slots, and sends that never block (ops/backend/scheduler/scheduler.go:235, 430-434). */
module Channels {
  type SubId = nat

  const CHANNEL_CAP: nat := 256

  /** A send that is dropped when the buffer is full. */
  function Enqueued<E>(buf: seq<E>, event: E): seq<E>
  {
    if |buf| < CHANNEL_CAP then buf + [event] else buf
  }
}
