/** The buffered channel `bytesChan` of nomsCmdLog (`make(chan chan []byte,
    parallelism)`), seen from the goroutines that use it. Each element is the
    ticket of one admitted log node: the n-th node the producer admitted has
    ticket n, and stands for the per-node channel its render goroutine answers on. */
module Channels {

  /** What a receive on the channel does when the receiver does not block. */
  datatype Received =
    | Got(ticket: nat)   // the oldest buffered element
    | ClosedEmpty        // the channel is closed and drained: `range` ends
    | WouldBlock         // nothing buffered yet and not closed: the receiver waits

  /** Position `i` of a ring of `n` slots, for `i < 2 * n`. */
  function Wrap(i: nat, n: nat): (k: nat)
    requires 0 < n && i < 2 * n
    ensures k < n && (k == i || k + n == i)
  {
    if i < n then i else i - n
  }

  /** A bounded FIFO channel over a ring buffer of fixed capacity. */
  class SlotQueue {
    ghost var Contents: seq<nat>   // the buffered elements, oldest first
    var buf: array<nat>
    var head: nat
    var count: nat
    var closed: bool

    ghost predicate Valid()
      reads this, buf
    {
      0 < buf.Length && head < buf.Length && count <= buf.Length && |Contents| == count
      && forall i :: 0 <= i < count ==> Contents[i] == buf[Wrap(head + i, buf.Length)]
    }

    /** `make(chan T, capacity)`: an open, empty channel. */
    constructor (capacity: nat)
      requires capacity > 0
      ensures Valid() && fresh(buf) && buf.Length == capacity
      ensures Contents == [] && !closed
    {
      buf := new nat[capacity];
      head, count, closed := 0, 0, false;
      Contents := [];
    }

    /** The number of buffered elements, `len(ch)`. */
    method Len() returns (n: nat)
      requires Valid()
      ensures n == |Contents| && n <= buf.Length
    {
      n := count;
    }

    /** A send that does not block: it buffers `x` when there is room, and does
        nothing when the buffer is full (the sender would wait). Sending on a
        closed channel panics in Go, so the channel must be open. */
    method TryPush(x: nat) returns (pushed: bool)
      requires Valid() && !closed
      modifies this, buf
      ensures Valid() && buf == old(buf) && closed == old(closed)
      ensures pushed <==> old(|Contents|) < buf.Length
      ensures Contents == if pushed then old(Contents) + [x] else old(Contents)
    {
      pushed := count < buf.Length;
      if pushed {
        buf[Wrap(head + count, buf.Length)] := x;
        count := count + 1;
        Contents := Contents + [x];
      }
    }

    /** A receive that does not block. Buffered elements are still delivered
        after `close`; only an empty channel reports that it is closed. */
    method TryReceive() returns (r: Received)
      requires Valid()
      modifies this
      ensures Valid() && buf == old(buf) && closed == old(closed)
      ensures old(Contents) != [] ==> r == Got(old(Contents)[0]) && Contents == old(Contents)[1..]
      ensures old(Contents) == [] ==> Contents == [] && r == (if closed then ClosedEmpty else WouldBlock)
    {
      if count > 0 {
        r := Got(buf[head]);
        head := Wrap(head + 1, buf.Length);
        count := count - 1;
        Contents := Contents[1..];
      } else if closed {
        r := ClosedEmpty;
      } else {
        r := WouldBlock;
      }
    }

    /** `close(ch)`; closing a closed channel panics in Go. */
    method Close()
      requires Valid() && !closed
      modifies this
      ensures Valid() && buf == old(buf) && closed && Contents == old(Contents)
    {
      closed := true;
    }
  }
}
