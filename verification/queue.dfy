/** `simpype/queue.py` and the default discipline of `simpype/model/queue.py`:
    a buffer of messages with a capacity and an `active` flag. */
module Queues {
  import opened Base
  import opened Pipelines
  import opened Messages

  datatype Queue = Queue(id: QueueKey, buffer: seq<Message>, capacity: Bound, active: bool)

  /** `Queue(sim, pipe, id)`: empty, unbounded and active. */
  function NewQueue(id: QueueKey): (q: Queue)
    ensures q.id == id && q.buffer == [] && q.capacity == Unbounded && q.active
    ensures Len(q) == 0
  {
    Queue(id, [], Unbounded, true)
  }

  /** `__len__`. */
  function Len(q: Queue): nat {
    |q.buffer|
  }

  /** Whether the buffer is within its capacity. */
  predicate WithinCapacity(q: Queue) {
    q.capacity.AtLeast(|q.buffer|)
  }

  /** `disable`: the `active` flag is cleared and nothing else changes. */
  function Disable(q: Queue): (r: Queue)
    ensures !r.active && r == q.(active := false)
  {
    q.(active := false)
  }

  /** The buffer without the first entry equal to `m`. */
  function RemoveFirst(buffer: seq<Message>, m: Message): (r: seq<Message>)
    ensures m !in buffer ==> r == buffer
    ensures m in buffer ==> |r| == |buffer| - 1
    ensures m in buffer ==>
              var i := IndexOf(buffer, m);
              r == buffer[..i] + buffer[i + 1..]
    ensures multiset(r) + (if m in buffer then multiset{m} else multiset{}) == multiset(buffer)
  {
    if m in buffer then
      var i := IndexOf(buffer, m);
      assert buffer == buffer[..i] + [m] + buffer[i + 1..];
      buffer[..i] + buffer[i + 1..]
    else buffer
  }

  /** `_message_dropped`: the message must be located at this queue; it leaves
      the buffer if it is buffered. */
  function QueueMessageDropped(q: Queue, owner: ResId, m: Message): (r: Result<Queue>)
    ensures r.Err? <==> m.location != AtQueue(owner, q.id)
    ensures r.Err? ==> r.error == WrongLocation
    ensures r.Ok? ==> r.value == q.(buffer := RemoveFirst(q.buffer, m))
    ensures r.Ok? && m !in q.buffer ==> r.value == q
  {
    if m.location != AtQueue(owner, q.id) then Err(WrongLocation)
    else
      Ok(q.(buffer := RemoveFirst(q.buffer, m)))
  }

  /** What a push leaves behind: the queue, the discipline's result (the message
      when admitted, `None` when rejected), and the message's own new state. */
  datatype Pushed = Pushed(queue: Queue, result: Option<Message>, msg: Message)

  /** The default `push`: admit at the tail while below capacity; otherwise
      drop the message with cause 'full', which finalises it and leaves the
      buffer alone. The message is already located at this queue. */
  function FifoPush(q: Queue, owner: ResId, m: Message): (r: Result<Pushed>)
    requires m.location == AtQueue(owner, q.id)
    ensures q.capacity.Exceeds(|q.buffer|) ==>
              r == Ok(Pushed(q.(buffer := q.buffer + [m]), Some(m), m))
    ensures !q.capacity.Exceeds(|q.buffer|) ==>
              (r.Ok? <==> Done(m).Ok?)
    ensures !q.capacity.Exceeds(|q.buffer|) && r.Ok? ==>
              r.value == Pushed(q, None, Done(m).value)
    ensures WithinCapacity(q) && r.Ok? ==> WithinCapacity(r.value.queue)
  {
    if q.capacity.Exceeds(|q.buffer|) then
      Ok(Pushed(q.(buffer := q.buffer + [m]), Some(m), m))
    else
      // `_drop` notifies this queue, which finds the message not buffered.
      var (dropped, notice) :- Drop(m, "full", None);
      Ok(Pushed(q, None, dropped))
  }

  /** The default `pop`: the head leaves; an empty buffer yields `None`. */
  function FifoPop(q: Queue): (r: (Queue, Option<Message>))
    ensures |q.buffer| > 0 ==> r == (q.(buffer := q.buffer[1..]), Some(q.buffer[0]))
    ensures |q.buffer| == 0 ==> r == (q, None)
    ensures Len(r.0) == if |q.buffer| > 0 then Len(q) - 1 else 0
  {
    if |q.buffer| > 0 then (q.(buffer := q.buffer[1..]), Some(q.buffer[0])) else (q, None)
  }

  /** Pushes a run of messages located at the queue, stopping at the first failure. */
  function PushAll(q: Queue, owner: ResId, ms: seq<Message>): (r: Result<(Queue, seq<Message>)>)
    requires forall i :: 0 <= i < |ms| ==> ms[i].location == AtQueue(owner, q.id)
    ensures r.Ok? ==> r.value.0.id == q.id && r.value.0.capacity == q.capacity
    decreases |ms|
  {
    if ms == [] then Ok((q, []))
    else
      var p :- FifoPush(q, owner, ms[0]);
      var (q2, admitted) :- PushAll(p.queue, owner, ms[1..]);
      Ok((q2, (if p.result.Some? then [ms[0]] else []) + admitted))
  }

  /** Pops `n` times. */
  function Drain(q: Queue, n: nat): (r: (Queue, seq<Message>))
    ensures n <= |q.buffer| ==> r.1 == q.buffer[..n] && r.0.buffer == q.buffer[n..]
    decreases n
  {
    if n == 0 then (q, [])
    else
      var (q1, m) := FifoPop(q);
      var (q2, out) := Drain(q1, n - 1);
      (q2, (if m.Some? then [m.value] else []) + out)
  }

  /** Admitted messages join the buffer in the order they were pushed. */
  lemma {:induction false} PushAllAppends(q: Queue, owner: ResId, ms: seq<Message>)
    requires forall i :: 0 <= i < |ms| ==> ms[i].location == AtQueue(owner, q.id)
    requires PushAll(q, owner, ms).Ok?
    ensures PushAll(q, owner, ms).value.0.buffer == q.buffer + PushAll(q, owner, ms).value.1
    decreases |ms|
  {
    if ms != [] {
      var p := FifoPush(q, owner, ms[0]).value;
      PushAllAppends(p.queue, owner, ms[1..]);
      var rest := PushAll(p.queue, owner, ms[1..]).value;
      if p.result.Some? {
        assert p.queue.buffer == q.buffer + [ms[0]];
        assert q.buffer + [ms[0]] + rest.1 == q.buffer + ([ms[0]] + rest.1);
      }
    }
  }

  /** First in, first out: starting empty, draining returns exactly the
      admitted messages, in the order they were pushed. */
  lemma Fifo(q: Queue, owner: ResId, ms: seq<Message>)
    requires q.buffer == []
    requires forall i :: 0 <= i < |ms| ==> ms[i].location == AtQueue(owner, q.id)
    requires PushAll(q, owner, ms).Ok?
    ensures var (full, admitted) := PushAll(q, owner, ms).value;
            Drain(full, |admitted|).1 == admitted && Drain(full, |admitted|).0.buffer == []
  {
    PushAllAppends(q, owner, ms);
  }

  /** With unbounded capacity every message is admitted. */
  lemma {:induction false} UnboundedAdmitsAll(q: Queue, owner: ResId, ms: seq<Message>)
    requires q.capacity == Unbounded
    requires forall i :: 0 <= i < |ms| ==> ms[i].location == AtQueue(owner, q.id)
    ensures PushAll(q, owner, ms) == Ok((q.(buffer := q.buffer + ms), ms))
    decreases |ms|
  {
    if ms != [] {
      var q1 := q.(buffer := q.buffer + [ms[0]]);
      assert FifoPush(q, owner, ms[0]) == Ok(Pushed(q1, Some(ms[0]), ms[0]));
      assert forall i :: 0 <= i < |ms| - 1 ==> ms[1..][i] == ms[i + 1];
      UnboundedAdmitsAll(q1, owner, ms[1..]);
      assert q1.buffer + ms[1..] == q.buffer + ms;
      assert [ms[0]] + ms[1..] == ms;
      assert PushAll(q, owner, ms) == Ok((q1.(buffer := q1.buffer + ms[1..]), [ms[0]] + ms[1..]));
    } else {
      assert q.buffer + ms == q.buffer;
    }
  }

  /** A buffer that starts within its capacity stays within it, whatever is pushed. */
  lemma {:induction false} PushAllWithinCapacity(q: Queue, owner: ResId, ms: seq<Message>)
    requires WithinCapacity(q)
    requires forall i :: 0 <= i < |ms| ==> ms[i].location == AtQueue(owner, q.id)
    requires PushAll(q, owner, ms).Ok?
    ensures WithinCapacity(PushAll(q, owner, ms).value.0)
    decreases |ms|
  {
    if ms != [] {
      var p := FifoPush(q, owner, ms[0]).value;
      PushAllWithinCapacity(p.queue, owner, ms[1..]);
    }
  }
}
