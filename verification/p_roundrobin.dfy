/** The `RoundRobin` pipe of `examples/model/p_roundrobin.py`: numbered
    queues served in cyclic order from a pointer. */
module RoundRobins {
  import opened Base
  import opened Pipelines
  import opened Messages
  import opened Queues
  import opened Pipes

  /** The pipe's queues are numbered by position. */
  predicate Numbered(p: Pipe) {
    forall i :: 0 <= i < |p.queues| ==> p.queues[i].id == QIndex(i)
  }

  /** A round-robin pipe and `last`, the queue served most recently. */
  datatype RoundRobin = RoundRobin(pipe: Pipe, last: int)

  /** What every operation keeps: numbered queues, at least one, and a
      pointer naming one of them. */
  predicate Valid(rr: RoundRobin) {
    Numbered(rr.pipe) && |rr.pipe.queues| > 0 && 0 <= rr.last < |rr.pipe.queues|
  }

  /** In a numbered pipe, queue `i` is found at position `i`. */
  lemma {:induction false} FindNumbered(qs: seq<Queue>, i: nat, base: nat)
    requires forall j :: 0 <= j < |qs| ==> qs[j].id == QIndex(base + j)
    requires i < |qs|
    ensures Find(qs, QIndex(base + i)) == Some(i)
    decreases |qs|
  {
    if i > 0 {
      FindNumbered(qs[1..], i - 1, base + 1);
      assert qs[0].id != QIndex(base + i);
    }
  }

  /** `RoundRobin(sim, resource, id)`: queues 0 to 3, the pointer at 3. */
  function RoundRobinPipe(owner: ResId): (rr: RoundRobin)
    ensures Valid(rr) && |rr.pipe.queues| == 4 && rr.last == 3
    ensures rr.pipe.owner == owner && !rr.pipe.available
    ensures forall i :: 0 <= i < 4 ==> rr.pipe.queues[i] == NewQueue(QIndex(i))
  {
    var keys := seq(4, i => QIndex(i));
    PipeWithFresh(owner, keys);
    var p := PipeWith(owner, keys);
    assert forall i :: 0 <= i < 4 ==> p.queues[i] == NewQueue(keys[i]);
    RoundRobin(p, 3)
  }

  /** The queue `d` steps after the pointer, cyclically, for `d` up to once round. */
  function After(rr: RoundRobin, d: int): (j: nat)
    requires Valid(rr) && 0 <= d <= |rr.pipe.queues|
    ensures j < |rr.pipe.queues|
  {
    if rr.last + d < |rr.pipe.queues| then rr.last + d else rr.last + d - |rr.pipe.queues|
  }

  /** One step of Python's `(last + 1) % n`. */
  lemma StepMod(x: int, n: int)
    requires 0 <= x < n
    ensures (x + 1) % n == if x + 1 == n then 0 else x + 1
  {
  }

  /** How far the pointer moves: the first step `d` in 1..n whose queue holds a
      message, or n when all are empty. */
  function Advance(rr: RoundRobin): (d: nat)
    requires Valid(rr)
    ensures 1 <= d <= |rr.pipe.queues|
    ensures d < |rr.pipe.queues| ==> Len(rr.pipe.queues[After(rr, d)]) > 0
    ensures forall e :: 1 <= e < d ==> Len(rr.pipe.queues[After(rr, e)]) == 0
  {
    AdvanceFrom(rr, 1)
  }

  function AdvanceFrom(rr: RoundRobin, d: nat): (r: nat)
    requires Valid(rr) && 1 <= d <= |rr.pipe.queues|
    ensures d <= r <= |rr.pipe.queues|
    ensures r < |rr.pipe.queues| ==> Len(rr.pipe.queues[After(rr, r)]) > 0
    ensures forall e :: d <= e < r ==> Len(rr.pipe.queues[After(rr, e)]) == 0
    decreases |rr.pipe.queues| - d
  {
    if d == |rr.pipe.queues| || Len(rr.pipe.queues[After(rr, d)]) > 0 then d
    else AdvanceFrom(rr, d + 1)
  }

  /** What one `dequeue` does, stated without the loop: the pointer moves on by
      `Advance` and the queue it then names is popped. */
  function Serve(rr: RoundRobin): (r: (RoundRobin, Option<Message>))
    requires Valid(rr)
    ensures Valid(r.0) && r.0.pipe.owner == rr.pipe.owner && r.0.pipe.available == rr.pipe.available
    ensures |r.0.pipe.queues| == |rr.pipe.queues|
    ensures forall j :: 0 <= j < |rr.pipe.queues| && j != r.0.last ==> r.0.pipe.queues[j] == rr.pipe.queues[j]
    ensures r.1.None? <==> forall j :: 0 <= j < |rr.pipe.queues| ==> Len(rr.pipe.queues[j]) == 0
    ensures r.1.Some? ==> Len(rr.pipe.queues[r.0.last]) > 0 && r.1 == Some(rr.pipe.queues[r.0.last].buffer[0])
    ensures r.1.None? ==> r.0 == rr
  {
    var l := After(rr, Advance(rr));
    var (q, m) := FifoPop(rr.pipe.queues[l]);
    var r := RoundRobin(rr.pipe.(queues := rr.pipe.queues[l := q]), l);
    assert Numbered(r.pipe) by {
      assert forall j :: 0 <= j < |rr.pipe.queues| ==> r.pipe.queues[j].id == rr.pipe.queues[j].id;
    }
    AllEmptyWhenNoneFound(rr);
    (r, m)
  }

  /** When the pointer goes all the way round, every queue is empty. */
  lemma AllEmptyWhenNoneFound(rr: RoundRobin)
    requires Valid(rr)
    ensures (forall j :: 0 <= j < |rr.pipe.queues| ==> Len(rr.pipe.queues[j]) == 0) <==>
            Len(rr.pipe.queues[After(rr, Advance(rr))]) == 0
  {
    var n := |rr.pipe.queues|;
    if Len(rr.pipe.queues[After(rr, Advance(rr))]) == 0 {
      forall j | 0 <= j < n ensures Len(rr.pipe.queues[j]) == 0 {
        var d := Dist(rr, j);
        assert After(rr, d) == j;
      }
    }
  }

  /** How many steps the pointer takes to reach queue `j`: from 1 to n, n for the
      queue it already names. */
  function Dist(rr: RoundRobin, j: int): (d: nat)
    requires Valid(rr) && 0 <= j < |rr.pipe.queues|
    ensures 1 <= d <= |rr.pipe.queues| && After(rr, d) == j
  {
    if j > rr.last then j - rr.last else j - rr.last + |rr.pipe.queues|
  }

  /** `dequeue`: move the pointer one queue on at a time, at most once round,
      stopping at the first queue holding a message; pop the queue it points
      at. */
  method Dequeue(rr: RoundRobin) returns (r: RoundRobin, m: Option<Message>)
    requires Valid(rr)
    ensures Valid(r) && r.pipe.owner == rr.pipe.owner && r.pipe.available == rr.pipe.available
    ensures r.last == After(rr, Advance(rr))
    ensures var q := rr.pipe.queues[r.last];
            && m == FifoPop(q).1
            && r.pipe.queues == rr.pipe.queues[r.last := FifoPop(q).0]
    ensures (r, m) == Serve(rr)
  {
    var n := |rr.pipe.queues|;
    var last := rr.last;
    var i := 0;
    var found := false;
    while i < n && !found
      invariant 0 <= i <= n && 0 <= last < n
      invariant last == After(rr, i)
      invariant found ==> 1 <= i && Len(rr.pipe.queues[last]) > 0
      invariant forall e :: 1 <= e < i ==> Len(rr.pipe.queues[After(rr, e)]) == 0
      invariant !found ==> forall e :: 1 <= e <= i ==> Len(rr.pipe.queues[After(rr, e)]) == 0
      decreases n - i
    {
      StepMod(last, n);
      last := (last + 1) % n;
      i := i + 1;
      found := Len(rr.pipe.queues[last]) > 0;
    }
    AdvanceIs(rr, i);
    var (q, head) := FifoPop(rr.pipe.queues[last]);
    r := RoundRobin(rr.pipe.(queues := rr.pipe.queues[last := q]), last);
    m := head;
    assert Numbered(r.pipe) by {
      assert forall j :: 0 <= j < n ==> r.pipe.queues[j].id == rr.pipe.queues[j].id;
    }
  }

  /** `Advance` is the first busy step. */
  lemma AdvanceIs(rr: RoundRobin, d: nat)
    requires Valid(rr) && 1 <= d <= |rr.pipe.queues|
    requires d < |rr.pipe.queues| ==> Len(rr.pipe.queues[After(rr, d)]) > 0
    requires forall e :: 1 <= e < d ==> Len(rr.pipe.queues[After(rr, e)]) == 0
    ensures Advance(rr) == d
  {
  }

  /** Queue `j` is popped by one of the next `k` dequeues. */
  predicate ServedWithin(rr: RoundRobin, j: int, k: nat)
    requires Valid(rr)
    decreases k
  {
    k > 0 &&
    var (next, m) := Serve(rr);
    (next.last == j && m.Some?) || ServedWithin(next, j, k - 1)
  }

  /** One dequeue that does not serve a waiting queue `j` brings the pointer
      closer to it, and leaves it waiting. */
  lemma CloserToWaiting(rr: RoundRobin, j: int)
    requires Valid(rr) && 0 <= j < |rr.pipe.queues| && Len(rr.pipe.queues[j]) > 0
    ensures var (next, m) := Serve(rr);
            || (next.last == j && m.Some?)
            || (Len(next.pipe.queues[j]) > 0 && Dist(next, j) < Dist(rr, j))
  {
    var a := Advance(rr);
    var d := Dist(rr, j);
    assert a <= d;
    var (next, m) := Serve(rr);
    if a < d {
      assert next.last != j;
      assert Dist(next, j) == d - a;
    }
  }

  /** No starvation: a queue holding a message is popped within as many
      dequeues as the pointer needs steps to reach it, so within one round. */
  lemma {:induction false} NoStarvation(rr: RoundRobin, j: int)
    requires Valid(rr) && 0 <= j < |rr.pipe.queues| && Len(rr.pipe.queues[j]) > 0
    ensures ServedWithin(rr, j, Dist(rr, j))
    ensures ServedWithin(rr, j, |rr.pipe.queues|)
    decreases Dist(rr, j)
  {
    CloserToWaiting(rr, j);
    var (next, m) := Serve(rr);
    if !(next.last == j && m.Some?) {
      NoStarvation(next, j);
      MoreRounds(next, j, Dist(next, j), Dist(rr, j) - 1);
    }
    MoreRounds(rr, j, Dist(rr, j), |rr.pipe.queues|);
  }

  /** Allowing more dequeues never loses a pop. */
  lemma {:induction false} MoreRounds(rr: RoundRobin, j: int, k: nat, l: nat)
    requires Valid(rr) && k <= l && ServedWithin(rr, j, k)
    ensures ServedWithin(rr, j, l)
    decreases k
  {
    var (next, m) := Serve(rr);
    if !(next.last == j && m.Some?) {
      MoreRounds(next, j, k - 1, l - 1);
    }
  }

  /** With every queue holding a message, the queues are served strictly in turn. */
  lemma InTurn(rr: RoundRobin)
    requires Valid(rr) && forall j :: 0 <= j < |rr.pipe.queues| ==> Len(rr.pipe.queues[j]) > 0
    ensures Serve(rr).0.last == (rr.last + 1) % |rr.pipe.queues|
    ensures Serve(rr).1.Some?
  {
    StepMod(rr.last, |rr.pipe.queues|);
  }

  const PriorityProp := "priority"

  /** Sets the priority to 0 when the message has none. */
  function WithPriority(m: Message): (r: Message)
    ensures PriorityProp in r.props
    ensures PriorityProp in m.props ==> r == m
    ensures PriorityProp !in m.props ==> r == m.(props := m.props[PriorityProp := Property(0.0, false)])
  {
    if PriorityProp in m.props then m else m.(props := m.props[PriorityProp := Property(0.0, false)])
  }

  /** The queue a priority value selects: 1, 2 and 3 their own queue, and
      anything else, 0 included, queue 0. */
  function RouteIndex(v: real): (k: int)
    ensures 0 <= k < 4
    ensures k == 0 <==> v != 1.0 && v != 2.0 && v != 3.0
    ensures k > 0 ==> v == k as real
  {
    if v == 3.0 then 3
    else if v == 2.0 then 2
    else if v == 1.0 then 1
    else if v == 0.0 then 0
    else 0
  }

  /** `enqueue` as written, under the enqueue wrapper: the message enters the
      pipe and is pushed onto the queue its priority selects, and then the
      method pushes it again under the name `priority`, which is bound
      nowhere, so it raises `NameError` after the first push and `full()` is
      never reached. */
  function EnqueueAsWritten(rr: RoundRobin, m: Message): (r: Result<(RoundRobin, Pushed)>)
    ensures r.Err?
    ensures EnterPipe(rr.pipe, m).Err? ==> r == Err(EnterPipe(rr.pipe, m).error)
    ensures EnterPipe(rr.pipe, m).Ok? ==>
              var m1 := WithPriority(EnterPipe(rr.pipe, m).value);
              QueuePush(rr.pipe, QIndex(RouteIndex(m1.props[PriorityProp].value)), m1).Ok? ==> r == Err(UndefinedName)
  {
    var m0 :- EnterPipe(rr.pipe, m);
    var m1 := WithPriority(m0);
    var (p1, pushed) :- QueuePush(rr.pipe, QIndex(RouteIndex(m1.props[PriorityProp].value)), m1);
    Err(UndefinedName)
  }

  /** The body of `enqueue` as intended: the result of the one push is returned. */
  function Admit(rr: RoundRobin, m: Message): (r: Result<(RoundRobin, Pushed)>)
    ensures var m1 := WithPriority(m);
            var push := QueuePush(rr.pipe, QIndex(RouteIndex(m1.props[PriorityProp].value)), m1);
            && (r.Ok? <==> push.Ok?)
            && (r.Ok? ==> r.value == (RoundRobin(push.value.0, rr.last), push.value.1))
    ensures r.Ok? && Valid(rr) ==> Valid(r.value.0)
  {
    var m1 := WithPriority(m);
    var (p1, pushed) :- QueuePush(rr.pipe, QIndex(RouteIndex(m1.props[PriorityProp].value)), m1);
    assert forall j :: 0 <= j < |rr.pipe.queues| ==> Find(p1.queues, QIndex(j)) == Find(rr.pipe.queues, QIndex(j));
    Ok((RoundRobin(p1, rr.last), pushed))
  }

  /** `enqueue` as intended, under the enqueue wrapper: enter the pipe,
      `Admit`, then consult `full()`. */
  function Enqueue(rr: RoundRobin, m: Message): (r: Result<(RoundRobin, Pushed)>)
    ensures EnterPipe(rr.pipe, m).Err? ==> r == Err(EnterPipe(rr.pipe, m).error)
    ensures EnterPipe(rr.pipe, m).Ok? ==>
              var a := Admit(rr, EnterPipe(rr.pipe, m).value);
              && (r.Ok? <==> a.Ok?)
              && (r.Ok? ==> r.value.1 == a.value.1 && r.value.0.last == rr.last)
              && (r.Ok? ==> r.value.0.pipe.queues == a.value.0.pipe.queues)
    ensures r.Ok? && Valid(rr) ==> Valid(r.value.0)
    ensures r.Ok? && ActiveLoad(r.value.0.pipe.queues) > 0 ==> r.value.0.pipe.available
  {
    var m1 :- EnterPipe(rr.pipe, m);
    var (rr1, pushed) :- Admit(rr, m1);
    Ok((rr1.(pipe := Full(rr1.pipe).0), pushed))
  }

  /** On a `RoundRobin` pipe, every message that enters is admitted to the
      queue its priority selects, at the tail, nothing else changes, and the
      pipe is left available. */
  lemma EnqueueAdmits(owner: ResId, rr: RoundRobin, m: Message)
    requires rr.pipe.queues == RoundRobinPipe(owner).pipe.queues && rr.pipe.owner == owner && 0 <= rr.last < 4
    requires EnterPipe(rr.pipe, m).Ok?
    ensures var m0 := WithPriority(EnterPipe(rr.pipe, m).value);
            var k := RouteIndex(m0.props[PriorityProp].value);
            var m1 := m0.(location := AtQueue(owner, QIndex(k)));
            && Enqueue(rr, m).Ok?
            && Enqueue(rr, m).value.1.result == Some(m1)
            && Enqueue(rr, m).value.0.pipe.queues == rr.pipe.queues[k := NewQueue(QIndex(k)).(buffer := [m1])]
            && Enqueue(rr, m).value.0.last == rr.last
            && Enqueue(rr, m).value.0.pipe.available
  {
    var m0 := WithPriority(EnterPipe(rr.pipe, m).value);
    var k := RouteIndex(m0.props[PriorityProp].value);
    var m1 := m0.(location := AtQueue(owner, QIndex(k)));
    var q := rr.pipe.queues[k];
    assert q == NewQueue(QIndex(k));
    FindNumbered(rr.pipe.queues, k, 0);
    assert Find(rr.pipe.queues, QIndex(k)) == Some(k);
    assert q.buffer + [m1] == [m1];
    assert FifoPush(q, owner, m1) == Ok(Pushed(q.(buffer := [m1]), Some(m1), m1));
    var push := QueuePush(rr.pipe, QIndex(k), m0);
    assert push.Ok? && push.value.1.result == Some(m1);
    var qs := rr.pipe.queues[k := NewQueue(QIndex(k)).(buffer := [m1])];
    assert push.value.0.queues == qs;
    ActiveLoadZero(qs);
    assert qs[k].active && qs[k].buffer != [];
  }
}
