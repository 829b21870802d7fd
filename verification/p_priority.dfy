/** Strict priority between queues, and the `Priority` pipe of
    `examples/model/p_priority.py` built on it. */
module StrictPriority {
  import opened Base
  import opened Pipelines
  import opened Messages
  import opened Queues
  import opened Pipes

  /** Every key names a queue of the pipe. */
  predicate Registered(p: Pipe, keys: seq<QueueKey>) {
    forall k :: k in keys ==> Find(p.queues, k).Some?
  }

  /** Queues carrying the keys as their ids, in order, register every key. */
  lemma IdsRegistered(p: Pipe, keys: seq<QueueKey>)
    requires |p.queues| == |keys| && forall i :: 0 <= i < |keys| ==> p.queues[i].id == keys[i]
    ensures Registered(p, keys)
  {
    forall k | k in keys
      ensures Find(p.queues, k).Some?
    {
      var i :| 0 <= i < |keys| && keys[i] == k;
      assert p.queues[i].id == k;
    }
  }

  /** The queue registered under `k`. */
  function Queued(p: Pipe, k: QueueKey): Queue
    requires Find(p.queues, k).Some?
  {
    p.queues[Find(p.queues, k).value]
  }

  /** The position in `keys` of the first queue holding a message, or `|keys|`
      when they are all empty. */
  function FirstBusy(p: Pipe, keys: seq<QueueKey>): (j: nat)
    requires Registered(p, keys)
    ensures j <= |keys|
    ensures j < |keys| ==> Len(Queued(p, keys[j])) > 0
    ensures forall l :: 0 <= l < j ==> Len(Queued(p, keys[l])) == 0
    decreases |keys|
  {
    if keys == [] then 0
    else if Len(Queued(p, keys[0])) > 0 then 0
    else 1 + FirstBusy(p, keys[1..])
  }

  /** An `if len(a) > 0: pop a elif len(b) > 0: pop b … else: pop last` chain:
      the first queue of `keys` holding a message is popped; when all are empty
      the last one is popped, which yields `None` and changes nothing. */
  function StrictPop(p: Pipe, keys: seq<QueueKey>): (r: Result<(Pipe, Option<Message>)>)
    requires |keys| > 0 && Registered(p, keys)
    ensures FirstBusy(p, keys) < |keys| ==> r == QueuePop(p, keys[FirstBusy(p, keys)])
    ensures FirstBusy(p, keys) == |keys| ==> r == Ok((p, None))
    decreases |keys|
  {
    if |keys| == 1 then
      var i := Find(p.queues, keys[0]).value;
      assert p.queues[i := p.queues[i]] == p.queues;
      QueuePop(p, keys[0])
    else if Len(Queued(p, keys[0])) > 0 then
      QueuePop(p, keys[0])
    else
      assert Registered(p, keys[1..]);
      StrictPop(p, keys[1..])
  }

  /** What strict priority promises: the popped message is the head of the first
      non-empty queue, only that queue changes, and nothing is popped exactly
      when every queue is empty. */
  lemma StrictPopServesFirstBusy(p: Pipe, keys: seq<QueueKey>)
    requires |keys| > 0 && Registered(p, keys)
    ensures StrictPop(p, keys).Ok?
    ensures StrictPop(p, keys).value.1.None? <==> forall j :: 0 <= j < |keys| ==> Len(Queued(p, keys[j])) == 0
    ensures var j := FirstBusy(p, keys);
            var i := if j < |keys| then Find(p.queues, keys[j]).value else 0;
            j < |keys| ==>
              && StrictPop(p, keys).value.1 == Some(p.queues[i].buffer[0])
              && StrictPop(p, keys).value.0 == p.(queues := p.queues[i := p.queues[i].(buffer := p.queues[i].buffer[1..])])
  {
    var j := FirstBusy(p, keys);
    if j == |keys| {
      assert forall l :: 0 <= l < |keys| ==> Len(Queued(p, keys[l])) == 0;
    }
  }

  const Express: QueueKey := QName("express")
  const Fast: QueueKey := QName("fast")
  const Slow: QueueKey := QName("slow")

  /** The `Priority` pipe: exactly the queues express, fast and slow. */
  function PriorityPipe(owner: ResId): (p: Pipe)
    ensures p.owner == owner && !p.available
    ensures p.queues == [NewQueue(Express), NewQueue(Fast), NewQueue(Slow)]
    ensures Registered(p, [Express, Fast, Slow])
  {
    var keys := [Express, Fast, Slow];
    assert NoDup(keys) by {
      assert keys[0].name[0] == 'e' && keys[1].name[0] == 'f' && keys[2].name[0] == 's';
    }
    PipeWithFresh(owner, keys);
    var p := PipeWith(owner, keys);
    IdsRegistered(p, keys);
    p
  }

  /** The class a message joins, by its id: 'first' rides express, 'business'
      fast, and everyone else slow. */
  function Route(m: Message): (k: QueueKey)
    ensures k == Express <==> m.id == "first"
    ensures k == Fast <==> m.id == "business"
    ensures k == Slow <==> m.id != "first" && m.id != "business"
  {
    if m.id == "first" then Express
    else if m.id == "business" then Fast
    else if m.id == "economy" then Slow
    else Slow
  }

  /** The body of `Priority.enqueue`: the message joins the tail of its class
      while that queue has room and is dropped otherwise; the other classes
      are left alone. */
  function Admit(p: Pipe, m: Message): (r: Result<(Pipe, Pushed)>)
    requires Registered(p, [Express, Fast, Slow])
    ensures r.Ok? ==> forall k :: Find(r.value.0.queues, k) == Find(p.queues, k)
    ensures r.Ok? ==> Registered(r.value.0, [Express, Fast, Slow])
    ensures var q := Queued(p, Route(m));
            var m1 := m.(location := AtQueue(p.owner, Route(m)));
            q.capacity.Exceeds(|q.buffer|) ==>
              && r.Ok? && r.value.1.result == Some(m1)
              && Queued(r.value.0, Route(m)).buffer == q.buffer + [m1]
    ensures var q := Queued(p, Route(m));
            var m1 := m.(location := AtQueue(p.owner, Route(m)));
            !q.capacity.Exceeds(|q.buffer|) ==>
              && (r.Ok? <==> Done(m1).Ok?)
              && (r.Ok? ==> r.value.1.result.None? && r.value.0 == p)
    ensures r.Ok? ==> forall k :: k != Route(m) && Find(p.queues, k).Some? ==> Queued(r.value.0, k) == Queued(p, k)
  {
    assert Route(m) in [Express, Fast, Slow];
    var i := Find(p.queues, Route(m)).value;
    assert p.queues[i := p.queues[i]] == p.queues;
    QueuePush(p, Route(m), m)
  }

  /** `Priority.enqueue` under the enqueue wrapper: enter the pipe, `Admit`,
      then consult `full()`, so that afterwards an active queue holding a
      message always leaves the pipe available. */
  function Enqueue(p: Pipe, m: Message): (r: Result<(Pipe, Pushed)>)
    requires Registered(p, [Express, Fast, Slow])
    ensures EnterPipe(p, m).Err? ==> r == Err(EnterPipe(p, m).error)
    ensures EnterPipe(p, m).Ok? ==>
              && (r.Ok? <==> Admit(p, EnterPipe(p, m).value).Ok?)
              && (r.Ok? ==> r.value.1 == Admit(p, EnterPipe(p, m).value).value.1)
              && (r.Ok? ==> r.value.0.queues == Admit(p, EnterPipe(p, m).value).value.0.queues)
    ensures r.Ok? ==> Registered(r.value.0, [Express, Fast, Slow])
    ensures r.Ok? && ActiveLoad(r.value.0.queues) > 0 ==> r.value.0.available
    ensures r.Ok? && p.available ==> r.value.0.available
  {
    var m1 :- EnterPipe(p, m);
    var (p1, pushed) :- Admit(p, m1);
    Ok((Full(p1).0, pushed))
  }

  /** `Priority.dequeue`: express before fast before slow. */
  function Dequeue(p: Pipe): (r: Result<(Pipe, Option<Message>)>)
    requires Registered(p, [Express, Fast, Slow])
    ensures r == StrictPop(p, [Express, Fast, Slow])
  {
    StrictPop(p, [Express, Fast, Slow])
  }

  /** A waiting express message is always served before any other. */
  lemma ExpressFirst(p: Pipe)
    requires Registered(p, [Express, Fast, Slow])
    requires Len(Queued(p, Express)) > 0
    ensures Dequeue(p) == QueuePop(p, Express)
  {
    assert FirstBusy(p, [Express, Fast, Slow]) == 0;
  }

  /** A 'first' message that enters an otherwise empty `Priority` pipe is the
      next one out, and the pipe is left available. */
  lemma FirstClassOvertakes(owner: ResId, p: Pipe, m: Message)
    requires p.queues == PriorityPipe(owner).queues && p.owner == owner
    requires m.id == "first" && EnterPipe(p, m).Ok?
    ensures Enqueue(p, m).Ok?
    ensures var (p1, pushed) := Enqueue(p, m).value;
            && pushed.result == Some(EnterPipe(p, m).value.(location := AtQueue(owner, Express)))
            && p1.available
            && Dequeue(p1).Ok? && Dequeue(p1).value.1 == pushed.result
  {
    var m0 := EnterPipe(p, m).value;
    var m1 := m0.(location := AtQueue(owner, Express));
    assert Find(p.queues, Express) == Some(0);
    assert Route(m0) == Express;
    var p1 := Enqueue(p, m).value.0;
    assert p1.queues[0].buffer == [m1];
    assert ActiveLoad(p1.queues) > 0;
    assert FirstBusy(p1, [Express, Fast, Slow]) == 0;
  }
}
