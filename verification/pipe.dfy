/** `simpype/pipe.py` and the default pipe of `simpype/model/pipe.py`: the
    queues in front of a resource, the `available` flag that wakes the
    resource, and the counting rule that keeps the resource within capacity. */
module Pipes {
  import opened Base
  import opened Pipelines
  import opened Messages
  import opened Queues

  /** A pipe: the resource it feeds, its queues in registration order, and
      whether `available` has been triggered. */
  datatype Pipe = Pipe(owner: ResId, queues: seq<Queue>, available: bool)

  predicate DistinctIds(qs: seq<Queue>) {
    forall i, j :: 0 <= i < j < |qs| ==> qs[i].id != qs[j].id
  }

  /** `Pipe(sim, resource, id)`: no queues, `available` not triggered. */
  function NewPipe(owner: ResId): (p: Pipe)
    ensures p.owner == owner && p.queues == [] && !p.available
  {
    Pipe(owner, [], false)
  }

  /** The position of the queue registered under `key`. */
  function Find(qs: seq<Queue>, key: QueueKey): (r: Option<nat>)
    ensures r.None? <==> forall i :: 0 <= i < |qs| ==> qs[i].id != key
    ensures r.Some? ==> r.value < |qs| && qs[r.value].id == key
    ensures r.Some? ==> forall i :: 0 <= i < r.value ==> qs[i].id != key
  {
    if qs == [] then None
    else if qs[0].id == key then Some(0)
    else match Find(qs[1..], key)
      case None => None
      case Some(i) => Some(i + 1)
  }

  /** Queues with the same ids in the same places are found at the same places. */
  lemma {:induction false} FindSameIds(qs: seq<Queue>, rs: seq<Queue>, key: QueueKey)
    requires |qs| == |rs| && forall i :: 0 <= i < |qs| ==> qs[i].id == rs[i].id
    ensures Find(qs, key) == Find(rs, key)
    decreases |qs|
  {
    if qs != [] {
      FindSameIds(qs[1..], rs[1..], key);
    }
  }

  /** `add_queue(id)`: a fresh queue under `key`, replacing one already there
      in its place, otherwise after the others. */
  function AddQueue(p: Pipe, key: QueueKey): (r: Pipe)
    requires DistinctIds(p.queues)
    ensures DistinctIds(r.queues)
    ensures r.owner == p.owner && r.available == p.available
    ensures Find(r.queues, key).Some? && r.queues[Find(r.queues, key).value] == NewQueue(key)
    ensures |r.queues| == |p.queues| + (if Find(p.queues, key).None? then 1 else 0)
    ensures Find(p.queues, key).None? ==> r.queues == p.queues + [NewQueue(key)]
    ensures forall j :: 0 <= j < |p.queues| && p.queues[j].id != key ==> r.queues[j] == p.queues[j]
    ensures forall j :: 0 <= j < |r.queues| && r.queues[j].id != key ==> j < |p.queues| && r.queues[j] == p.queues[j]
  {
    match Find(p.queues, key)
    case Some(i) =>
      var r := p.(queues := p.queues[i := NewQueue(key)]);
      assert r.queues[i].id == key;
      r
    case None =>
      var r := p.(queues := p.queues + [NewQueue(key)]);
      assert r.queues[|p.queues|].id == key;
      r
  }

  /** A new pipe whose constructor calls `add_queue` once per key, in order. */
  function PipeWith(owner: ResId, keys: seq<QueueKey>): (p: Pipe)
    ensures DistinctIds(p.queues) && p.owner == owner && !p.available
    decreases |keys|
  {
    if keys == [] then NewPipe(owner)
    else AddQueue(PipeWith(owner, keys[..|keys| - 1]), keys[|keys| - 1])
  }

  /** With distinct keys, the pipe holds one fresh queue per key, in key order. */
  lemma {:induction false} PipeWithFresh(owner: ResId, keys: seq<QueueKey>)
    requires NoDup(keys)
    ensures |PipeWith(owner, keys).queues| == |keys|
    ensures forall i :: 0 <= i < |keys| ==> PipeWith(owner, keys).queues[i] == NewQueue(keys[i])
    decreases |keys|
  {
    if keys != [] {
      var init := keys[..|keys| - 1];
      var key := keys[|keys| - 1];
      assert NoDup(init);
      PipeWithFresh(owner, init);
      var p := PipeWith(owner, init);
      assert Find(p.queues, key).None? by {
        forall i | 0 <= i < |p.queues|
          ensures p.queues[i].id != key
        {
          assert p.queues[i].id == init[i] == keys[i];
        }
      }
      var r := PipeWith(owner, keys);
      assert r == AddQueue(p, key);
      assert r.queues == p.queues + [NewQueue(key)];
      forall i | 0 <= i < |keys|
        ensures r.queues[i] == NewQueue(keys[i])
      {
        if i < |init| {
          assert r.queues[i] == p.queues[i] && init[i] == keys[i];
        }
      }
    }
  }

  /** Total length of the active queues. */
  function ActiveLoad(qs: seq<Queue>): nat {
    if qs == [] then 0
    else (if qs[0].active then Len(qs[0]) else 0) + ActiveLoad(qs[1..])
  }

  /** The load is zero exactly when every active queue is empty. */
  lemma {:induction false} ActiveLoadZero(qs: seq<Queue>)
    ensures ActiveLoad(qs) == 0 <==> forall i :: 0 <= i < |qs| && qs[i].active ==> qs[i].buffer == []
  {
    if qs != [] {
      ActiveLoadZero(qs[1..]);
      assert forall i :: 1 <= i < |qs| ==> qs[i] == qs[1..][i - 1];
    }
  }

  /** `full()`: triggers `available`, and answers true, exactly when it was not
      triggered and an active queue holds a message. It never clears the flag. */
  function Full(p: Pipe): (r: (Pipe, bool))
    ensures r.1 <==> !p.available && ActiveLoad(p.queues) > 0
    ensures r.1 ==> r.0 == p.(available := true)
    ensures !r.1 ==> r.0 == p
    ensures p.available ==> r.0.available
  {
    if !p.available && ActiveLoad(p.queues) > 0 then (p.(available := true), true) else (p, false)
  }

  /** The enqueue wrapper's first step: the message is now in this pipe and
      served by its resource, which records the visit and re-derives `next`. */
  function EnterPipe(p: Pipe, m: Message): (r: Result<Message>)
    ensures r == SetResource(m.(location := AtPipe(p.owner)), p.owner)
    ensures r.Ok? ==> r.value.location == AtPipe(p.owner) && r.value.resource == p.owner
    ensures r.Ok? ==> r.value.visited == m.visited + [p.owner]
  {
    SetResource(m.(location := AtPipe(p.owner)), p.owner)
  }

  /** The push wrapper over the default discipline: the message is located at
      the queue, pushed, and `full()` is consulted only when it was admitted
      into an active queue. */
  function QueuePush(p: Pipe, key: QueueKey, m: Message): (r: Result<(Pipe, Pushed)>)
    ensures Find(p.queues, key).None? ==> r == Err(KeyMissing)
    ensures r.Ok? ==> forall k :: Find(r.value.0.queues, k) == Find(p.queues, k)
    ensures r.Ok? ==> r.value.1.result.Some? ==> r.value.1.result.value.location == AtQueue(p.owner, key)
    ensures r.Ok? ==>
              var i := Find(p.queues, key).value;
              && r.value.0.queues == p.queues[i := r.value.1.queue]
              && FifoPush(p.queues[i], p.owner, m.(location := AtQueue(p.owner, key))).Ok?
              && r.value.1 == FifoPush(p.queues[i], p.owner, m.(location := AtQueue(p.owner, key))).value
              && (if r.value.1.result.Some? && p.queues[i].active
                  then r.value.0 == Full(p.(queues := r.value.0.queues)).0
                  else r.value.0 == p.(queues := r.value.0.queues))
  {
    var i :- match Find(p.queues, key) case None => Err(KeyMissing) case Some(i) => Ok(i);
    var pushed :- FifoPush(p.queues[i], p.owner, m.(location := AtQueue(p.owner, key)));
    var p1 := p.(queues := p.queues[i := pushed.queue]);
    var p2 := if pushed.result.Some? && pushed.queue.active then Full(p1).0 else p1;
    assert forall k :: Find(p2.queues, k) == Find(p.queues, k) by {
      forall k ensures Find(p2.queues, k) == Find(p.queues, k) {
        FindSameIds(p2.queues, p.queues, k);
      }
    }
    Ok((p2, pushed))
  }

  /** The pop wrapper over the default discipline returns what it returns. */
  function QueuePop(p: Pipe, key: QueueKey): (r: Result<(Pipe, Option<Message>)>)
    ensures Find(p.queues, key).None? ==> r == Err(KeyMissing)
    ensures Find(p.queues, key).Some? ==>
              var i := Find(p.queues, key).value;
              r == Ok((p.(queues := p.queues[i := FifoPop(p.queues[i]).0]), FifoPop(p.queues[i]).1))
  {
    var i :- match Find(p.queues, key) case None => Err(KeyMissing) case Some(i) => Ok(i);
    var (q, m) := FifoPop(p.queues[i]);
    Ok((p.(queues := p.queues[i := q]), m))
  }

  /** `enable()`: the queue becomes active and `full()` is consulted. */
  function EnableQueue(p: Pipe, key: QueueKey): (r: Result<Pipe>)
    ensures Find(p.queues, key).None? <==> r.Err?
    ensures r.Ok? ==>
              var i := Find(p.queues, key).value;
              r.value == Full(p.(queues := p.queues[i := p.queues[i].(active := true)])).0
  {
    var i :- match Find(p.queues, key) case None => Err(KeyMissing) case Some(i) => Ok(i);
    Ok(Full(p.(queues := p.queues[i := p.queues[i].(active := true)])).0)
  }

  /** `disable()` on the queue under `key`. */
  function DisableQueue(p: Pipe, key: QueueKey): (r: Result<Pipe>)
    ensures Find(p.queues, key).None? <==> r.Err?
    ensures r.Ok? ==>
              var i := Find(p.queues, key).value;
              r.value == p.(queues := p.queues[i := Disable(p.queues[i])])
  {
    var i :- match Find(p.queues, key) case None => Err(KeyMissing) case Some(i) => Ok(i);
    Ok(p.(queues := p.queues[i := Disable(p.queues[i])]))
  }

  /** A disabled queue's messages no longer count towards `full()`. */
  lemma {:induction false} DisableRemovesLoad(qs: seq<Queue>, i: nat)
    requires i < |qs|
    ensures ActiveLoad(qs[i := Disable(qs[i])]) + (if qs[i].active then Len(qs[i]) else 0) == ActiveLoad(qs)
    decreases |qs|
  {
    if i > 0 {
      DisableRemovesLoad(qs[1..], i - 1);
      assert qs[i := Disable(qs[i])][1..] == qs[1..][i - 1 := Disable(qs[i])];
    }
  }

  const Default: QueueKey := QName("default")

  /** The default pipe: exactly one queue, 'default'. */
  function DefaultPipe(owner: ResId): (p: Pipe)
    ensures p.owner == owner && !p.available
    ensures p.queues == [NewQueue(Default)]
  {
    PipeWithFresh(owner, [Default]);
    PipeWith(owner, [Default])
  }

  /** `enqueue` of the default pipe, with the enqueue wrapper around it: enter
      the pipe, push onto 'default', then consult `full()`. */
  function DefaultEnqueue(p: Pipe, m: Message): (r: Result<(Pipe, Pushed)>)
    ensures EnterPipe(p, m).Err? ==> r.Err?
    ensures EnterPipe(p, m).Ok? ==>
              && (r.Ok? <==> QueuePush(p, Default, EnterPipe(p, m).value).Ok?)
              && (r.Ok? ==> r.value.1 == QueuePush(p, Default, EnterPipe(p, m).value).value.1)
              && (r.Ok? ==> r.value.0 == Full(QueuePush(p, Default, EnterPipe(p, m).value).value.0).0)
  {
    var m1 :- EnterPipe(p, m);
    var (p1, pushed) :- QueuePush(p, Default, m1);
    Ok((Full(p1).0, pushed))
  }

  /** `dequeue` of the default pipe: pop 'default'. */
  function DefaultDequeue(p: Pipe): (r: Result<(Pipe, Option<Message>)>)
    ensures r == QueuePop(p, Default)
  {
    QueuePop(p, Default)
  }

  /** Through the default pipe, a message enqueued into an empty unbounded pipe
      is the next one dequeued, and the pipe is then marked available. */
  lemma DefaultPipeDelivers(owner: ResId, m: Message)
    requires EnterPipe(DefaultPipe(owner), m).Ok?
    ensures DefaultEnqueue(DefaultPipe(owner), m).Ok?
    ensures var (p, pushed) := DefaultEnqueue(DefaultPipe(owner), m).value;
            && p.available
            && pushed.result.Some?
            && DefaultDequeue(p).Ok?
            && DefaultDequeue(p).value.1 == pushed.result
            && pushed.result.value == EnterPipe(DefaultPipe(owner), m).value.(location := AtQueue(owner, Default))
  {
    var p0 := DefaultPipe(owner);
    assert Find(p0.queues, Default) == Some(0);
    var m1 := EnterPipe(p0, m).value.(location := AtQueue(owner, Default));
    var q1 := NewQueue(Default).(buffer := [m1]);
    assert NewQueue(Default).buffer + [m1] == [m1];
    assert FifoPush(NewQueue(Default), owner, m1) == Ok(Pushed(q1, Some(m1), m1));
    assert ActiveLoad([q1]) == 1;
    var p := DefaultEnqueue(p0, m).value.0;
    assert p.queues == [q1];
    assert Find(p.queues, Default) == Some(0);
  }

  /** The resource's free flag together with its task count and capacity. */
  datatype Slots = Slots(free: bool, busy: nat, cap: int)

  /** Safety: never more busy than the capacity, and free only with room left. */
  predicate SlotsOk(s: Slots) {
    (s.free ==> s.busy < s.cap) && s.busy <= s.cap
  }

  /** The wait loop after waking (it waits for `free`): the flag is cleared when
      the message about to start fills the last slot; `served` says whether
      the dequeue produced a message. */
  function Wake(s: Slots, served: bool): (r: Slots)
    requires s.free
    ensures r.cap == s.cap && r.busy == s.busy + (if served then 1 else 0)
    ensures r.free <==> s.busy + 1 < s.cap
    ensures SlotsOk(s) ==> SlotsOk(r)
  {
    Slots(!(s.busy + 1 >= s.cap), s.busy + (if served then 1 else 0), s.cap)
  }

  /** `_service` after the service ends: the task is gone, and the flag is set
      again when it was clear and a slot is free. */
  function Finish(s: Slots): (r: Slots)
    requires s.busy > 0
    ensures r.cap == s.cap && r.busy == s.busy - 1
    ensures r.free <==> s.free || s.busy - 1 < s.cap
    ensures SlotsOk(s) ==> SlotsOk(r)
  {
    Slots(s.free || s.busy - 1 < s.cap, s.busy - 1, s.cap)
  }

  datatype SlotEvent = Woken(served: bool) | Completed

  /** A run of wake-ups and service ends; `None` once an event is not enabled. */
  function Run(s: Slots, evs: seq<SlotEvent>): Option<Slots>
    decreases |evs|
  {
    if evs == [] then Some(s)
    else match evs[0]
      case Woken(served) => if s.free then Run(Wake(s, served), evs[1..]) else None
      case Completed => if s.busy > 0 then Run(Finish(s), evs[1..]) else None
  }

  /** From a consistent state, no run ever serves more messages at once than
      the capacity, and the flag stays consistent with the count. */
  lemma {:induction false} RunStaysWithinCapacity(s: Slots, evs: seq<SlotEvent>)
    requires SlotsOk(s)
    requires Run(s, evs).Some?
    ensures SlotsOk(Run(s, evs).value) && Run(s, evs).value.busy <= s.cap
    decreases |evs|
  {
    if evs != [] {
      match evs[0]
      case Woken(served) => RunStaysWithinCapacity(Wake(s, served), evs[1..]);
      case Completed => RunStaysWithinCapacity(Finish(s), evs[1..]);
    }
  }
}
