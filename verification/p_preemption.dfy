/** The `PriorityPreemption` pipe of `examples/model/p_preemption.py`: strict
    priority with a queue of preempted messages, and preemption of the
    lowest-priority task in service when express work is waiting. */
module Preemption {
  import opened Base
  import opened Pipelines
  import opened Messages
  import opened Queues
  import opened Pipes
  import opened Resources
  import opened StrictPriority

  const Preempted: QueueKey := QName("preempted")

  /** The message properties this pipe reads and writes. */
  const PriorityProp := "priority"
  const WaitProp := "wait"

  /** The queues in the order `dequeue` consults them. */
  const ServiceOrder: seq<QueueKey> := [Express, Preempted, Fast, Slow]

  /** The `PriorityPreemption` pipe: queues preempted, express, fast and slow. */
  function PreemptionPipe(owner: ResId): (p: Pipe)
    ensures p.owner == owner && !p.available
    ensures p.queues == [NewQueue(Preempted), NewQueue(Express), NewQueue(Fast), NewQueue(Slow)]
    ensures Registered(p, ServiceOrder)
  {
    var keys := [Preempted, Express, Fast, Slow];
    QueueNamesDistinct();
    PipeWithFresh(owner, keys);
    var p := PipeWith(owner, keys);
    IdsRegistered(p, keys);
    assert forall k :: k in ServiceOrder ==> k in keys;
    p
  }

  /** The four queue names differ (already in their first letters). */
  lemma QueueNamesDistinct()
    ensures NoDup([Preempted, Express, Fast, Slow])
  {
    assert Preempted.name[0] == 'p' && Express.name[0] == 'e';
    assert Fast.name[0] == 'f' && Slow.name[0] == 's';
  }

  /** `dequeue`: express, then preempted, then fast, then slow. */
  function Dequeue(p: Pipe): (r: Result<(Pipe, Option<Message>)>)
    requires Registered(p, ServiceOrder)
    ensures r == StrictPop(p, ServiceOrder)
  {
    StrictPop(p, ServiceOrder)
  }

  /** Preempted work resumes before fast and slow work, but never ahead of
      waiting express work. */
  lemma PreemptedSecond(p: Pipe)
    requires Registered(p, ServiceOrder)
    ensures Len(Queued(p, Express)) > 0 ==> Dequeue(p) == QueuePop(p, Express)
    ensures Len(Queued(p, Express)) == 0 && Len(Queued(p, Preempted)) > 0 ==> Dequeue(p) == QueuePop(p, Preempted)
  {
    var j := FirstBusy(p, ServiceOrder);
    assert ServiceOrder[0] == Express && ServiceOrder[1] == Preempted;
    assert Len(Queued(p, Express)) > 0 ==> j == 0;
    assert Len(Queued(p, Express)) == 0 && Len(Queued(p, Preempted)) > 0 ==> j == 1;
  }

  /** Sets the priority to 2 when the message has none. */
  function WithPriority(m: Message): (r: Message)
    ensures PriorityProp in r.props
    ensures PriorityProp in m.props ==> r == m
    ensures PriorityProp !in m.props ==> r == m.(props := m.props[PriorityProp := Property(2.0, false)])
  {
    if PriorityProp in m.props then m else m.(props := m.props[PriorityProp := Property(2.0, false)])
  }

  /** The class of a priority value: 0 express, 1 fast, anything else slow. */
  function Route(v: real): (k: QueueKey)
    ensures k in ServiceOrder && k != Preempted
    ensures k == Express <==> v == 0.0
    ensures k == Fast <==> v == 1.0
  {
    if v == 0.0 then Express
    else if v == 1.0 then Fast
    else if v == 2.0 then Slow
    else Slow
  }

  /** A task whose message has a priority. */
  predicate HasPriority(t: Task<TaskKey>) {
    PriorityProp in t.message.props
  }

  function PriorityOfTask(t: Task<TaskKey>): real
    requires HasPriority(t)
  {
    t.message.props[PriorityProp].value
  }

  /** A task whose process still runs. */
  predicate Running(t: Task<TaskKey>) {
    t.interrupted.None?
  }

  /** A task that may be preempted: running and not express. */
  predicate Candidate(t: Task<TaskKey>) {
    Running(t) && HasPriority(t) && PriorityOfTask(t) != 0.0
  }

  /** The victim: the first candidate with the largest priority value (the
      least urgent work), as Python's `max` picks it. */
  function Victim(ts: seq<Task<TaskKey>>): (r: Option<nat>)
    ensures r.None? <==> forall i :: 0 <= i < |ts| ==> !Candidate(ts[i])
    ensures r.Some? ==> r.value < |ts| && Candidate(ts[r.value])
    ensures r.Some? ==> forall i :: 0 <= i < |ts| && Candidate(ts[i]) ==>
              PriorityOfTask(ts[i]) <= PriorityOfTask(ts[r.value])
    ensures r.Some? ==> forall i :: 0 <= i < r.value && Candidate(ts[i]) ==>
              PriorityOfTask(ts[i]) < PriorityOfTask(ts[r.value])
    decreases |ts|
  {
    if ts == [] then None
    else
      var rest := Victim(ts[1..]);
      assert forall i :: 1 <= i < |ts| ==> ts[i] == ts[1..][i - 1];
      if Candidate(ts[0]) && (rest.None? || PriorityOfTask(ts[rest.value + 1]) <= PriorityOfTask(ts[0])) then Some(0)
      else if rest.Some? then Some(rest.value + 1)
      else None
  }

  /** The restart rule: the wait still owed is the wait that was owed less the
      service received between the start and the interruption. */
  function Resume(m: Message, started: real, cut: real): (r: Message)
    requires WaitProp in m.props
    ensures WaitProp in r.props
    ensures r.props[WaitProp] == Property(m.props[WaitProp].value - (cut - started), false)
    ensures r == m.(props := r.props) && r.props.Keys == m.props.Keys
    ensures forall n :: n in m.props && n != WaitProp ==> r.props[n] == m.props[n]
  {
    m.(props := m.props[WaitProp := Property(m.props[WaitProp].value - (cut - started), false)])
  }

  /** The preemption step of `enqueue`, once the message was admitted while
      express work waits: the victim, if any, is interrupted, its owed wait is
      cut by the service it received, and its message joins the preempted
      queue. A running task without a priority makes `max` fail. */
  function PreemptVictim(p: Pipe, ts: seq<Task<TaskKey>>, now: real): (r: Result<(Pipe, seq<Task<TaskKey>>)>)
    requires Registered(p, ServiceOrder) && StartedBy(ts, now)
    ensures (exists i :: 0 <= i < |ts| && Running(ts[i]) && !HasPriority(ts[i])) ==> r == Err(KeyMissing)
    ensures r.Ok? ==> |r.value.1| == |ts| && Registered(r.value.0, ServiceOrder)
    ensures r.Ok? && Victim(ts).None? ==> r.value == (p, ts)
    ensures r.Ok? && Victim(ts).Some? ==> forall i :: 0 <= i < |ts| && i != Victim(ts).value ==> r.value.1[i] == ts[i]
    ensures r.Ok? && r.value.1 != ts ==>
              var v := Victim(ts).value;
              && Victim(ts).Some?
              && r.value.1[v].interrupted == Some(now)
              && WaitProp in ts[v].message.props
              && WaitProp in r.value.1[v].message.props
              && r.value.1[v].message.props[WaitProp].value ==
                   ts[v].message.props[WaitProp].value - (now - ts[v].started)
  {
    if exists i :: 0 <= i < |ts| && Running(ts[i]) && !HasPriority(ts[i]) then Err(KeyMissing)
    else
      match Victim(ts)
      case None => Ok((p, ts))
      case Some(v) =>
        var t := Interrupt(ts[v], now);
        if WaitProp !in t.message.props then Err(KeyMissing)
        else
          var resumed := Resume(t.message, t.started, t.interrupted.value);
          var (p1, again) :- QueuePush(p, Preempted, resumed);
          assert Registered(p1, ServiceOrder) by {
            forall k | k in ServiceOrder ensures Find(p1.queues, k).Some? {
              assert Find(p1.queues, k) == Find(p.queues, k);
            }
          }
          Ok((p1, ts[v := t.(message := again.msg)]))
  }

  /** The preemption step touches no queue but the preempted one, and a victim's
      message, with its reduced wait, joins that queue's tail when it has room. */
  lemma PreemptVictimQueues(p: Pipe, ts: seq<Task<TaskKey>>, now: real)
    requires Registered(p, ServiceOrder) && StartedBy(ts, now)
    ensures var r := PreemptVictim(p, ts, now);
            r.Ok? ==> r.value.0.owner == p.owner && |r.value.0.queues| == |p.queues|
    ensures var r := PreemptVictim(p, ts, now);
            r.Ok? ==> forall j :: 0 <= j < |p.queues| && p.queues[j].id != Preempted ==> r.value.0.queues[j] == p.queues[j]
    ensures var r := PreemptVictim(p, ts, now);
            r.Ok? && Victim(ts).Some? && Queued(p, Preempted).capacity.Exceeds(Len(Queued(p, Preempted))) ==>
              Queued(r.value.0, Preempted).buffer == Queued(p, Preempted).buffer + [r.value.1[Victim(ts).value].message]
  {
    var r := PreemptVictim(p, ts, now);
    if r.Ok? && Victim(ts).Some? {
      var v := Victim(ts).value;
      var t := Interrupt(ts[v], now);
      var resumed := Resume(t.message, t.started, t.interrupted.value);
      var push := QueuePush(p, Preempted, resumed);
      assert push.Ok? && r.value == (push.value.0, ts[v := t.(message := push.value.1.msg)]);
      var i := Find(p.queues, Preempted).value;
      assert Find(push.value.0.queues, Preempted) == Some(i);
    }
  }

  /** What `enqueue` leaves behind: the pipe, the resource's tasks, and the
      result of the message's own push. */
  datatype Enqueued = Enqueued(pipe: Pipe, tasks: seq<Task<TaskKey>>, pushed: Pushed)

  /** The body of `PriorityPreemption.enqueue` at time `now`, given the
      resource's tasks. The message (priority 2 if it has none) is pushed onto
      its class; if it was admitted while express work waits, the victim is
      preempted. */
  function Admit(p: Pipe, ts: seq<Task<TaskKey>>, m: Message, now: real): (r: Result<Enqueued>)
    requires Registered(p, ServiceOrder) && StartedBy(ts, now)
    ensures var m1 := WithPriority(m);
            var first := QueuePush(p, Route(m1.props[PriorityProp].value), m1);
            && (first.Err? ==> r.Err?)
            && (first.Ok? && r.Ok? ==> r.value.pushed == first.value.1)
            && (first.Ok? && !(first.value.1.result.Some? && Len(Queued(first.value.0, Express)) > 0) ==>
                  r == Ok(Enqueued(first.value.0, ts, first.value.1)))
            && (first.Ok? && first.value.1.result.Some? && Len(Queued(first.value.0, Express)) > 0 ==>
                  && (PreemptVictim(first.value.0, ts, now).Err? ==> r.Err?)
                  && (PreemptVictim(first.value.0, ts, now).Ok? ==>
                        r == Ok(Enqueued(PreemptVictim(first.value.0, ts, now).value.0,
                                         PreemptVictim(first.value.0, ts, now).value.1, first.value.1))))
    ensures r.Ok? ==> |r.value.tasks| == |ts| && Registered(r.value.pipe, ServiceOrder)
  {
    var m1 := WithPriority(m);
    var (p1, pushed) :- QueuePush(p, Route(m1.props[PriorityProp].value), m1);
    assert Registered(p1, ServiceOrder) by {
      forall k | k in ServiceOrder ensures Find(p1.queues, k).Some? {
        assert Find(p1.queues, k) == Find(p.queues, k);
      }
    }
    if pushed.result.Some? && Len(Queued(p1, Express)) > 0 then
      var (p2, ts2) :- PreemptVictim(p1, ts, now);
      Ok(Enqueued(p2, ts2, pushed))
    else Ok(Enqueued(p1, ts, pushed))
  }

  /** `PriorityPreemption.enqueue` under the enqueue wrapper: enter the pipe,
      `Admit`, then consult `full()`. */
  function Enqueue(p: Pipe, ts: seq<Task<TaskKey>>, m: Message, now: real): (r: Result<Enqueued>)
    requires Registered(p, ServiceOrder) && StartedBy(ts, now)
    ensures EnterPipe(p, m).Err? ==> r == Err(EnterPipe(p, m).error)
    ensures EnterPipe(p, m).Ok? ==>
              var a := Admit(p, ts, EnterPipe(p, m).value, now);
              && (r.Ok? <==> a.Ok?)
              && (r.Ok? ==> r.value.tasks == a.value.tasks && r.value.pushed == a.value.pushed)
              && (r.Ok? ==> r.value.pipe.queues == a.value.pipe.queues)
    ensures r.Ok? ==> |r.value.tasks| == |ts| && Registered(r.value.pipe, ServiceOrder)
    ensures r.Ok? && ActiveLoad(r.value.pipe.queues) > 0 ==> r.value.pipe.available
  {
    var m1 :- EnterPipe(p, m);
    var e :- Admit(p, ts, m1, now);
    Ok(e.(pipe := Full(e.pipe).0))
  }
}
