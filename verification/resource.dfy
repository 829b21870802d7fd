/** `simpype/resource.py`: tasks in service, the `available` flag, and the
    routing of a message once its service ends. */
module Resources {
  import opened Base
  import opened Pipelines
  import opened Messages
  import opened Pipes

  /** A message in service, keyed by `K`. */
  datatype Task<K> = Task(key: K, message: Message, started: real, interrupted: Option<real>)

  /** Python's `str(n)` for a natural number. */
  function NatToString(n: nat): (s: string)
    ensures |s| > 0
    decreases n
  {
    var digit := ['0', '1', '2', '3', '4', '5', '6', '7', '8', '9'][n % 10];
    if n < 10 then [digit] else NatToString(n / 10) + [digit]
  }

  /** The task id as written: `str(message.id) + str(message.seq_num)`. */
  function TaskIdAsWritten(m: Message): string {
    m.id + NatToString(m.seqNum)
  }

  /** The task key the model uses: the pair itself. */
  datatype TaskKey = TaskKey(id: string, num: nat)

  function KeyOf(m: Message): (k: TaskKey)
    ensures k.id == m.id && k.num == m.seqNum
  {
    TaskKey(m.id, m.seqNum)
  }

  predicate DistinctTaskKeys<K(==)>(ts: seq<Task<K>>) {
    forall i, j :: 0 <= i < j < |ts| ==> ts[i].key != ts[j].key
  }

  /** Whether a task is stored under `k`. */
  predicate HasTask<K(==)>(ts: seq<Task<K>>, k: K) {
    exists i :: 0 <= i < |ts| && ts[i].key == k
  }

  /** A key is stored in a non-empty list exactly when it is the head's or
      stored in the tail. */
  lemma HasTaskSplit<K(!new)>(ts: seq<Task<K>>)
    requires ts != []
    ensures forall k :: HasTask(ts, k) <==> ts[0].key == k || HasTask(ts[1..], k)
  {
    forall k ensures HasTask(ts, k) <==> ts[0].key == k || HasTask(ts[1..], k) {
      if HasTask(ts, k) && ts[0].key != k {
        var i :| 0 <= i < |ts| && ts[i].key == k;
        assert ts[1..][i - 1].key == k;
      }
      if HasTask(ts[1..], k) {
        var i :| 0 <= i < |ts[1..]| && ts[1..][i].key == k;
        assert ts[i + 1].key == k;
      }
    }
  }

  /** With distinct keys, the head's key is not stored in the tail. */
  lemma HeadKeyNotInTail<K(!new)>(ts: seq<Task<K>>)
    requires ts != [] && DistinctTaskKeys(ts)
    ensures DistinctTaskKeys(ts[1..])
    ensures !HasTask(ts[1..], ts[0].key)
  {
    forall i | 0 <= i < |ts[1..]| ensures ts[1..][i].key != ts[0].key {
      assert ts[1..][i] == ts[i + 1];
    }
  }

  /** `self.task[t.id] = t`: replaces the task under the same key in its place,
      otherwise appends. */
  function Upsert<K(==,!new)>(ts: seq<Task<K>>, t: Task<K>): (r: seq<Task<K>>)
    requires DistinctTaskKeys(ts)
    ensures DistinctTaskKeys(r)
    ensures t in r
    ensures |r| == |ts| + (if HasTask(ts, t.key) then 0 else 1)
    ensures forall i :: 0 <= i < |ts| && ts[i].key != t.key ==> r[i] == ts[i]
    ensures forall i :: 0 <= i < |r| && r[i].key != t.key ==> i < |ts| && r[i] == ts[i]
    ensures forall k :: HasTask(r, k) <==> HasTask(ts, k) || k == t.key
  {
    if ts == [] then
      HasTaskSplit([t]);
      [t]
    else
      HasTaskSplit(ts);
      HeadKeyNotInTail(ts);
      if ts[0].key == t.key then
        var r := [t] + ts[1..];
        HasTaskSplit(r);
        assert r[1..] == ts[1..];
        r
      else
        var rest := Upsert(ts[1..], t);
        var r := [ts[0]] + rest;
        HasTaskSplit(r);
        assert r[1..] == rest;
        assert !HasTask(rest, ts[0].key);
        r
  }

  /** Two tasks under different message keys. */
  lemma TwoTasks<K(!new)>(a: Task<K>, b: Task<K>)
    requires a.key != b.key
    ensures |Upsert(Upsert([], a), b)| == 2
  {
    assert !HasTask([a], b.key);
  }

  /** The task id as written is ambiguous: message 'gen1' number 2 and message
      'gen' number 12 both get 'gen12', so the second task overwrites the first. */
  lemma TaskIdCollision(m1: Message, m2: Message, now: real)
    requires m1.id == "gen1" && m1.seqNum == 2 && m2.id == "gen" && m2.seqNum == 12
    ensures KeyOf(m1) != KeyOf(m2)
    ensures TaskIdAsWritten(m1) == TaskIdAsWritten(m2)
    ensures |Upsert(Upsert([], Task(TaskIdAsWritten(m1), m1, now, None)), Task(TaskIdAsWritten(m2), m2, now, None))| == 1
    ensures |Upsert(Upsert([], Task(KeyOf(m1), m1, now, None)), Task(KeyOf(m2), m2, now, None))| == 2
  {
    assert NatToString(2) == "2";
    assert NatToString(12) == NatToString(1) + "2";
    assert "gen1" + "2" == "gen" + "12";
    var t1 := Task(TaskIdAsWritten(m1), m1, now, None);
    assert HasTask([t1], TaskIdAsWritten(m2)) by { assert [t1][0].key == TaskIdAsWritten(m2); }
    TwoTasks(Task(KeyOf(m1), m1, now, None), Task(KeyOf(m2), m2, now, None));
  }

  /** Keys are equal exactly for the same message id and number. */
  lemma KeyOfInjective(m1: Message, m2: Message)
    ensures KeyOf(m1) == KeyOf(m2) <==> m1.id == m2.id && m1.seqNum == m2.seqNum
  {
  }

  datatype Resource = Resource(
    id: ResId,
    capacity: int,
    available: bool,
    tasks: seq<Task<TaskKey>>,
    pipe: Pipe)

  /** `Resource(sim, id, capacity)` with the default pipe: no tasks, `available`
      triggered. */
  function NewResource(id: ResId, capacity: int): (r: Resource)
    ensures r.id == id && r.capacity == capacity && r.available && r.tasks == []
    ensures r.pipe == DefaultPipe(id)
  {
    Resource(id, capacity, true, [], DefaultPipe(id))
  }

  /** `free()`: a triggered flag is cleared when one more task would fill the
      resource; a cleared one is triggered while there is room. */
  function Free(r: Resource): (s: Resource)
    ensures s == r.(available := s.available)
    ensures r.available ==> (s.available <==> |r.tasks| + 1 < r.capacity)
    ensures !r.available ==> (s.available <==> |r.tasks| < r.capacity)
  {
    if r.available then
      if |r.tasks| + 1 >= r.capacity then r.(available := false) else r
    else
      if |r.tasks| < r.capacity then r.(available := true) else r
  }

  /** `free()` applies the pipe's two counting rules: the wake-up rule when the
      flag is set, the end-of-service rule when it is clear. */
  lemma FreeIsTheCountingRule(r: Resource)
    ensures r.available ==> Free(r).available == Wake(Slots(true, |r.tasks|, r.capacity), false).free
    ensures !r.available ==> Free(r).available == (|r.tasks| < r.capacity)
    ensures SlotsOk(Slots(r.available, |r.tasks|, r.capacity)) ==>
              SlotsOk(Slots(Free(r).available, |r.tasks|, r.capacity))
  {
  }

  /** `add_task`: the message's task, started now, stored under its key. */
  function AddTask(r: Resource, m: Message, now: real): (s: Resource)
    requires DistinctTaskKeys(r.tasks)
    ensures DistinctTaskKeys(s.tasks)
    ensures s == r.(tasks := s.tasks)
    ensures Task(KeyOf(m), m, now, None) in s.tasks
    ensures |s.tasks| == |r.tasks| + (if HasTask(r.tasks, KeyOf(m)) then 0 else 1)
    ensures forall k :: HasTask(s.tasks, k) <==> HasTask(r.tasks, k) || k == KeyOf(m)
    ensures forall i :: 0 <= i < |r.tasks| && r.tasks[i].key != KeyOf(m) ==> s.tasks[i] == r.tasks[i]
  {
    r.(tasks := Upsert(r.tasks, Task(KeyOf(m), m, now, None)))
  }

  /** The tasks without the one under `k`. */
  function Remove<K(==,!new)>(ts: seq<Task<K>>, k: K): (r: seq<Task<K>>)
    ensures forall t :: t in r <==> t in ts && t.key != k
    ensures DistinctTaskKeys(ts) ==> DistinctTaskKeys(r)
    ensures DistinctTaskKeys(ts) ==> |r| == |ts| - (if HasTask(ts, k) then 1 else 0)
  {
    if ts == [] then []
    else
      var rest := Remove(ts[1..], k);
      HasTaskSplit(ts);
      assert DistinctTaskKeys(ts) ==> DistinctTaskKeys(ts[1..]) && !HasTask(ts[1..], ts[0].key) by {
        if DistinctTaskKeys(ts) { HeadKeyNotInTail(ts); }
      }
      if ts[0].key == k then rest
      else
        assert forall t :: t in rest ==> t in ts[1..];
        [ts[0]] + rest
  }

  /** `del_task`: the task must be present; only it is removed. */
  function DelTask(r: Resource, k: TaskKey): (s: Result<Resource>)
    requires DistinctTaskKeys(r.tasks)
    ensures s.Err? <==> !HasTask(r.tasks, k)
    ensures s.Err? ==> s.error == KeyMissing
    ensures s.Ok? ==> DistinctTaskKeys(s.value.tasks) && |s.value.tasks| == |r.tasks| - 1
    ensures s.Ok? ==> forall t :: t in s.value.tasks <==> t in r.tasks && t.key != k
    ensures s.Ok? ==> s.value == r.(tasks := s.value.tasks)
  {
    if !HasTask(r.tasks, k) then Err(KeyMissing) else Ok(r.(tasks := Remove(r.tasks, k)))
  }

  /** `interrupt`: the task records when it was cut short, never before it started. */
  function Interrupt<K>(t: Task<K>, now: real): (s: Task<K>)
    requires t.started <= now
    ensures s == t.(interrupted := Some(now))
    ensures s.started <= s.interrupted.value
  {
    t.(interrupted := Some(now))
  }

  /** Every task started no later than `now` (simulated time never runs back). */
  predicate StartedBy<K>(ts: seq<Task<K>>, now: real) {
    forall i :: 0 <= i < |ts| ==> ts[i].started <= now
  }

  /** Interrupts, at `now`, the task stored under `k`. */
  function InterruptTask<K(==)>(ts: seq<Task<K>>, k: K, now: real): (r: seq<Task<K>>)
    requires StartedBy(ts, now)
    ensures |r| == |ts| && StartedBy(r, now)
    ensures forall i :: 0 <= i < |ts| ==> r[i].key == ts[i].key
    ensures forall i :: 0 <= i < |ts| ==> r[i] == if ts[i].key == k then Interrupt(ts[i], now) else ts[i]
  {
    seq(|ts|, i requires 0 <= i < |ts| => if ts[i].key == k then Interrupt(ts[i], now) else ts[i])
  }

  /** `_message_dropped`: the message must be at this resource with a task in
      service; exactly that task is interrupted. */
  function ResourceMessageDropped(r: Resource, m: Message, now: real): (s: Result<Resource>)
    requires StartedBy(r.tasks, now)
    ensures m.location != AtResource(r.id) ==> s == Err(WrongLocation)
    ensures m.location == AtResource(r.id) && !HasTask(r.tasks, KeyOf(m)) ==> s == Err(KeyMissing)
    ensures s.Ok? ==> s.value == r.(tasks := s.value.tasks) && |s.value.tasks| == |r.tasks|
    ensures s.Ok? ==> forall i :: 0 <= i < |r.tasks| ==>
              s.value.tasks[i] == if r.tasks[i].key == KeyOf(m) then Interrupt(r.tasks[i], now) else r.tasks[i]
  {
    if m.location != AtResource(r.id) then Err(WrongLocation)
    else if !HasTask(r.tasks, KeyOf(m)) then Err(KeyMissing)
    else Ok(r.(tasks := InterruptTask(r.tasks, KeyOf(m), now)))
  }

  /** A message handed to a resource's pipe. */
  datatype Delivery = Delivery(target: ResId, message: Message)

  /** `send`: one delivery per hop, in hop order; the last hop gets the message
      itself and every other hop a fresh copy. */
  function Send(m: Message): (r: Result<seq<Delivery>>)
    ensures r.Err? <==> |m.next| > 1 && Copy(m).Err?
    ensures r.Ok? ==> |r.value| == |m.next|
    ensures r.Ok? ==> forall i :: 0 <= i < |m.next| ==> r.value[i].target == m.next[i].target
    ensures r.Ok? && |m.next| > 0 ==> r.value[|m.next| - 1].message == m
    ensures r.Ok? ==> forall i :: 0 <= i < |m.next| - 1 ==> r.value[i].message == Copy(m).value
  {
    var n := |m.next|;
    if n == 0 then Ok([])
    else if n == 1 then Ok([Delivery(m.next[0].target, m)])
    else
      var c :- Copy(m);
      Ok(seq(n, i requires 0 <= i < n => Delivery(m.next[i].target, if i == n - 1 then m else c)))
  }

  /** Where a message goes once its service is over. */
  datatype Routed = Sent(deliveries: seq<Delivery>) | Finished(message: Message)

  /** The end of `__service`, taken whether or not the service was interrupted:
      a message with hops is sent on, otherwise it is finalised. */
  function AfterService(m: Message): (r: Result<Routed>)
    ensures |m.next| > 0 ==> (r.Ok? <==> Send(m).Ok?) && (r.Ok? ==> r.value == Sent(Send(m).value))
    ensures |m.next| == 0 ==> (r.Ok? <==> Done(m).Ok?) && (r.Ok? ==> r.value == Finished(Done(m).value))
  {
    if |m.next| > 0 then
      var d :- Send(m);
      Ok(Sent(d))
    else
      var f :- Done(m);
      Ok(Finished(f))
  }

  /** The task bookkeeping of `__service`: add the message's task, interrupt it
      at `cut` if the service was cut short, delete it. */
  function ServiceTasks(r: Resource, m: Message, now: real, cut: Option<real>): (s: Result<Resource>)
    requires DistinctTaskKeys(r.tasks) && StartedBy(r.tasks, now)
    requires cut.Some? ==> now <= cut.value
    ensures s.Ok?
    ensures !HasTask(r.tasks, KeyOf(m)) ==> s == Ok(r)
  {
    var r1 := AddTask(r, m, now);
    var r2 := if cut.Some? then r1.(tasks := InterruptTask(r1.tasks, KeyOf(m), cut.value)) else r1;
    TaskSurvivesInterrupt(r1.tasks, Task(KeyOf(m), m, now, None), cut);
    ServiceTasksRestore(r, m, now, cut);
    DelTask(r2, KeyOf(m))
  }

  /** The task just added is still stored once interrupted. */
  lemma TaskSurvivesInterrupt<K(!new)>(ts: seq<Task<K>>, t: Task<K>, cut: Option<real>)
    requires t in ts
    requires cut.Some? ==> StartedBy(ts, cut.value)
    ensures cut.Some? ==> HasTask(InterruptTask(ts, t.key, cut.value), t.key)
    ensures HasTask(ts, t.key)
  {
    var i :| 0 <= i < |ts| && ts[i] == t;
    if cut.Some? {
      assert InterruptTask(ts, t.key, cut.value)[i].key == t.key;
    }
  }

  /** Without an earlier task of the message, the bookkeeping of `__service`
      leaves the resource's tasks as they were. */
  lemma ServiceTasksRestore(r: Resource, m: Message, now: real, cut: Option<real>)
    requires DistinctTaskKeys(r.tasks) && StartedBy(r.tasks, now)
    requires cut.Some? ==> now <= cut.value
    ensures var r1 := AddTask(r, m, now);
            var ts := if cut.Some? then InterruptTask(r1.tasks, KeyOf(m), cut.value) else r1.tasks;
            !HasTask(r.tasks, KeyOf(m)) ==> Remove(ts, KeyOf(m)) == r.tasks
  {
    if !HasTask(r.tasks, KeyOf(m)) {
      var t := Task(KeyOf(m), m, now, None);
      AddTaskAppends(r, m, now);
      var r1 := AddTask(r, m, now);
      if cut.Some? {
        var ts := InterruptTask(r1.tasks, KeyOf(m), cut.value);
        forall i | 0 <= i < |r.tasks| ensures ts[i] == r.tasks[i] {
          assert r.tasks[i].key != KeyOf(m);
        }
        assert ts == r.tasks + [Interrupt(t, cut.value)];
        RemoveAppended(r.tasks, Interrupt(t, cut.value));
      } else {
        RemoveAppended(r.tasks, t);
      }
    }
  }

  /** `__service` for a generator-function service: the message moves to the
      resource and its task is added, interrupted if cut short, and deleted;
      then the message is routed either way. */
  function Serve(r: Resource, m: Message, now: real, cut: Option<real>): (s: Result<(Resource, Routed)>)
    requires DistinctTaskKeys(r.tasks) && StartedBy(r.tasks, now)
    requires cut.Some? ==> now <= cut.value
    ensures s.Ok? <==> AfterService(m.(location := AtResource(r.id))).Ok?
    ensures s.Ok? ==> s.value.1 == AfterService(m.(location := AtResource(r.id))).value
    ensures s.Ok? && !HasTask(r.tasks, KeyOf(m)) ==> s.value.0 == r
  {
    var m1 := m.(location := AtResource(r.id));
    var r1 := ServiceTasks(r, m1, now, cut).value;
    var routed :- AfterService(m1);
    Ok((r1, routed))
  }

  /** A message with no task in service gets its task appended. */
  lemma AddTaskAppends(r: Resource, m: Message, now: real)
    requires DistinctTaskKeys(r.tasks)
    ensures !HasTask(r.tasks, KeyOf(m)) ==> AddTask(r, m, now).tasks == r.tasks + [Task(KeyOf(m), m, now, None)]
  {
    if !HasTask(r.tasks, KeyOf(m)) {
      var s := AddTask(r, m, now).tasks;
      forall i | 0 <= i < |r.tasks| ensures s[i] == r.tasks[i] {
        assert r.tasks[i].key != KeyOf(m);
      }
      var j :| 0 <= j < |s| && s[j] == Task(KeyOf(m), m, now, None);
      assert j == |r.tasks|;
    }
  }

  lemma {:induction false} RemoveAppended<K(!new)>(ts: seq<Task<K>>, t: Task<K>)
    requires !HasTask(ts, t.key)
    ensures Remove(ts + [t], t.key) == ts
  {
    if ts == [] {
      assert [t][1..] == [];
    } else {
      assert (ts + [t])[1..] == ts[1..] + [t];
      HasTaskSplit(ts);
      assert ts[0].key != t.key;
      RemoveAppended(ts[1..], t);
      assert [ts[0]] + ts[1..] == ts;
    }
  }
}
