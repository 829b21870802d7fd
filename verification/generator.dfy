/** `simpype/model/generator.py`: a resource that stamps out copies of a
    template message and sends them down its pipeline. */
module Generators {
  import opened Base
  import opened Pipelines
  import opened Messages
  import opened Resources

  /** A generator: the resource it is, its template message, the number of
      messages sent so far, and how many it may send. */
  datatype Generator = Generator(base: Resource, template: Message, counter: nat, toSend: Bound)

  /** `Generator(sim, id)` at time `now`: a default resource whose template is
      a message named after it that is never alive; nothing sent yet and no
      limit on how many. */
  function NewGenerator(id: ResId, now: real): (g: Generator)
    ensures g.base == NewResource(id, 1)
    ensures !g.template.alive && g.template == NewMessage(id, id, now).(alive := false)
    ensures g.counter == 0 && g.toSend == Unbounded
  {
    Generator(NewResource(id, 1), NewMessage(id, id, now).(alive := false), 0, Unbounded)
  }

  /** `refresh()`: a property drawn from a random table takes the new draw; a
      static one keeps its value. */
  function Refresh(p: Property, draw: real): (q: Property)
    ensures q.timed == p.timed
    ensures q.value == if p.timed then draw else p.value
  {
    if p.timed then p.(value := draw) else p
  }

  /** Refreshes every property; `draws` holds the value each timed property draws. */
  function RefreshAll(props: map<string, Property>, draws: map<string, real>): (r: map<string, Property>)
    requires forall n :: n in props && props[n].timed ==> n in draws
    ensures r.Keys == props.Keys
    ensures forall n :: n in props && !props[n].timed ==> r[n] == props[n]
    ensures forall n :: n in props && props[n].timed ==> r[n] == props[n].(value := draws[n])
  {
    map n | n in props :: Refresh(props[n], if props[n].timed then draws[n] else 0.0)
  }

  /** The property whose value bounds a message's life. */
  const Lifetime := "lifetime"

  /** `gen_message()` at time `now`: a copy of the template numbered by the
      counter, stamped with `now`, its properties refreshed, armed to drop
      itself once its (refreshed) lifetime expires, and alive. */
  function GenMessage(g: Generator, now: real, draws: map<string, real>): (r: Result<Message>)
    requires forall n :: n in g.template.props && g.template.props[n].timed ==> n in draws
    ensures r.Ok? <==> Copy(g.template).Ok?
    ensures r.Ok? ==> r.value.seqNum == g.counter && r.value.generated == now && r.value.alive
    ensures r.Ok? ==> r.value.id == g.template.id && r.value.generator == g.template.generator
    ensures r.Ok? ==> r.value.next == Copy(g.template).value.next
    ensures r.Ok? ==> r.value.props == RefreshAll(g.template.props, draws)
    ensures r.Ok? && Lifetime in g.template.props ==>
              && r.value.subs.Keys == g.template.subs.Keys + {Lifetime}
              && r.value.subs[Lifetime] ==
                   Subscription(Timeout(r.value.props[Lifetime].value), DropCallback, false)
    ensures r.Ok? && Lifetime !in g.template.props ==> r.value.subs.Keys == g.template.subs.Keys
    ensures r.Ok? ==> forall sid :: sid in r.value.subs ==> !r.value.subs[sid].disabled
  {
    var c :- Copy(g.template);
    var m := c.(seqNum := g.counter, generated := now, props := RefreshAll(c.props, draws));
    if Lifetime in m.props then
      assert !(Lifetime in m.subs && m.subs[Lifetime].disabled);
      var (armed, _) := Drop(m, Lifetime, Some(Timeout(m.props[Lifetime].value))).value;
      Ok(armed.(alive := true))
    else
      Ok(m.(alive := true))
  }

  /** One pass of `h_gen`'s loop at time `now`: generate a message and send it. */
  function Emit(g: Generator, now: real, draws: map<string, real>): (r: Result<seq<Delivery>>)
    requires forall n :: n in g.template.props && g.template.props[n].timed ==> n in draws
    ensures r.Ok? ==> Copy(g.template).Ok? && |r.value| == |Copy(g.template).value.next|
    ensures r.Ok? && Copy(g.template).Ok? ==> forall i :: 0 <= i < |r.value| ==>
              && r.value[i].message.seqNum == g.counter
              && r.value[i].message.generated == now
              && r.value[i].message.alive
              && r.value[i].target == Copy(g.template).value.next[i].target
  {
    var m :- GenMessage(g, now, draws);
    Send(m)
  }

  /** A message emitted by `h_gen`: its sequence number and emission time. */
  datatype Emission = Emission(num: nat, at: real)

  /** Consecutive emissions of `r`, whose first is message `k`, lie one finite
      arrival draw apart: the draw taken after the earlier one was sent. */
  ghost predicate Spaced(r: seq<Emission>, k: nat, arrivals: seq<Time>) {
    forall i :: 0 <= i < |r| - 1 ==> SpacedAt(r, k, arrivals, i)
  }

  /** Emission `i + 1` of `r` follows emission `i` by arrival draw `k + i`. */
  ghost predicate SpacedAt(r: seq<Emission>, k: nat, arrivals: seq<Time>, i: nat)
    requires i + 1 < |r|
  {
    k + i < |arrivals| && arrivals[k + i].Fin? && r[i + 1].at == r[i].at + arrivals[k + i].t
  }

  /** The emissions from message `k`, sent at `t`, on: after each send the
      process waits the arrival draw; an infinite draw never ends, and the
      loop stops once `to_send` messages are out. The schedule is cut where the
      supplied draws end. */
  function Chain(k: nat, t: real, toSend: Bound, arrivals: seq<Time>): (r: seq<Emission>)
    requires toSend.Exceeds(k)
    ensures |r| > 0 && r[0] == Emission(k, t)
    ensures forall i :: 0 <= i < |r| ==> r[i].num == k + i
    ensures toSend.Upto? ==> k + |r| <= toSend.n
    ensures Spaced(r, k, arrivals)
    ensures var last := k + |r| - 1;
            !(last < |arrivals| && arrivals[last].Fin? && toSend.Exceeds(last + 1))
    decreases |arrivals| - k
  {
    var rest := if k < |arrivals| && arrivals[k].Fin? && toSend.Exceeds(k + 1)
                then Chain(k + 1, t + arrivals[k].t, toSend, arrivals) else [];
    var r := [Emission(k, t)] + rest;
    assert forall i :: 0 < i < |r| ==> r[i] == rest[i - 1];
    assert rest != [] ==> (k + 1) + |rest| - 1 == k + |r| - 1;
    forall i | 0 <= i < |r| - 1
      ensures SpacedAt(r, k, arrivals, i)
    {
      assert r[i + 1] == rest[i];
      if i == 0 {
        assert rest != [] && rest[0] == Emission(k + 1, t + arrivals[k].t);
      } else {
        assert r[i] == rest[i - 1];
        assert SpacedAt(rest, k + 1, arrivals, i - 1);
        assert (k + 1) + (i - 1) == k + i;
      }
    }
    r
  }

  /** `h_gen` from time `start`: the first message after the initial delay,
      then one per finite arrival draw, numbered 0, 1, 2, … and never more than
      `to_send` of them. */
  function Emissions(toSend: Bound, start: real, initial: Time, arrivals: seq<Time>): (r: seq<Emission>)
    ensures r == [] <==> !toSend.Exceeds(0) || initial.Inf?
    ensures forall i :: 0 <= i < |r| ==> r[i].num == i
    ensures toSend.Upto? ==> |r| <= if toSend.n < 0 then 0 else toSend.n
    ensures r != [] ==> r[0].at == start + initial.t
    ensures r != [] ==> !toSend.Exceeds(|r|) || |r| - 1 >= |arrivals| || arrivals[|r| - 1].Inf?
    ensures Spaced(r, 0, arrivals)
  {
    if !toSend.Exceeds(0) || initial.Inf? then []
    else
      Chain(0, start + initial.t, toSend, arrivals)
  }

  /** With finite draws enough for all of them, exactly `to_send` messages go out. */
  lemma EmissionsExactly(n: nat, start: real, initial: Time, arrivals: seq<Time>)
    requires initial.Fin? && n <= |arrivals| + 1
    requires forall i :: 0 <= i < |arrivals| ==> arrivals[i].Fin?
    ensures |Emissions(Upto(n), start, initial, arrivals)| == n
  {
  }

  /** The defaults (initial delay 0, arrival +inf, no limit) emit one message,
      number 0, at the start. */
  lemma DefaultsEmitOnce(g: Generator, start: real, arrivals: seq<Time>)
    requires g == NewGenerator(g.base.id, start)
    requires forall i :: 0 <= i < |arrivals| ==> arrivals[i] == Inf
    ensures Emissions(g.toSend, start, Fin(0.0), arrivals) == [Emission(0, start)]
  {
    var r := Emissions(g.toSend, start, Fin(0.0), arrivals);
    assert r[0] == Emission(0, start);
  }
}
