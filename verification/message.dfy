/** `simpype/message.py`: how a message derives its `next` hops from its
    pipeline and current resource, keeps its `visited` history, and keeps its
    subscriptions, each reduced to a "disabled" flag. */
module Messages {
  import opened Base
  import opened Pipelines

  /** Queue ids: names such as 'default' or 'express', or the integer ids of
      the round-robin and fair-queueing examples. */
  datatype QueueKey = QName(name: string) | QIndex(index: int)

  /** Where a message sits: at a resource, inside its pipe, or in one of the
      pipe's queues. */
  datatype Loc = AtResource(rid: ResId) | AtPipe(pipeOf: ResId) | AtQueue(queueOf: ResId, key: QueueKey)

  /** `_drop`, or a callback supplied by a model. */
  datatype Callback = DropCallback | UserCallback(name: string)

  /** The event a subscription waits for: a timeout of a given length, or an
      event owned by the model. */
  datatype Event = Timeout(delay: real) | External(name: string)

  /** A subscription and whether its one-shot `disable` event has fired. */
  datatype Subscription = Subscription(event: Event, callback: Callback, disabled: bool)

  /** A property value; `timed` when it is backed by a random time-table and
      changes on `refresh`. */
  datatype Property = Property(value: real, timed: bool)

  /** One entry of the `next` dictionary. */
  datatype Hop = Hop(key: ResId, target: ResId)

  datatype Message = Message(
    id: string,
    seqNum: nat,
    generated: real,
    generator: ResId,
    alive: bool,
    location: Loc,
    resource: ResId,
    visited: seq<ResId>,
    next: seq<Hop>,
    pipeline: Pipeline,
    props: map<string, Property>,
    subs: map<string, Subscription>)

  /** A dictionary has each key once. */
  predicate DistinctKeys(hops: seq<Hop>) {
    forall i, j :: 0 <= i < j < |hops| ==> hops[i].key != hops[j].key
  }

  function HopTo(r: ResId): Hop {
    Hop(r, r)
  }

  /** `{p.id: p for p in targets}`: fails on an entry taken from the `first`
      of an empty pipeline; a resource listed twice keeps its first position. */
  function HopsOf(targets: seq<Target>): (r: Result<seq<Hop>>)
    ensures r.Err? <==> None in targets
    ensures r.Err? ==> r.error == NoneEndpoint
    ensures r.Ok? ==> DistinctKeys(r.value)
    ensures r.Ok? ==> forall x :: Some(x) in targets <==> HopTo(x) in r.value
    ensures r.Ok? ==> forall i :: 0 <= i < |r.value| ==> r.value[i] == HopTo(r.value[i].key)
    ensures r.Ok? ==> forall i, j :: 0 <= i < j < |r.value| ==>
              IndexOf(targets, Some(r.value[i].key)) < IndexOf(targets, Some(r.value[j].key))
  {
    if None in targets then Err(NoneEndpoint)
    else
      var ids := Fresh(targets, {});
      FreshOrder(targets, {});
      assert forall i :: 0 <= i < |ids| ==> ids[i] in targets;
      var hops := seq(|ids|, i requires 0 <= i < |ids| => HopTo(ids[i].value));
      forall i | 0 <= i < |ids| ensures ids[i] == Some(hops[i].key) {
        assert ids[i] in targets;
      }
      forall x | Some(x) in targets ensures HopTo(x) in hops {
        assert Some(x) in ids;
        var i :| 0 <= i < |ids| && ids[i] == Some(x);
        assert hops[i] == HopTo(x);
      }
      Ok(hops)
  }

  /** `_update_next`: the hops listed for the current resource, or none. */
  function DeriveNext(m: Message): (r: Result<seq<Hop>>)
    ensures m.resource !in m.pipeline.adj ==> r == Ok([])
    ensures m.resource in m.pipeline.adj ==> r == HopsOf(m.pipeline.adj[m.resource])
  {
    if m.resource in m.pipeline.adj then HopsOf(m.pipeline.adj[m.resource]) else Ok([])
  }

  /** What may be assigned to `next`. */
  datatype NextValue = ToResource(rid: ResId) | ToPipeline(p: Pipeline) | ToDict(hops: seq<Hop>)

  /** The `next` setter: a resource, a pipeline's `first` (failing when it is
      unset), or a dictionary stored as is. */
  function SetNext(m: Message, v: NextValue): (r: Result<Message>)
    requires v.ToDict? ==> DistinctKeys(v.hops)
    ensures r.Err? <==> v.ToPipeline? && v.p.first.None?
    ensures r.Ok? ==> r.value == m.(next := r.value.next)
    ensures r.Ok? && v.ToResource? ==> r.value.next == [HopTo(v.rid)]
    ensures r.Ok? && v.ToPipeline? ==> r.value.next == [HopTo(v.p.first.value)]
    ensures r.Ok? && v.ToDict? ==> r.value.next == v.hops
  {
    match v
    case ToResource(rid) => Ok(m.(next := [HopTo(rid)]))
    case ToPipeline(p) => if p.first.None? then Err(NoneEndpoint) else Ok(m.(next := [HopTo(p.first.value)]))
    case ToDict(hops) => Ok(m.(next := hops))
  }

  /** The `resource` setter: records the visit, then re-derives `next`. */
  function SetResource(m: Message, rid: ResId): (r: Result<Message>)
    ensures r.Ok? <==> DeriveNext(m.(resource := rid)).Ok?
    ensures r.Ok? ==> r.value.visited == m.visited + [rid] && r.value.resource == rid
    ensures r.Ok? ==> DeriveNext(r.value) == Ok(r.value.next)
    ensures r.Ok? ==> r.value == m.(resource := rid, visited := m.visited + [rid], next := r.value.next)
  {
    var m1 := m.(resource := rid, visited := m.visited + [rid]);
    var next :- DeriveNext(m1);
    Ok(m1.(next := next))
  }

  /** The `pipeline` setter: replaces the pipeline, then re-derives `next`. */
  function SetPipeline(m: Message, p: Pipeline): (r: Result<Message>)
    ensures r.Ok? <==> DeriveNext(m.(pipeline := p)).Ok?
    ensures r.Ok? ==> r.value.pipeline == p && DeriveNext(r.value) == Ok(r.value.next)
    ensures r.Ok? ==> r.value == m.(pipeline := p, next := r.value.next)
  {
    var m1 := m.(pipeline := p);
    var next :- DeriveNext(m1);
    Ok(m1.(next := next))
  }

  /** `Message(sim, resource, id)` at time `now`: alive, at its generator, having
      visited only it, with an empty private pipeline named after the message
      and so no `next` hops. */
  function NewMessage(id: string, generator: ResId, now: real): (m: Message)
    ensures m.id == id && m.generator == generator && m.generated == now && m.seqNum == 0
    ensures m.alive && m.location == AtResource(generator) && m.resource == generator
    ensures m.visited == [generator] && m.next == []
    ensures m.pipeline == NewPipeline(Named(id))
    ensures m.props == map[] && m.subs == map[]
  {
    Message(id, 0, now, generator, true, AtResource(generator), generator, [generator], [],
            NewPipeline(Named(id)), map[], map[])
  }

  /** `unsubscribe(id)`: the id must be present and its `disable` event, which
      is one-shot, must not have fired yet. */
  function Unsubscribe(m: Message, sid: string): (r: Result<Message>)
    ensures sid !in m.subs ==> r == Err(KeyMissing)
    ensures sid in m.subs && m.subs[sid].disabled ==> r == Err(AlreadyTriggered)
    ensures sid in m.subs && !m.subs[sid].disabled ==>
              && r.Ok?
              && r.value.subs.Keys == m.subs.Keys
              && r.value.subs[sid] == m.subs[sid].(disabled := true)
              && (forall k :: k in m.subs && k != sid ==> r.value.subs[k] == m.subs[k])
              && r.value == m.(subs := r.value.subs)
  {
    if sid !in m.subs then Err(KeyMissing)
    else if m.subs[sid].disabled then Err(AlreadyTriggered)
    else Ok(m.(subs := m.subs[sid := m.subs[sid].(disabled := true)]))
  }

  /** `subscribe(event, callback, id)`: an existing subscription under the id is
      disabled first, then replaced by a fresh one. */
  function Subscribe(m: Message, e: Event, cb: Callback, sid: string): (r: Result<Message>)
    ensures r.Err? <==> sid in m.subs && m.subs[sid].disabled
    ensures r.Ok? ==> r.value.subs == m.subs[sid := Subscription(e, cb, false)]
    ensures r.Ok? ==> r.value == m.(subs := r.value.subs)
  {
    var m1 :- if sid in m.subs then Unsubscribe(m, sid) else Ok(m);
    Ok(m1.(subs := m1.subs[sid := Subscription(e, cb, false)]))
  }

  /** `done()`: the message dies, loses its hops, and every subscription is
      disabled; a subscription whose `disable` already fired makes it fail. */
  function Done(m: Message): (r: Result<Message>)
    ensures r.Err? <==> exists sid :: sid in m.subs && m.subs[sid].disabled
    ensures r.Err? ==> r.error == AlreadyTriggered
    ensures r.Ok? ==> !r.value.alive && r.value.next == []
    ensures r.Ok? ==> r.value.subs.Keys == m.subs.Keys
    ensures r.Ok? ==> forall sid :: sid in m.subs ==> r.value.subs[sid] == m.subs[sid].(disabled := true)
    ensures r.Ok? ==> r.value == m.(alive := false, next := [], subs := r.value.subs)
  {
    if exists sid :: sid in m.subs && m.subs[sid].disabled then Err(AlreadyTriggered)
    else
      var subs := map sid | sid in m.subs :: m.subs[sid].(disabled := true);
      Ok(m.(alive := false, next := [], subs := subs))
  }

  /** Finalising twice fails as soon as the message had a subscription. */
  lemma DoneTwice(m: Message)
    requires Done(m).Ok?
    ensures Done(Done(m).value).Ok? <==> m.subs == map[]
    ensures m.subs == map[] ==> Done(Done(m).value) == Done(m)
  {
    var d := Done(m).value;
    if m.subs != map[] {
      var sid :| sid in m.subs;
      assert d.subs[sid].disabled;
    }
  }

  /** The end of `_wait_event` for the subscription under `sid`, once its event
      or its `disable` has fired: the entry is deleted if the id is still
      there. Whether the callback ran is the caller's business. */
  function Settle(m: Message, sid: string): (r: Message)
    ensures sid !in r.subs && r.subs.Keys == m.subs.Keys - {sid}
    ensures forall k :: k in r.subs ==> r.subs[k] == m.subs[k]
    ensures r == m.(subs := r.subs)
  {
    m.(subs := m.subs - {sid})
  }

  /** An unsubscribed entry blocks `done()` and a new subscription under its id
      until its wait settles; afterwards both succeed again, and only that
      entry is gone. */
  lemma UnsubscribeThenSettle(m: Message, sid: string, e: Event, cb: Callback)
    requires Done(m).Ok? && sid in m.subs
    ensures Unsubscribe(m, sid).Ok?
    ensures Done(Unsubscribe(m, sid).value).Err?
    ensures Subscribe(Unsubscribe(m, sid).value, e, cb, sid).Err?
    ensures var s := Settle(Unsubscribe(m, sid).value, sid);
            && s.subs == m.subs - {sid}
            && Done(s).Ok?
            && Subscribe(s, e, cb, sid).Ok?
  {
    var u := Unsubscribe(m, sid).value;
    assert u.subs[sid].disabled;
    var s := Settle(u, sid);
    assert forall k :: k in s.subs ==> s.subs[k] == m.subs[k];
  }

  /** Subscribing under a fresh id, unsubscribing it and letting the wait settle
      gives the message back unchanged. */
  lemma SubscribeRoundTrip(m: Message, e: Event, cb: Callback, sid: string)
    requires sid !in m.subs
    ensures Subscribe(m, e, cb, sid).Ok?
    ensures Unsubscribe(Subscribe(m, e, cb, sid).value, sid).Ok?
    ensures Settle(Unsubscribe(Subscribe(m, e, cb, sid).value, sid).value, sid) == m
  {
    var u := Unsubscribe(Subscribe(m, e, cb, sid).value, sid).value;
    assert Settle(u, sid).subs == m.subs;
  }

  /** The notification `_drop` sends to the message's location. */
  datatype Notice = Notice(at: Loc, cause: string)

  /** `drop(id, event)`: without an event the message is finalised and its
      location told at once; with one, `_drop` is armed under the id. */
  function Drop(m: Message, cause: string, event: Option<Event>): (r: Result<(Message, Option<Notice>)>)
    ensures event.None? ==> (r.Ok? <==> Done(m).Ok?)
    ensures event.None? && r.Ok? ==> r.value == (Done(m).value, Some(Notice(m.location, cause)))
    ensures event.Some? ==> (r.Ok? <==> Subscribe(m, event.value, DropCallback, cause).Ok?)
    ensures event.Some? && r.Ok? ==>
              && r.value.1.None?
              && r.value.0.subs == m.subs[cause := Subscription(event.value, DropCallback, false)]
              && r.value.0 == m.(subs := r.value.0.subs)
  {
    match event
    case None =>
      var d :- Done(m);
      Ok((d, Some(Notice(m.location, cause))))
    case Some(e) =>
      var s :- Subscribe(m, e, DropCallback, cause);
      Ok((s, None))
  }

  /** `copy()`: the same id, origin, sequence number, history, liveness,
      position and properties; `next` re-derived from the pipeline rather than
      copied, and every subscription armed afresh. */
  function Copy(m: Message): (r: Result<Message>)
    ensures r.Ok? <==> DeriveNext(m).Ok?
    ensures r.Ok? ==>
              && r.value.id == m.id && r.value.generator == m.generator
              && r.value.seqNum == m.seqNum && r.value.generated == m.generated
              && r.value.visited == m.visited && r.value.alive == m.alive
              && r.value.location == m.location && r.value.resource == m.resource
              && r.value.pipeline == m.pipeline && r.value.props == m.props
    ensures r.Ok? ==> r.value.next == DeriveNext(m).value
    ensures r.Ok? ==> r.value.subs.Keys == m.subs.Keys
    ensures r.Ok? ==> forall sid :: sid in m.subs ==>
              r.value.subs[sid] == m.subs[sid].(disabled := false)
  {
    var next :- DeriveNext(m);
    var subs := map sid | sid in m.subs :: m.subs[sid].(disabled := false);
    Ok(m.(next := next, subs := subs))
  }

  /** When a message's hops agree with its pipeline, its copy has the same hops;
      a hand-set `next` is not carried over. */
  lemma CopyNext(m: Message)
    requires DeriveNext(m).Ok?
    ensures Copy(m).value.next == m.next <==> m.next == DeriveNext(m).value
  {
  }

  /** Copying a copy changes nothing further. */
  lemma CopyOfCopy(m: Message)
    requires Copy(m).Ok?
    ensures Copy(Copy(m).value) == Copy(m)
  {
    var c := Copy(m).value;
    assert DeriveNext(c) == DeriveNext(m);
    assert Copy(c).value.subs == c.subs;
  }
}
