/** The preemptable resource of `examples/model/r_preemption.py`: a service
    whose length is the message's owed `wait`, drawn only the first time. */
module PreemptiveService {
  import opened Base
  import opened Messages
  import opened Preemption

  /** The service table's default producer: the constant 1. */
  const DefaultService: real := 1.0

  /** The `service` step: a message without a `wait` gets the drawn service
      time as a static property; the service then lasts the owed `wait`. */
  function ServiceWait(m: Message, draw: real): (r: (Message, real))
    ensures WaitProp in r.0.props && r.1 == r.0.props[WaitProp].value
    ensures WaitProp in m.props ==> r == (m, m.props[WaitProp].value)
    ensures WaitProp !in m.props ==> r.1 == draw && r.0 == m.(props := m.props[WaitProp := Property(draw, false)])
  {
    var m1 := if WaitProp in m.props then m else m.(props := m.props[WaitProp := Property(draw, false)]);
    (m1, m1.props[WaitProp].value)
  }

  /** One service that was cut short: when it started and when it was interrupted. */
  datatype Segment = Segment(started: real, cut: real)

  /** The service the segments gave in total. */
  function Served(segs: seq<Segment>): real
    decreases |segs|
  {
    if segs == [] then 0.0 else (segs[0].cut - segs[0].started) + Served(segs[1..])
  }

  /** A message preempted once per segment, in order. */
  function Preempt(m: Message, segs: seq<Segment>): (r: Message)
    requires WaitProp in m.props
    ensures WaitProp in r.props
    decreases |segs|
  {
    if segs == [] then m else Preempt(Resume(m, segs[0].started, segs[0].cut), segs[1..])
  }

  /** Restart-less resume: after any number of preemptions the owed wait is the
      first wait less all the service received, because later services never
      draw again. */
  lemma {:induction false} ResidualWait(m: Message, segs: seq<Segment>, draw: real, later: real)
    ensures var (first, w0) := ServiceWait(m, draw);
            ServiceWait(Preempt(first, segs), later).1 == w0 - Served(segs)
  {
    var (first, w0) := ServiceWait(m, draw);
    PreemptedWait(first, segs);
  }

  lemma {:induction false} PreemptedWait(m: Message, segs: seq<Segment>)
    requires WaitProp in m.props
    ensures Preempt(m, segs).props[WaitProp].value == m.props[WaitProp].value - Served(segs)
    decreases |segs|
  {
    if segs != [] {
      var m1 := Resume(m, segs[0].started, segs[0].cut);
      PreemptedWait(m1, segs[1..]);
    }
  }

  /** With the default table, a fresh message is served for 1, and a message
      preempted after 0.25 of it is served for the remaining 0.75. */
  lemma DefaultResume(m: Message, t: real)
    requires WaitProp !in m.props
    ensures ServiceWait(m, DefaultService).1 == 1.0
    ensures ServiceWait(Resume(ServiceWait(m, DefaultService).0, t, t + 0.25), DefaultService).1 == 0.75
  {
  }
}
