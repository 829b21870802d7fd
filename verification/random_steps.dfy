/** The piecewise time table of simpype/random.py: a dictionary from breakpoints to
    value producers becomes a list of contiguous half-open steps covering the
    timeline up to +inf, and `value` discards expired steps before evaluating the
    current one. Producers are abstracted to `Skip` (returns None) or a value. */
module RandomSteps {
  import opened Base

  datatype Producer = Skip | Val(v: real)

  /** What a step evaluates when read: its own window's producer, or the closure
      built when a skip window is absorbed into the following value window. */
  datatype Proc = Draw(p: Producer) | Deferred(wait: real)

  datatype Step = Step(tfrom: real, tto: Time, proc: Proc)

  /** A constructed `Random`: its step list, and the closure variable `wait`
      that every deferred step reads in the Python code (see `ValueAsWritten`). */
  datatype RandomProcess = RandomProcess(steps: seq<Step>, sharedWait: Option<real>)

  /** One dictionary entry `breakpoint: producer`. */
  type Entry = (real, Producer)

  /** One breakpoint of the completed table, including the +inf sentinel. */
  datatype Window = Window(at: Time, producer: Producer)

  predicate DistinctKeys(d: seq<Entry>) {
    forall i, j :: 0 <= i < j < |d| ==> d[i].0 != d[j].0
  }

  /** Breakpoints strictly increase from each entry to the next. */
  ghost predicate Ascending(d: seq<Entry>) {
    forall i, j :: 0 <= i < j < |d| && j == i + 1 ==> d[i].0 < d[j].0
  }

  predicate HasKey(d: seq<Entry>, k: real) {
    exists i :: 0 <= i < |d| && d[i].0 == k
  }

  /** `if 0 not in step_dict: step_dict[0] = lambda: None`. */
  function WithZero(d: seq<Entry>): (r: seq<Entry>)
    requires DistinctKeys(d)
    ensures DistinctKeys(r) && HasKey(r, 0.0)
    ensures multiset(d) <= multiset(r)
    ensures forall e :: e in r ==> e in d || e == (0.0, Skip)
  {
    if HasKey(d, 0.0) then d
    else
      var r := d + [(0.0, Skip)];
      assert r[|d|].0 == 0.0;
      r
  }

  function Insert(e: Entry, s: seq<Entry>): (r: seq<Entry>)
    ensures |r| == |s| + 1
    ensures multiset(r) == multiset(s) + multiset{e}
    ensures r[0] == e || (|s| > 0 && r[0] == s[0])
  {
    if |s| == 0 then [e]
    else if e.0 < s[0].0 then [e] + s
    else
      assert s == [s[0]] + s[1..];
      [s[0]] + Insert(e, s[1..])
  }

  lemma {:induction false} InsertAscending(e: Entry, s: seq<Entry>)
    requires Ascending(s)
    requires forall x :: x in s ==> x.0 != e.0
    ensures Ascending(Insert(e, s))
    decreases |s|
  {
    if |s| > 0 && e.0 >= s[0].0 {
      InsertAscending(e, s[1..]);
      assert s[0].0 != e.0;
    }
  }

  /** `sorted(step_dict)`: the entries in increasing breakpoint order. */
  function Sort(d: seq<Entry>): (r: seq<Entry>)
    ensures multiset(r) == multiset(d)
  {
    if |d| == 0 then []
    else
      assert d == [d[0]] + d[1..];
      Insert(d[0], Sort(d[1..]))
  }

  lemma {:induction false} SortAscending(d: seq<Entry>)
    requires DistinctKeys(d)
    ensures Ascending(Sort(d))
    decreases |d|
  {
    if |d| > 0 {
      var rest := Sort(d[1..]);
      SortAscending(d[1..]);
      forall x | x in rest ensures x.0 != d[0].0 {
        assert x in multiset(d[1..]);
        var j :| 0 <= j < |d[1..]| && d[1..][j] == x;
        assert d[j + 1] == x;
      }
      InsertAscending(d[0], rest);
    }
  }

  lemma {:induction false} AscendingHeadIsLeast(d: seq<Entry>, i: nat)
    requires Ascending(d) && i < |d|
    ensures d[0].0 <= d[i].0
    decreases i
  {
    if i > 0 {
      AscendingHeadIsLeast(d, i - 1);
    }
  }

  /** The completed, sorted table: the user's entries, a skip at 0 when 0 is
      missing, and the skip sentinel at +inf. */
  function Table(d: seq<Entry>): (w: seq<Window>)
    requires DistinctKeys(d)
    ensures |w| >= 2
    ensures w[|w| - 1] == Window(Inf, Skip)
  {
    var s := Sort(WithZero(d));
    seq(|s|, k requires 0 <= k < |s| => Window(Fin(s[k].0), s[k].1)) + [Window(Inf, Skip)]
  }

  /** The completed table's shape: finite increasing breakpoints closed by the
      skip sentinel at +inf. */
  ghost predicate Closed(w: seq<Window>) {
    && |w| >= 2
    && w[|w| - 1] == Window(Inf, Skip)
    && (forall k :: 0 <= k < |w| - 1 ==> w[k].at.Fin?)
    && (forall i, j :: 0 <= i < j < |w| - 1 && j == i + 1 ==> w[i].at.t < w[j].at.t)
  }

  /** Two consecutive skip windows before the sentinel make the Python loop
      append a step with a stale or unbound producer; the model excludes them. */
  ghost predicate NoInteriorDoubleSkip(w: seq<Window>) {
    forall i, j :: 0 <= i < j < |w| - 1 && j == i + 1 ==> !(w[i].producer.Skip? && w[j].producer.Skip?)
  }

  lemma TableClosed(d: seq<Entry>)
    requires DistinctKeys(d)
    ensures Closed(Table(d))
    ensures Table(d)[0].at == Fin(Sort(WithZero(d))[0].0)
  {
    var s := Sort(WithZero(d));
    assert |s| > 0 by {
      assert |multiset(s)| == |multiset(WithZero(d))|;
    }
    SortAscending(WithZero(d));
    var w := Table(d);
    assert forall k :: 0 <= k < |s| ==> w[k] == Window(Fin(s[k].0), s[k].1);
  }

  /** The construction loop of `Random.__init__`, one outer iteration per call. */
  function BuildFrom(w: seq<Window>, i: nat): (steps: seq<Step>)
    requires Closed(w) && NoInteriorDoubleSkip(w)
    requires i < |w|
    decreases |w| - i
  {
    if i == |w| - 1 then []
    else
      var a := w[i].producer;
      var b := w[i + 1].producer;
      var tfrom := w[i].at.t;
      if a.Val? then
        [Step(tfrom, w[i + 1].at, Draw(a))] + BuildFrom(w, i + 1)
      else if b.Val? then
        [Step(tfrom, w[i + 1].at, Deferred((w[i + 1].at.t - tfrom) + b.v))] + BuildFrom(w, i + 1)
      else
        [Step(tfrom, w[i + 1].at, Draw(b))]
  }

  /** What step k of the construction holds, stated window by window. */
  ghost predicate StepOfWindow(w: seq<Window>, k: nat, s: Step)
    requires Closed(w) && k + 1 < |w|
  {
    && s.tfrom == w[k].at.t
    && s.tto == w[k + 1].at
    && (w[k].producer.Val? ==> s.proc == Draw(w[k].producer))
    && (w[k].producer.Skip? && w[k + 1].producer.Val? ==>
          s.proc == Deferred((w[k + 1].at.t - w[k].at.t) + w[k + 1].producer.v))
    && (w[k].producer.Skip? && w[k + 1].producer.Skip? ==> s.proc == Draw(Skip))
  }

  lemma {:induction false} BuildFromWindows(w: seq<Window>, i: nat)
    requires Closed(w) && NoInteriorDoubleSkip(w)
    requires i < |w|
    ensures |BuildFrom(w, i)| == |w| - 1 - i
    ensures forall j :: 0 <= j < |BuildFrom(w, i)| ==> StepOfWindow(w, i + j, BuildFrom(w, i)[j])
    decreases |w| - i
  {
    if i < |w| - 1 {
      var a := w[i].producer;
      var b := w[i + 1].producer;
      var here := BuildFrom(w, i);
      if a.Val? || b.Val? {
        BuildFromWindows(w, i + 1);
        var rest := BuildFrom(w, i + 1);
        assert here[1..] == rest;
        forall j | 0 < j < |here| ensures StepOfWindow(w, i + j, here[j]) {
          assert here[j] == rest[j - 1];
          assert StepOfWindow(w, (i + 1) + (j - 1), rest[j - 1]);
        }
      } else {
        assert i + 1 == |w| - 1;
      }
      assert StepOfWindow(w, i + 0, here[0]);
    }
  }

  /** The last closure value assigned to `wait` during construction. */
  function LastDeferred(steps: seq<Step>): Option<real> {
    if |steps| == 0 then None
    else if steps[|steps| - 1].proc.Deferred? then Some(steps[|steps| - 1].proc.wait)
    else LastDeferred(steps[..|steps| - 1])
  }

  /** The shared `wait` holds the closure value of the last deferred step,
      and is unset exactly when no step is deferred. */
  lemma {:induction false} LastDeferredIsLast(steps: seq<Step>)
    ensures LastDeferred(steps).None? <==> forall k :: 0 <= k < |steps| ==> !steps[k].proc.Deferred?
    ensures LastDeferred(steps).Some? ==>
              exists k :: 0 <= k < |steps| && steps[k].proc == Deferred(LastDeferred(steps).value)
                          && forall j :: k < j < |steps| ==> !steps[j].proc.Deferred?
    decreases |steps|
  {
    if |steps| > 0 {
      var n := |steps| - 1;
      if steps[n].proc.Deferred? {
        assert steps[n].proc == Deferred(steps[n].proc.wait);
      } else {
        var init := steps[..n];
        LastDeferredIsLast(init);
        assert forall k :: 0 <= k < n ==> init[k] == steps[k];
        if LastDeferred(init).Some? {
          var k :| 0 <= k < n && init[k].proc == Deferred(LastDeferred(init).value)
                   && forall j :: k < j < n ==> !init[j].proc.Deferred?;
          assert steps[k].proc == Deferred(LastDeferred(steps).value);
        }
      }
    }
  }

  ghost predicate Contiguous(steps: seq<Step>) {
    forall i, j :: 0 <= i < j < |steps| && j == i + 1 ==> steps[i].tto == Fin(steps[j].tfrom)
  }

  /** The step list is never empty and ends at +inf: lookups always find a step. */
  predicate EndsAtInf(steps: seq<Step>) {
    |steps| > 0 && steps[|steps| - 1].tto == Inf
  }

  ghost predicate Buildable(d: seq<Entry>) {
    DistinctKeys(d) && NoInteriorDoubleSkip(Table(d))
  }

  lemma BuildShape(d: seq<Entry>)
    requires Buildable(d)
    ensures Closed(Table(d))
    ensures EndsAtInf(BuildFrom(Table(d), 0)) && Contiguous(BuildFrom(Table(d), 0))
    ensures BuildFrom(Table(d), 0)[0].tfrom == Sort(WithZero(d))[0].0
  {
    var w := Table(d);
    TableClosed(d);
    BuildFromWindows(w, 0);
    StepsFollowWindows(w, BuildFrom(w, 0));
  }

  /** Steps that follow closed windows one by one are contiguous, end at +inf
      and start where the first window does. */
  lemma StepsFollowWindows(w: seq<Window>, steps: seq<Step>)
    requires Closed(w) && |steps| == |w| - 1
    requires forall j :: 0 <= j < |steps| ==> StepOfWindow(w, 0 + j, steps[j])
    ensures EndsAtInf(steps) && Contiguous(steps)
    ensures steps[0].tfrom == w[0].at.t
  {
    assert StepOfWindow(w, 0 + 0, steps[0]);
    assert StepOfWindow(w, 0 + (|steps| - 1), steps[|steps| - 1]);
    forall i, j | 0 <= i < j < |steps| && j == i + 1 ensures steps[i].tto == Fin(steps[j].tfrom) {
      assert StepOfWindow(w, 0 + i, steps[i]);
      assert StepOfWindow(w, 0 + j, steps[j]);
    }
  }

  /** With no negative breakpoint, the completed table starts at 0. */
  lemma ZeroFirst(d: seq<Entry>)
    requires DistinctKeys(d)
    requires forall i :: 0 <= i < |d| ==> d[i].0 >= 0.0
    ensures Sort(WithZero(d))[0].0 == 0.0
  {
    var z := WithZero(d);
    var s := Sort(z);
    TableClosed(d);
    SortAscending(z);
    var k :| 0 <= k < |z| && z[k].0 == 0.0;
    assert z[k] in multiset(s);
    var m :| 0 <= m < |s| && s[m] == z[k];
    AscendingHeadIsLeast(s, m);
    assert s[0] in multiset(z);
    assert s[0] in z;
  }

  /** `Random(sim, step_dict)`. */
  function Build(d: seq<Entry>): (rp: RandomProcess)
    requires Buildable(d)
    ensures Closed(Table(d))
    ensures EndsAtInf(rp.steps) && Contiguous(rp.steps)
    ensures |rp.steps| == |Table(d)| - 1
    ensures rp.sharedWait == LastDeferred(rp.steps)
    ensures forall k :: 0 <= k < |rp.steps| ==> StepOfWindow(Table(d), 0 + k, rp.steps[k])
    ensures rp.steps[0].tfrom == Sort(WithZero(d))[0].0
    ensures (forall i :: 0 <= i < |d| ==> d[i].0 >= 0.0) ==> rp.steps[0].tfrom == 0.0
  {
    var w := Table(d);
    TableClosed(d);
    BuildFromWindows(w, 0);
    var steps := BuildFrom(w, 0);
    BuildShape(d);
    if forall i :: 0 <= i < |d| ==> d[i].0 >= 0.0 then
      ZeroFirst(d);
      RandomProcess(steps, LastDeferred(steps))
    else
    RandomProcess(steps, LastDeferred(steps))
  }

  /** Whether a step's end has passed at `now` (`step.tto <= now`). */
  predicate Expired(s: Step, now: real) {
    s.tto.Fin? && s.tto.t <= now
  }

  /** The loop `while step_list[0].tto <= now: step_list.pop(0)`. */
  function Discard(steps: seq<Step>, now: real): (r: seq<Step>)
    requires EndsAtInf(steps)
    ensures EndsAtInf(r) && |r| <= |steps|
    ensures r == steps[|steps| - |r|..]
    ensures forall k :: 0 <= k < |steps| - |r| ==> Expired(steps[k], now)
    ensures !Expired(r[0], now)
    ensures Contiguous(steps) ==> Contiguous(r)
  {
    if Expired(steps[0], now) then
      assert |steps| > 1;
      Discard(steps[1..], now)
    else steps
  }

  function Eval(p: Proc): Value {
    match p
    case Draw(Skip) => Nothing
    case Draw(Val(v)) => Num(v)
    case Deferred(wait) => Num(wait)
  }

  /** `Random.value` with each deferred step reading its own closure value. */
  function Value(rp: RandomProcess, now: real): (r: (RandomProcess, Value))
    requires EndsAtInf(rp.steps)
    ensures EndsAtInf(r.0.steps)
    ensures r.0.sharedWait == rp.sharedWait
    ensures rp.steps[0].tfrom <= now && Contiguous(rp.steps) ==>
              r.0.steps[0].tfrom <= now && Fin(now) != r.0.steps[0].tto
              && r.1 == Eval(r.0.steps[0].proc)
  {
    var rest := Discard(rp.steps, now);
    DiscardStartsBeforeNow(rp.steps, now);
    (RandomProcess(rest, rp.sharedWait), Eval(rest[0].proc))
  }

  lemma ContiguousTail(steps: seq<Step>)
    requires Contiguous(steps) && |steps| > 0
    ensures Contiguous(steps[1..])
  {
    var t := steps[1..];
    forall i, j | 0 <= i < j < |t| && j == i + 1 ensures t[i].tto == Fin(t[j].tfrom) {
      assert t[i] == steps[i + 1] && t[j] == steps[j + 1];
    }
  }

  lemma {:induction false} DiscardStartsBeforeNow(steps: seq<Step>, now: real)
    requires EndsAtInf(steps)
    ensures Contiguous(steps) && steps[0].tfrom <= now ==> Discard(steps, now)[0].tfrom <= now
    decreases |steps|
  {
    if Expired(steps[0], now) && Contiguous(steps) && steps[0].tfrom <= now {
      assert |steps| > 1;
      assert steps[0].tto == Fin(steps[1].tfrom);
      ContiguousTail(steps);
      DiscardStartsBeforeNow(steps[1..], now);
    }
  }

  /** Discarding is monotonic: reading at `now1` and then at a later `now2`
      leaves the same steps as reading at `now2` alone. */
  lemma {:induction false} DiscardMonotonic(steps: seq<Step>, now1: real, now2: real)
    requires EndsAtInf(steps)
    requires now1 <= now2
    ensures Discard(Discard(steps, now1), now2) == Discard(steps, now2)
    decreases |steps|
  {
    if Expired(steps[0], now1) {
      DiscardMonotonic(steps[1..], now1, now2);
    }
  }

  /** `Random.value` as written: every deferred step returns the last value
      assigned to the shared `wait` closure variable. */
  function ValueAsWritten(rp: RandomProcess, now: real): (r: Value)
    requires EndsAtInf(rp.steps)
    ensures !Discard(rp.steps, now)[0].proc.Deferred? ==> r == Value(rp, now).1
    ensures Discard(rp.steps, now)[0].proc.Deferred? && rp.sharedWait.Some? ==>
              r == Num(rp.sharedWait.value)
  {
    var rest := Discard(rp.steps, now);
    match rest[0].proc
    case Deferred(_) => (if rp.sharedWait.Some? then Num(rp.sharedWait.value) else Nothing)
    case Draw(p) => Eval(rest[0].proc)
  }

  /** With at most one absorbed skip window the shared closure is harmless. */
  lemma SingleDeferredAgrees(d: seq<Entry>, now: real)
    requires Buildable(d)
    requires forall i, j :: 0 <= i < j < |Build(d).steps| && Build(d).steps[i].proc.Deferred?
               ==> !Build(d).steps[j].proc.Deferred?
    ensures ValueAsWritten(Build(d), now) == Value(Build(d), now).1
  {
    SingleDeferredReading(Build(d), now);
  }

  /** The same, on the process alone: the shared `wait` is the one deferred
      step's own closure value. */
  lemma SingleDeferredReading(rp: RandomProcess, now: real)
    requires EndsAtInf(rp.steps) && rp.sharedWait == LastDeferred(rp.steps)
    requires forall i, j :: 0 <= i < j < |rp.steps| && rp.steps[i].proc.Deferred?
               ==> !rp.steps[j].proc.Deferred?
    ensures ValueAsWritten(rp, now) == Value(rp, now).1
  {
    var rest := Discard(rp.steps, now);
    if rest[0].proc.Deferred? {
      LastDeferredIsLast(rp.steps);
      var k := |rp.steps| - |rest|;
      assert rp.steps[k] == rest[0];
      var m :| 0 <= m < |rp.steps| && rp.steps[m].proc == Deferred(rp.sharedWait.value)
                && forall j :: m < j < |rp.steps| ==> !rp.steps[j].proc.Deferred?;
      assert m == k;
    }
  }

  lemma AscendingTail(d: seq<Entry>)
    requires Ascending(d) && |d| > 0
    ensures Ascending(d[1..])
  {
    var t := d[1..];
    forall i, j | 0 <= i < j < |t| && j == i + 1 ensures t[i].0 < t[j].0 {
      assert t[i] == d[i + 1] && t[j] == d[j + 1];
    }
  }

  /** An entry below every other is inserted at the front. */
  lemma InsertLeast(e: Entry, s: seq<Entry>)
    requires |s| == 0 || e.0 < s[0].0
    ensures Insert(e, s) == [e] + s
  {
  }

  /** Sorting a table already in order leaves it unchanged. */
  lemma {:induction false} SortAscendingIdentity(d: seq<Entry>)
    requires Ascending(d)
    ensures Sort(d) == d
    decreases |d|
  {
    if |d| > 0 {
      var t := d[1..];
      AscendingTail(d);
      SortAscendingIdentity(t);
      if |t| > 0 {
        assert t[0] == d[1];
      }
      InsertLeast(d[0], t);
      assert d == [d[0]] + t;
    }
  }

  /** The windows of a table that already holds 0 and is already in order. */
  lemma TableOfSorted(d: seq<Entry>)
    requires DistinctKeys(d) && Ascending(d) && HasKey(d, 0.0)
    ensures Table(d) == seq(|d|, k requires 0 <= k < |d| => Window(Fin(d[k].0), d[k].1)) + [Window(Inf, Skip)]
  {
    SortAscendingIdentity(d);
  }

  lemma ThreeValueWindows(a: real, t1: real, u: real, t2: real, e: real)
    requires 0.0 < t1 < t2
    ensures DistinctKeys([(0.0, Val(a)), (t1, Val(u)), (t2, Val(e))])
    ensures Table([(0.0, Val(a)), (t1, Val(u)), (t2, Val(e))]) ==
      [Window(Fin(0.0), Val(a)), Window(Fin(t1), Val(u)), Window(Fin(t2), Val(e)), Window(Inf, Skip)]
  {
    var d := [(0.0, Val(a)), (t1, Val(u)), (t2, Val(e))];
    ThreeValueOrdered(a, t1, u, t2, e);
    TableOfSorted(d);
    var w := Table(d);
    assert |w| == 4;
    assert w[0] == Window(Fin(0.0), Val(a));
    assert w[1] == Window(Fin(t1), Val(u));
    assert w[2] == Window(Fin(t2), Val(e));
  }

  lemma ThreeValueOrdered(a: real, t1: real, u: real, t2: real, e: real)
    requires 0.0 < t1 < t2
    ensures DistinctKeys([(0.0, Val(a)), (t1, Val(u)), (t2, Val(e))])
    ensures Ascending([(0.0, Val(a)), (t1, Val(u)), (t2, Val(e))])
    ensures HasKey([(0.0, Val(a)), (t1, Val(u)), (t2, Val(e))], 0.0)
  {
    var d := [(0.0, Val(a)), (t1, Val(u)), (t2, Val(e))];
    assert d[0].0 == 0.0;
  }

  /** The first step over three value windows, stated on the windows alone. */
  lemma ThreeValueFirstStep(w: seq<Window>, a: real, t1: real, u: real, t2: real, e: real)
    requires 0.0 < t1 < t2
    requires w == [Window(Fin(0.0), Val(a)), Window(Fin(t1), Val(u)), Window(Fin(t2), Val(e)), Window(Inf, Skip)]
    ensures Closed(w) && NoInteriorDoubleSkip(w)
    ensures BuildFrom(w, 0)[0] == Step(0.0, Fin(t1), Draw(Val(a)))
  {
    assert Closed(w);
    assert NoInteriorDoubleSkip(w);
  }

  /** Three value windows from 0: reading before the second breakpoint
      evaluates the first producer. */
  lemma ThreeValuesEarly(a: real, t1: real, u: real, t2: real, e: real, now: real)
    requires 0.0 <= now < t1 < t2
    ensures Buildable([(0.0, Val(a)), (t1, Val(u)), (t2, Val(e))])
    ensures Value(Build([(0.0, Val(a)), (t1, Val(u)), (t2, Val(e))]), now).1 == Num(a)
  {
    var d := [(0.0, Val(a)), (t1, Val(u)), (t2, Val(e))];
    ThreeValueWindows(a, t1, u, t2, e);
    ThreeValueFirstStep(Table(d), a, t1, u, t2, e);
    var steps := Build(d).steps;
    assert steps[0] == Step(0.0, Fin(t1), Draw(Val(a)));
    assert Discard(steps, now) == steps;
  }

  /** The first table of the `Random` docstring: 3.0 from t=0, a uniform
      sample `u` from t=10, and an exponential sample `e` from t=20 on. */
  function DocTable(u: real, e: real): seq<Entry> {
    [(0.0, Val(3.0)), (10.0, Val(u)), (20.0, Val(e))]
  }

  /** The construction over the docstring's windows, stated on the windows alone:
      one step per window, the last one open-ended. */
  lemma DocWindowSteps(w: seq<Window>, u: real, e: real)
    requires w == [Window(Fin(0.0), Val(3.0)), Window(Fin(10.0), Val(u)), Window(Fin(20.0), Val(e)), Window(Inf, Skip)]
    ensures Closed(w) && NoInteriorDoubleSkip(w)
    ensures BuildFrom(w, 0) ==
      [Step(0.0, Fin(10.0), Draw(Val(3.0))), Step(10.0, Fin(20.0), Draw(Val(u))), Step(20.0, Inf, Draw(Val(e)))]
  {
    assert Closed(w);
    assert NoInteriorDoubleSkip(w);
    BuildFromWindows(w, 0);
    var st := BuildFrom(w, 0);
    assert StepOfWindow(w, 0 + 0, st[0]);
    assert StepOfWindow(w, 0 + 1, st[1]);
    assert StepOfWindow(w, 0 + 2, st[2]);
  }

  /** Reading the docstring's steps, stated on the steps alone: each reading
      lands on the step of its own window. */
  lemma DocLookup(st: seq<Step>, u: real, e: real, now: real)
    requires 0.0 <= now
    requires st == [Step(0.0, Fin(10.0), Draw(Val(3.0))), Step(10.0, Fin(20.0), Draw(Val(u))), Step(20.0, Inf, Draw(Val(e)))]
    ensures now < 10.0 ==> Discard(st, now) == st
    ensures 10.0 <= now < 20.0 ==> Discard(st, now) == st[1..]
    ensures 20.0 <= now ==> Discard(st, now) == st[2..]
  {
    if 10.0 <= now {
      var rest := st[1..];
      assert EndsAtInf(rest) && Expired(st[0], now);
      if now < 20.0 {
        assert !Expired(rest[0], now);
        assert Discard(st, now) == Discard(rest, now) == rest;
      } else {
        var last := rest[1..];
        assert last == st[2..] && EndsAtInf(last) && Expired(rest[0], now) && !Expired(last[0], now);
        assert Discard(rest, now) == Discard(last, now) == last;
      }
    }
  }

  /** The docstring's readings: at t=5 the constant 3.0, at t=15 the uniform
      sample and at t=25 the exponential one. */
  lemma DocExampleReadings(u: real, e: real)
    ensures Buildable(DocTable(u, e))
    ensures Value(Build(DocTable(u, e)), 5.0).1 == Num(3.0)
    ensures Value(Build(DocTable(u, e)), 15.0).1 == Num(u)
    ensures Value(Build(DocTable(u, e)), 25.0).1 == Num(e)
  {
    ThreeValueWindows(3.0, 10.0, u, 20.0, e);
    DocWindowSteps(Table(DocTable(u, e)), u, e);
    var st := Build(DocTable(u, e)).steps;
    DocLookup(st, u, e, 5.0);
    DocLookup(st, u, e, 15.0);
    DocLookup(st, u, e, 25.0);
  }

  /** A table with two skip windows, each absorbed into the value window that
      follows it. */
  function TwoGapTable(t1: real, v1: real, t2: real, t3: real, v2: real): seq<Entry> {
    [(0.0, Skip), (t1, Val(v1)), (t2, Skip), (t3, Val(v2))]
  }

  lemma TwoGapWindows(t1: real, v1: real, t2: real, t3: real, v2: real)
    requires 0.0 < t1 < t2 < t3
    ensures DistinctKeys(TwoGapTable(t1, v1, t2, t3, v2))
    ensures Table(TwoGapTable(t1, v1, t2, t3, v2)) ==
      [Window(Fin(0.0), Skip), Window(Fin(t1), Val(v1)), Window(Fin(t2), Skip),
       Window(Fin(t3), Val(v2)), Window(Inf, Skip)]
  {
    var d := TwoGapTable(t1, v1, t2, t3, v2);
    TwoGapOrdered(t1, v1, t2, t3, v2);
    TableOfSorted(d);
    var w := Table(d);
    assert |w| == 5;
    assert w[0] == Window(Fin(0.0), Skip);
    assert w[1] == Window(Fin(t1), Val(v1));
    assert w[2] == Window(Fin(t2), Skip);
    assert w[3] == Window(Fin(t3), Val(v2));
    assert w[4] == Window(Inf, Skip);
  }

  lemma TwoGapOrdered(t1: real, v1: real, t2: real, t3: real, v2: real)
    requires 0.0 < t1 < t2 < t3
    ensures DistinctKeys(TwoGapTable(t1, v1, t2, t3, v2))
    ensures Ascending(TwoGapTable(t1, v1, t2, t3, v2))
    ensures HasKey(TwoGapTable(t1, v1, t2, t3, v2), 0.0)
  {
    var d := TwoGapTable(t1, v1, t2, t3, v2);
    assert d[0].0 == 0.0;
  }

  /** The construction over the two-gap windows, stated on the windows alone. */
  lemma TwoGapWindowSteps(w: seq<Window>, t1: real, v1: real, t2: real, t3: real, v2: real)
    requires 0.0 < t1 < t2 < t3
    requires w == [Window(Fin(0.0), Skip), Window(Fin(t1), Val(v1)), Window(Fin(t2), Skip),
                   Window(Fin(t3), Val(v2)), Window(Inf, Skip)]
    ensures Closed(w) && NoInteriorDoubleSkip(w)
    ensures BuildFrom(w, 0) ==
      [Step(0.0, Fin(t1), Deferred(t1 + v1)), Step(t1, Fin(t2), Draw(Val(v1))),
       Step(t2, Fin(t3), Deferred((t3 - t2) + v2)), Step(t3, Inf, Draw(Val(v2)))]
  {
    assert Closed(w);
    assert NoInteriorDoubleSkip(w);
    BuildFromWindows(w, 0);
    var st := BuildFrom(w, 0);
    assert StepOfWindow(w, 0 + 0, st[0]);
    assert StepOfWindow(w, 0 + 1, st[1]);
    assert StepOfWindow(w, 0 + 2, st[2]);
    assert StepOfWindow(w, 0 + 3, st[3]);
  }

  lemma TwoGapSteps(t1: real, v1: real, t2: real, t3: real, v2: real)
    requires 0.0 < t1 < t2 < t3
    ensures Buildable(TwoGapTable(t1, v1, t2, t3, v2))
    ensures Build(TwoGapTable(t1, v1, t2, t3, v2)).steps ==
      [Step(0.0, Fin(t1), Deferred(t1 + v1)), Step(t1, Fin(t2), Draw(Val(v1))),
       Step(t2, Fin(t3), Deferred((t3 - t2) + v2)), Step(t3, Inf, Draw(Val(v2)))]
  {
    var d := TwoGapTable(t1, v1, t2, t3, v2);
    TwoGapWindows(t1, v1, t2, t3, v2);
    TwoGapWindowSteps(Table(d), t1, v1, t2, t3, v2);
  }

  /** The process built from the two-gap table, as a plain value. */
  lemma TwoGapProcess(t1: real, v1: real, t2: real, t3: real, v2: real)
    requires 0.0 < t1 < t2 < t3
    ensures Buildable(TwoGapTable(t1, v1, t2, t3, v2))
    ensures Build(TwoGapTable(t1, v1, t2, t3, v2)) ==
      RandomProcess([Step(0.0, Fin(t1), Deferred(t1 + v1)), Step(t1, Fin(t2), Draw(Val(v1))),
                     Step(t2, Fin(t3), Deferred((t3 - t2) + v2)), Step(t3, Inf, Draw(Val(v2)))],
                    Some((t3 - t2) + v2))
  {
    TwoGapSteps(t1, v1, t2, t3, v2);
    var st := Build(TwoGapTable(t1, v1, t2, t3, v2)).steps;
    TwoGapLookup(st, t1, v1, t2, t3, v2, 0.0);
  }

  /** Facts about the two-gap step list, stated on the steps alone. */
  lemma TwoGapLookup(st: seq<Step>, t1: real, v1: real, t2: real, t3: real, v2: real, now: real)
    requires 0.0 <= now < t1 < t2 < t3
    requires st == [Step(0.0, Fin(t1), Deferred(t1 + v1)), Step(t1, Fin(t2), Draw(Val(v1))),
                    Step(t2, Fin(t3), Deferred((t3 - t2) + v2)), Step(t3, Inf, Draw(Val(v2)))]
    ensures LastDeferred(st) == Some((t3 - t2) + v2)
    ensures Discard(st, now) == st
  {
    assert st[..3][2] == st[2];
  }

  /** Reading the two-gap process inside its first gap, on the process alone. */
  lemma TwoGapProcessReading(rp: RandomProcess, t1: real, v1: real, t2: real, t3: real, v2: real, now: real)
    requires 0.0 <= now < t1 < t2 < t3
    requires rp ==
      RandomProcess([Step(0.0, Fin(t1), Deferred(t1 + v1)), Step(t1, Fin(t2), Draw(Val(v1))),
                     Step(t2, Fin(t3), Deferred((t3 - t2) + v2)), Step(t3, Inf, Draw(Val(v2)))],
                    Some((t3 - t2) + v2))
    ensures Value(rp, now).1 == Num(t1 + v1)
    ensures ValueAsWritten(rp, now) == Num((t3 - t2) + v2)
  {
    TwoGapLookup(rp.steps, t1, v1, t2, t3, v2, now);
  }

  /** Reading inside the first gap: the intended value is the first gap's wait,
      the Python code returns the wait of the last gap. */
  lemma TwoGapReading(t1: real, v1: real, t2: real, t3: real, v2: real, now: real)
    requires 0.0 <= now < t1 < t2 < t3
    ensures Buildable(TwoGapTable(t1, v1, t2, t3, v2))
    ensures Value(Build(TwoGapTable(t1, v1, t2, t3, v2)), now).1 == Num(t1 + v1)
    ensures ValueAsWritten(Build(TwoGapTable(t1, v1, t2, t3, v2)), now) == Num((t3 - t2) + v2)
  {
    TwoGapProcess(t1, v1, t2, t3, v2);
    TwoGapProcessReading(Build(TwoGapTable(t1, v1, t2, t3, v2)), t1, v1, t2, t3, v2, now);
  }

  /** The shared closure in action: breakpoints 0 (skip), 10 (1.0), 20 (skip),
      30 (2.0) read at t=5 should give 10 + 1.0 = 11.0, and give 12.0. */
  lemma SharedClosureCounterexample()
    ensures Buildable(TwoGapTable(10.0, 1.0, 20.0, 30.0, 2.0))
    ensures Value(Build(TwoGapTable(10.0, 1.0, 20.0, 30.0, 2.0)), 5.0).1 == Num(11.0)
    ensures ValueAsWritten(Build(TwoGapTable(10.0, 1.0, 20.0, 30.0, 2.0)), 5.0) == Num(12.0)
  {
    TwoGapReading(10.0, 1.0, 20.0, 30.0, 2.0, 5.0);
  }

  /** How a value assigned into a `RandomDict` is stored. */
  datatype Assigned = Prebuilt(process: RandomProcess) | Raw(table: seq<Entry>)

  /** `RandomDict.__setitem__`: a `Random` is stored as is, anything else is
      first turned into one. */
  function SetItem(rd: map<string, RandomProcess>, key: string, v: Assigned): (r: map<string, RandomProcess>)
    requires v.Raw? ==> Buildable(v.table)
    ensures r.Keys == rd.Keys + {key}
    ensures forall k :: k in rd && k != key ==> r[k] == rd[k]
    ensures v.Prebuilt? ==> r[key] == v.process
    ensures v.Raw? ==> EndsAtInf(r[key].steps) && Contiguous(r[key].steps)
  {
    var p := if v.Prebuilt? then v.process else Build(v.table);
    rd[key := p]
  }
}
