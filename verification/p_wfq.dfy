/** The weighted fair queueing pipe of `examples/model/p_wfq.py`: one token
    bucket per priority class, and a dequeue that serves the smallest head
    among the buckets holding enough tokens for it. */
module WeightedFair {
  import opened Base
  import opened Pipelines
  import opened Messages

  /** The message properties this pipe reads and writes. */
  const SizeProp := "size"
  const PriorityProp := "priority"

  /** A `TokenBucket` queue. `level` is the token count stored at time `last`;
      it is refilled lazily each time it is read. `wake` is the bucket's own
      `available` event, which wakes its activation step. The fields are those
      `_set_queue_param` leaves: whole-number rate and capacity. */
  datatype Bucket = Bucket(
    id: int,
    buffer: seq<Message>,
    active: bool,
    capacity: int,
    level: real,
    rate: int,
    last: real,
    wake: bool)

  /** Every buffered message carries a size. */
  predicate Sized(ms: seq<Message>) {
    forall i :: 0 <= i < |ms| ==> SizeProp in ms[i].props
  }

  /** Every buffered message carries a size of at least 0. */
  predicate NonNegative(ms: seq<Message>) {
    forall i :: 0 <= i < |ms| ==> SizeProp in ms[i].props && ms[i].props[SizeProp].value >= 0.0
  }

  function Size(m: Message): real
    requires SizeProp in m.props
  {
    m.props[SizeProp].value
  }

  /** `__len__`: the summed sizes of the buffered messages. */
  function Len(ms: seq<Message>): (r: real)
    requires Sized(ms)
    ensures NonNegative(ms) ==> r >= 0.0
    ensures NonNegative(ms) && |ms| > 0 ==> r >= Size(ms[0])
    decreases |ms|
  {
    if ms == [] then 0.0 else Size(ms[0]) + Len(ms[1..])
  }

  /** Every buffered size is a whole number, which the model takes for a
      Python `int`. */
  predicate Whole(ms: seq<Message>)
    requires Sized(ms)
  {
    forall i :: 0 <= i < |ms| ==> Size(ms[i]) == Size(ms[i]).Floor as real
  }

  /** Whole sizes sum to a whole number. */
  lemma {:induction false} LenWhole(ms: seq<Message>)
    requires Sized(ms) && Whole(ms)
    ensures Len(ms) == Len(ms).Floor as real
    decreases |ms|
  {
    if ms != [] {
      var rest := ms[1..];
      assert Whole(rest) by {
        forall i | 0 <= i < |rest| ensures Size(rest[i]) == Size(rest[i]).Floor as real {
          assert rest[i] == ms[i + 1];
        }
      }
      LenWhole(rest);
      assert Size(ms[0]) == Size(ms[0]).Floor as real;
      WholeSum(Size(ms[0]), Len(rest));
    }
  }

  lemma WholeSum(x: real, y: real)
    requires x == x.Floor as real && y == y.Floor as real
    ensures x + y == (x + y).Floor as real
  {
    assert x + y == (x.Floor + y.Floor) as real;
  }

  /** Python's `len()` of a bucket: `__len__` must give an `int` of at least 0,
      so a size that is not a whole number fails with `TypeError` and a
      negative sum with `ValueError`. */
  function Length(ms: seq<Message>): (r: Result<nat>)
    requires Sized(ms)
    ensures r.Ok? <==> Whole(ms) && Len(ms) >= 0.0
    ensures !Whole(ms) ==> r == Err(NotAnInteger)
    ensures Whole(ms) && Len(ms) < 0.0 ==> r == Err(NegativeLength)
    ensures r.Ok? ==> r.value as real == Len(ms)
  {
    if !Whole(ms) then Err(NotAnInteger)
    else if Len(ms) < 0.0 then Err(NegativeLength)
    else
      LenWhole(ms);
      Ok(Len(ms).Floor)
  }

  /** The summed size grows by the size of an appended message. */
  lemma {:induction false} LenAppend(ms: seq<Message>, m: Message)
    requires Sized(ms) && SizeProp in m.props
    ensures Sized(ms + [m]) && Len(ms + [m]) == Len(ms) + Size(m)
    decreases |ms|
  {
    if ms != [] {
      assert (ms + [m])[1..] == ms[1..] + [m];
      LenAppend(ms[1..], m);
    }
  }

  /** A bucket just built by `add_queue`: empty and disabled, stamped with the
      current time. Its initial infinite capacity, level and rate are overwritten
      by `_set_queue_param` before anything reads them, so they start at 0 here. */
  function NewBucket(id: int, now: real): (b: Bucket)
    ensures b.id == id && b.buffer == [] && !b.active && b.last == now && !b.wake
  {
    Bucket(id, [], false, 0, 0.0, 0, now, false)
  }

  /** Reading `level` at `now`: the stored level plus the tokens accrued since
      `last`, rounded up and capped at the capacity; `last` moves to `now`. */
  function Refresh(b: Bucket, now: real): (r: Bucket)
    ensures r == b.(level := r.level, last := now)
    ensures r.level <= b.capacity as real
    ensures r.level == r.level.Floor as real
  {
    var l := Ceil(b.level + Accrued(b, now));
    b.(level := if l < b.capacity then l as real else b.capacity as real, last := now)
  }

  /** The tokens accrued between `last` and `now`. */
  function Accrued(b: Bucket, now: real): real {
    b.rate as real * (now - b.last)
  }

  /** The refreshed level is the accrued level rounded up, unless the capacity
      caps it. */
  lemma RefreshAccrues(b: Bucket, now: real)
    ensures var r := Refresh(b, now);
            && (r.level == b.capacity as real || r.level >= b.level + Accrued(b, now))
            && r.level < b.level + Accrued(b, now) + 1.0
  {
  }

  /** Reading `level` twice at the same instant gives the same answer. */
  lemma RefreshIdempotent(b: Bucket, now: real)
    ensures Refresh(Refresh(b, now), now) == Refresh(b, now)
  {
    RefreshSettled(Refresh(b, now));
  }

  /** A whole level within the capacity, read again at its own `last`, stays put. */
  lemma RefreshSettled(b: Bucket)
    requires b.level == b.level.Floor as real && b.level <= b.capacity as real
    ensures Refresh(b, b.last) == b
  {
    NoTimeNoTokens(b, b.last);
    CeilOfWhole(b.level);
  }

  /** No time passed, no tokens accrued. */
  lemma NoTimeNoTokens(b: Bucket, now: real)
    requires now == b.last
    ensures Accrued(b, now) == 0.0
  {
    assert now - b.last == 0.0;
  }

  /** Rounding a whole number up leaves it alone. */
  lemma CeilOfWhole(x: real)
    requires x == x.Floor as real
    ensures Ceil(x) == x.Floor
  {
  }

  /** With a non-negative rate and time moving forward, reading never loses
      tokens unless the capacity caps them. */
  lemma RefreshGains(b: Bucket, now: real)
    requires b.rate >= 0 && now >= b.last && b.level <= b.capacity as real
    ensures Refresh(b, now).level >= b.level
  {
    var acc := Accrued(b, now);
    ProductNonNegative(b.rate as real, now - b.last);
    assert acc >= 0.0;
    RefreshAccrues(b, now);
    var r := Refresh(b, now);
    if r.level != b.capacity as real {
      assert r.level >= b.level + acc;
    }
  }

  lemma ProductNonNegative(x: real, y: real)
    requires x >= 0.0 && y >= 0.0
    ensures x * y >= 0.0
  {
  }

  /** The queue-level push wrapper's outcome: the bucket, what `push` returned
      (the message when admitted, `None` when dropped), and the message's state. */
  datatype BucketPushed = BucketPushed(bucket: Bucket, result: Option<Message>, msg: Message)

  /** `TokenBucket.push`: admit at the tail when the summed size stays within
      the capacity, and signal `wake`; otherwise drop the message with cause
      'full'. The bucket's `len()` is taken first and may fail. The message
      is already located at this bucket. */
  function Push(b: Bucket, m: Message): (r: Result<BucketPushed>)
    requires Sized(b.buffer)
    ensures Length(b.buffer).Err? ==> r == Err(Length(b.buffer).error)
    ensures Length(b.buffer).Ok? && SizeProp !in m.props ==> r == Err(KeyMissing)
    ensures Length(b.buffer).Ok? && SizeProp in m.props && Len(b.buffer) + Size(m) <= b.capacity as real ==>
              r == Ok(BucketPushed(b.(buffer := b.buffer + [m], wake := true), Some(m), m))
    ensures Length(b.buffer).Ok? && SizeProp in m.props && Len(b.buffer) + Size(m) > b.capacity as real ==>
              && (r.Ok? <==> Done(m).Ok?)
              && (r.Ok? ==> r.value == BucketPushed(b, None, Done(m).value))
    ensures r.Ok? ==> Sized(r.value.bucket.buffer)
    ensures r.Ok? && Len(b.buffer) <= b.capacity as real ==> Len(r.value.bucket.buffer) <= b.capacity as real
  {
    var n :- Length(b.buffer);
    if SizeProp !in m.props then Err(KeyMissing)
    else if n as real + Size(m) <= b.capacity as real then
      LenAppend(b.buffer, m);
      Ok(BucketPushed(b.(buffer := b.buffer + [m], wake := true), Some(m), m))
    else
      var (dropped, notice) :- Drop(m, "full", None);
      Ok(BucketPushed(b, None, dropped))
  }

  /** `TokenBucket.pop` at `now`: the head leaves and its size is taken from the
      level; the bucket is disabled when it is left empty or the level no longer
      covers the new head. An empty bucket yields `None` and is left alone. */
  function Pop(b: Bucket, now: real): (r: (Bucket, Option<Message>))
    requires Sized(b.buffer)
    ensures |b.buffer| == 0 ==> r == (b, None)
    ensures |b.buffer| > 0 ==> r.1 == Some(b.buffer[0]) && r.0.buffer == b.buffer[1..]
    ensures Sized(r.0.buffer)
    ensures r.0.id == b.id && r.0.capacity == b.capacity && r.0.rate == b.rate
    ensures |b.buffer| > 0 ==> r.0.last == now
    ensures |b.buffer| > 0 ==> (r.0.active <==> b.active && |r.0.buffer| > 0 && Size(r.0.buffer[0]) <= r.0.level)
    ensures |b.buffer| > 0 && Size(b.buffer[0]) >= 0.0 ==>
              var owed := Refresh(b, now).level - Size(b.buffer[0]);
              owed <= r.0.level < owed + 1.0 && r.0.level <= b.capacity as real
  {
    if |b.buffer| == 0 then (b, None)
    else
      var m := b.buffer[0];
      var b1 := Refresh(b, now);
      var b2 := b1.(buffer := b.buffer[1..], level := b1.level - Size(m));
      if |b2.buffer| == 0 then (b2.(active := false), Some(m))
      else
        var b3 := Refresh(b2, now);
        NoTimeNoTokens(b2, now);
        RefreshAccrues(b2, now);
        if b3.level < Size(b3.buffer[0]) then (b3.(active := false), Some(m)) else (b3, Some(m))
  }

  /** A pop whose head the level covered leaves the level non-negative and
      within the capacity. */
  lemma PopKeepsLevel(b: Bucket, now: real)
    requires Sized(b.buffer) && |b.buffer| > 0 && 0.0 <= Size(b.buffer[0]) <= Refresh(b, now).level
    ensures 0.0 <= Pop(b, now).0.level <= b.capacity as real
  {
  }

  /** One pass of the bucket's activation step at `now`, once `wake` has fired:
      `wake` is reset, and when the level does not cover the head the bucket
      waits until the missing tokens have accrued; then it is enabled. The
      result is the bucket and the delay before it is enabled. */
  function Activate(b: Bucket, now: real): (r: Result<(Bucket, real)>)
    requires Sized(b.buffer)
    ensures |b.buffer| == 0 <==> r == Err(IndexOutOfRange)
    ensures |b.buffer| > 0 && Refresh(b, now).level < Size(b.buffer[0]) && b.rate == 0 ==> r == Err(DivisionByZero)
    ensures r.Ok? ==> r.value.0 == Refresh(b, now).(active := true, wake := false)
    ensures r.Ok? ==> (r.value.1 == 0.0 <==> Size(b.buffer[0]) <= Refresh(b, now).level)
    ensures r.Ok? && Refresh(b, now).level < Size(b.buffer[0]) ==>
              b.rate != 0 && r.value.1 == Delay(b.rate, Size(b.buffer[0]) - Refresh(b, now).level)
  {
    if |b.buffer| == 0 then Err(IndexOutOfRange)
    else
      var b1 := Refresh(b, now).(wake := false);
      var size := Size(b.buffer[0]);
      if b1.level < size then
        if b1.rate == 0 then Err(DivisionByZero)
        else
          // the level is read again for the delay, at the same instant
          RefreshSettled(b1);
          var owed := size - Refresh(b1, now).level;
          Ok((b1.(active := true), Delay(b1.rate, owed)))
      else Ok((b1.(active := true), 0.0))
  }

  /** Over `d` time units a bucket accrues `rate * d` tokens. */
  lemma AccruedOver(b: Bucket, d: real)
    ensures Accrued(b, b.last + d) == b.rate as real * d
  {
    assert b.last + d - b.last == d;
  }

  /** Waiting until `rate * d` tokens cover the shortfall brings the level up to
      `size`, when the capacity leaves room for it. */
  lemma RefillCovers(b: Bucket, d: real, size: real)
    requires b.level < size <= b.capacity as real
    requires b.rate as real * d == size - b.level
    ensures Refresh(b, b.last + d).level >= size
  {
    AccruedOver(b, d);
    RefreshAccrues(b, b.last + d);
  }

  /** `(1.0 / rate) * owed`: the time `rate` takes to accrue `owed` tokens. */
  function Delay(rate: int, owed: real): (d: real)
    requires rate != 0
    ensures owed != 0.0 ==> d != 0.0
    ensures rate as real * d == owed
    ensures rate > 0 && owed >= 0.0 ==> d >= 0.0
  {
    (1.0 / rate as real) * owed
  }

  /** The activation step waits exactly long enough: once the delay has passed,
      reading the level finds the head covered, provided the head fits in the
      capacity at all and the rate is positive. */
  lemma ActivationSuffices(b: Bucket, now: real)
    requires Sized(b.buffer) && |b.buffer| > 0 && b.rate > 0
    requires Size(b.buffer[0]) <= b.capacity as real
    ensures Activate(b, now).Ok?
    ensures var (b1, delay) := Activate(b, now).value;
            delay >= 0.0 && Refresh(b1, now + delay).level >= Size(b.buffer[0])
  {
    var (b1, delay) := Activate(b, now).value;
    var size := Size(b.buffer[0]);
    assert b1.last == now && b1.capacity == b.capacity;
    if b1.level < size {
      RefillCovers(b1, delay, size);
    } else {
      assert delay == 0.0 && now + delay == b1.last;
      RefreshSettled(b1);
    }
  }

  /** Sum of 1..n, the `fraction` of `_set_queue_param`. */
  function Triangle(n: nat): (t: nat)
    ensures t >= n
  {
    if n == 0 then 0 else n + Triangle(n - 1)
  }

  /** `1 + … + n` is `n(n + 1)/2`. */
  lemma {:induction false} TriangleClosedForm(n: nat)
    ensures 2 * Triangle(n) == n * (n + 1)
  {
    if n > 0 {
      TriangleClosedForm(n - 1);
      assert n * (n + 1) == (n - 1) * n + 2 * n;
    }
  }

  /** One part of the total: the total over `1 + … + n`. */
  function Unit(total: real, n: nat): real
    requires n > 0
  {
    total / Triangle(n) as real
  }

  /** Class `i`'s exact share of the total, `i + 1` parts, before rounding down. */
  function Share(total: real, i: nat, n: nat): real
    requires i < n
  {
    Unit(total, n) * (i + 1) as real
  }

  /** `R * (i + 1) / fraction` is `i + 1` parts of `R`. */
  lemma ScaleThenDivide(t: real, x: real, f: real)
    requires f != 0.0
    ensures t * x / f == (t / f) * x
  {
  }

  /** The rate of class `i` of `n`: `floor(R * (i + 1) / fraction)`, so its
      exact share rounded down. */
  function ClassRate(total: real, i: nat, n: nat): int
    requires i < n
  {
    FloorQuotient(total, (i + 1) as real, Triangle(n) as real)
  }

  /** `floor(a * x / f)`. */
  function FloorQuotient(a: real, x: real, f: real): int
    requires f != 0.0
  {
    (a * x / f).Floor
  }

  lemma FloorQuotientBounds(a: real, x: real, f: real)
    requires f != 0.0
    ensures FloorQuotient(a, x, f) as real <= a * x / f < FloorQuotient(a, x, f) as real + 1.0
  {
  }

  /** A class rate is the class's exact share rounded down. */
  lemma ClassRateFloorsShare(total: real, i: nat, n: nat)
    requires i < n
    ensures ClassRate(total, i, n) as real <= Share(total, i, n) < ClassRate(total, i, n) as real + 1.0
  {
    var f := Triangle(n) as real;
    var x := (i + 1) as real;
    FloorQuotientBounds(total, x, f);
    ScaleThenDivide(total, x, f);
    assert Unit(total, n) == total / f;
    assert Share(total, i, n) == Unit(total, n) * x;
  }

  /** A higher class never gets a lower rate while the total is non-negative. */
  lemma ClassRateMonotone(total: real, i: nat, j: nat, n: nat)
    requires i <= j < n && total >= 0.0
    ensures ClassRate(total, i, n) <= ClassRate(total, j, n)
  {
    var f := Triangle(n) as real;
    NonNegativeQuotient(total, f);
    assert Unit(total, n) == total / f;
    ScaleUp(Unit(total, n), (i + 1) as real, (j + 1) as real);
    assert Share(total, i, n) <= Share(total, j, n);
    ClassRateFloorsShare(total, i, n);
    ClassRateFloorsShare(total, j, n);
    var a, b := ClassRate(total, i, n), ClassRate(total, j, n);
    assert a as real <= Share(total, i, n) <= Share(total, j, n) < b as real + 1.0;
  }

  lemma ScaleUp(u: real, x: real, y: real)
    requires u >= 0.0 && x <= y
    ensures u * x <= u * y
  {
  }

  lemma NonNegativeQuotient(a: real, b: real)
    requires a >= 0.0 && b > 0.0
    ensures a / b >= 0.0
  {
  }

  /** The WFQ pipe: its resource, the buckets in class order, the total rate, and
      whether its `available` event has been triggered. */
  datatype Wfq = Wfq(owner: ResId, buckets: seq<Bucket>, rate: real, available: bool)

  /** Bucket `i` is registered under the number `i`, and every buffered message
      has a size. */
  predicate Valid(w: Wfq) {
    forall i :: 0 <= i < |w.buckets| ==> w.buckets[i].id == i && Sized(w.buckets[i].buffer)
  }

  /** `_set_queue_param`: class `i` gets rate, capacity and level
      `floor(R * (i + 1) / (1 + … + n))`; the buckets keep everything else. */
  function SetQueueParam(w: Wfq): (r: Wfq)
    ensures r == w.(buckets := r.buckets) && |r.buckets| == |w.buckets|
    ensures forall i :: 0 <= i < |w.buckets| ==>
              var c := ClassRate(w.rate, i, |w.buckets|);
              r.buckets[i] == w.buckets[i].(rate := c, capacity := c, level := c as real)
    ensures forall i :: 0 <= i < |w.buckets| ==>
              r.buckets[i].buffer == w.buckets[i].buffer && r.buckets[i].active == w.buckets[i].active
    ensures Valid(w) ==> Valid(r)
  {
    var n := |w.buckets|;
    w.(buckets := seq(n, i requires 0 <= i < n =>
      var c := ClassRate(w.rate, i, n);
      w.buckets[i].(rate := c, capacity := c, level := c as real)))
  }

  /** The rates of the buckets, summed. */
  function RateSum(bs: seq<Bucket>): int
    decreases |bs|
  {
    if bs == [] then 0 else RateSum(bs[..|bs| - 1]) + bs[|bs| - 1].rate
  }

  /** The first `k` class rates of `n`, summed. */
  function ClassRateSum(total: real, k: nat, n: nat): int
    requires k <= n
  {
    if k == 0 then 0 else ClassRateSum(total, k - 1, n) + ClassRate(total, k - 1, n)
  }

  /** The exact shares of the first `k` classes, summed. */
  function ShareSum(total: real, k: nat, n: nat): real
    requires k <= n
  {
    if k == 0 then 0.0 else ShareSum(total, k - 1, n) + Share(total, k - 1, n)
  }

  /** Rounding each share down never gives out more than the shares. */
  lemma {:induction false} ClassRateSumBound(total: real, k: nat, n: nat)
    requires k <= n
    ensures ClassRateSum(total, k, n) as real <= ShareSum(total, k, n)
  {
    if k > 0 {
      ClassRateSumBound(total, k - 1, n);
      ClassRateFloorsShare(total, k - 1, n);
    }
  }

  /** The first `k` shares make up `1 + … + k` parts of `1 + … + n`. */
  lemma {:induction false} ShareSumIs(total: real, k: nat, n: nat)
    requires k <= n && n > 0
    ensures ShareSum(total, k, n) == Unit(total, n) * Triangle(k) as real
  {
    if k > 0 {
      ShareSumIs(total, k - 1, n);
      Distribute(Unit(total, n), Triangle(k - 1) as real, k as real);
    }
  }

  /** All `1 + … + n` parts make up the total. */
  lemma AllParts(total: real, n: nat)
    requires n > 0
    ensures Unit(total, n) * Triangle(n) as real == total
  {
  }

  lemma Distribute(t: real, x: real, y: real)
    ensures t * x + t * y == t * (x + y)
  {
  }

  /** The bucket rates `_set_queue_param` leaves are the class rates. */
  lemma {:induction false} RateSumIsClassRateSum(w: Wfq, k: nat)
    requires k <= |w.buckets|
    ensures RateSum(SetQueueParam(w).buckets[..k]) == ClassRateSum(w.rate, k, |w.buckets|)
  {
    if k > 0 {
      var bs := SetQueueParam(w).buckets;
      assert bs[..k][..k - 1] == bs[..k - 1];
      RateSumIsClassRateSum(w, k - 1);
    }
  }

  /** The `n` class rates never add up to more than the total. */
  lemma ClassRatesWithinTotal(total: real, n: nat)
    requires n > 0
    ensures ClassRateSum(total, n, n) as real <= total
  {
    ClassRateSumBound(total, n, n);
    ShareSumIs(total, n, n);
    AllParts(total, n);
  }

  /** `_set_queue_param` never hands out more than the total rate. */
  lemma RatesWithinTotal(w: Wfq)
    requires |w.buckets| > 0
    ensures RateSum(SetQueueParam(w).buckets) as real <= w.rate
  {
    var n := |w.buckets|;
    RateSumIsClassRateSum(w, n);
    assert SetQueueParam(w).buckets[..n] == SetQueueParam(w).buckets;
    ClassRatesWithinTotal(w.rate, n);
  }

  /** The `classes` setter: buckets numbered from the current count up to `c`
      are added, and the parameters recomputed. A smaller `c` removes nothing. */
  function SetClasses(w: Wfq, c: int, now: real): (r: Wfq)
    ensures |r.buckets| == if c > |w.buckets| then c else |w.buckets|
    ensures forall i :: 0 <= i < |w.buckets| ==> r.buckets[i].buffer == w.buckets[i].buffer
    ensures forall i :: |w.buckets| <= i < |r.buckets| ==> r.buckets[i].buffer == [] && !r.buckets[i].active
    ensures Valid(w) ==> Valid(r)
  {
    var n := |w.buckets|;
    var added := if c > n then seq(c - n, j requires 0 <= j < c - n => NewBucket(n + j, now)) else [];
    var w1 := w.(buckets := w.buckets + added);
    assert forall i :: 0 <= i < n ==> w1.buckets[i] == w.buckets[i];
    assert forall i :: n <= i < |w1.buckets| ==> w1.buckets[i] == NewBucket(i, now);
    assert Valid(w) ==> Valid(w1);
    var r := SetQueueParam(w1);
    assert forall i :: 0 <= i < |w1.buckets| ==> r.buckets[i].buffer == w1.buckets[i].buffer;
    r
  }

  /** `Wfq(sim, resource, id)` at `now`: rate 10 and one class, so one disabled
      bucket with rate, capacity and level 10. */
  function NewWfq(owner: ResId, now: real): (w: Wfq)
    ensures Valid(w) && w.owner == owner && w.rate == 10.0 && !w.available
    ensures w.buckets == [Bucket(0, [], false, 10, 10.0, 10, now, false)]
  {
    var w0 := SetQueueParam(Wfq(owner, [], 10.0, false));
    assert w0.buckets == [];
    assert Triangle(1) == 1;
    assert ClassRate(10.0, 0, 1) == 10;
    var w1 := w0.(buckets := [NewBucket(0, now)]);
    assert SetClasses(w0, 1, now) == SetQueueParam(w1);
    SetClasses(w0, 1, now)
  }

  /** No bucket holds more than its capacity. */
  predicate WithinCapacity(w: Wfq)
    requires Valid(w)
  {
    forall i :: 0 <= i < |w.buckets| ==> Len(w.buckets[i].buffer) <= w.buckets[i].capacity as real
  }

  /** The summed length of the active buckets, as `full()` counts it. */
  function ActiveLen(bs: seq<Bucket>): real
    requires forall i :: 0 <= i < |bs| ==> Sized(bs[i].buffer)
    decreases |bs|
  {
    if bs == [] then 0.0 else (if bs[0].active then Len(bs[0].buffer) else 0.0) + ActiveLen(bs[1..])
  }

  /** Every active bucket has a `len()`. */
  predicate Measurable(bs: seq<Bucket>)
    requires forall i :: 0 <= i < |bs| ==> Sized(bs[i].buffer)
  {
    forall i :: 0 <= i < |bs| && bs[i].active ==> Length(bs[i].buffer).Ok?
  }

  /** The total `full()` computes: `len(q)` of every active bucket, in order,
      summed; one failing `len()` makes it fail. */
  function ActiveLength(bs: seq<Bucket>): (r: Result<nat>)
    requires forall i :: 0 <= i < |bs| ==> Sized(bs[i].buffer)
    ensures r.Ok? <==> Measurable(bs)
    ensures r.Ok? ==> r.value as real == ActiveLen(bs)
    ensures r.Err? ==> r.error == NotAnInteger || r.error == NegativeLength
    decreases |bs|
  {
    if bs == [] then Ok(0)
    else
      assert forall i :: 1 <= i < |bs| ==> bs[i] == bs[1..][i - 1];
      var n :- if bs[0].active then Length(bs[0].buffer) else Ok(0);
      var rest :- ActiveLength(bs[1..]);
      Ok(n + rest)
  }

  /** With every active length defined, the total covers each active bucket. */
  lemma {:induction false} ActiveLenCovers(bs: seq<Bucket>, i: nat)
    requires forall j :: 0 <= j < |bs| ==> Sized(bs[j].buffer)
    requires Measurable(bs) && i < |bs| && bs[i].active
    ensures ActiveLen(bs) >= Len(bs[i].buffer)
    decreases |bs|
  {
    assert forall j :: 1 <= j < |bs| ==> bs[j] == bs[1..][j - 1];
    if i == 0 {
      ActiveLenNonNegative(bs[1..]);
    } else {
      ActiveLenCovers(bs[1..], i - 1);
      assert bs[0].active ==> Length(bs[0].buffer).Ok?;
    }
  }

  lemma {:induction false} ActiveLenNonNegative(bs: seq<Bucket>)
    requires forall j :: 0 <= j < |bs| ==> Sized(bs[j].buffer)
    requires Measurable(bs)
    ensures ActiveLen(bs) >= 0.0
    decreases |bs|
  {
    if bs != [] {
      assert forall j :: 1 <= j < |bs| ==> bs[j] == bs[1..][j - 1];
      assert bs[0].active ==> Length(bs[0].buffer).Ok?;
      ActiveLenNonNegative(bs[1..]);
    }
  }

  /** `full()`: the active buckets' lengths are summed, which fails when one of
      them has none; then `available` is triggered when it is not and the sum
      is positive. */
  function Full(w: Wfq): (r: Result<Wfq>)
    requires Valid(w)
    ensures r.Ok? <==> Measurable(w.buckets)
    ensures r.Ok? ==> r.value == w.(available := r.value.available)
    ensures r.Ok? ==> (r.value.available <==> w.available || ActiveLen(w.buckets) > 0.0)
  {
    var tot :- ActiveLength(w.buckets);
    if !w.available && tot > 0 then Ok(w.(available := true)) else Ok(w)
  }

  /** The activation step of bucket `i` seen from the pipe: the bucket is
      enabled, and `enable()` consults the pipe's `full()`. */
  function ActivateIn(w: Wfq, i: nat, now: real): (r: Result<(Wfq, real)>)
    requires Valid(w) && i < |w.buckets|
    ensures Activate(w.buckets[i], now).Err? ==> r == Err(Activate(w.buckets[i], now).error)
    ensures Activate(w.buckets[i], now).Ok? ==>
              var (b, delay) := Activate(w.buckets[i], now).value;
              && (r.Ok? <==> Measurable(w.buckets[i := b]))
              && (r.Ok? ==> r.value.1 == delay && r.value.0.buckets == w.buckets[i := b])
    ensures r.Ok? ==> Valid(r.value.0) && r.value.0.buckets[i].active
    ensures r.Ok? && w.available ==> r.value.0.available
  {
    var (b, delay) :- Activate(w.buckets[i], now);
    var w1 :- Full(w.(buckets := w.buckets[i := b]));
    Ok((w1, delay))
  }

  /** Activating a bucket that holds something leaves the pipe available, so
      the resource's wait for work ends. */
  lemma ActivationWakesPipe(w: Wfq, i: nat, now: real)
    requires Valid(w) && i < |w.buckets| && ActivateIn(w, i, now).Ok?
    requires Len(w.buckets[i].buffer) > 0.0
    ensures ActivateIn(w, i, now).value.0.available
  {
    var b := Activate(w.buckets[i], now).value.0;
    var bs := w.buckets[i := b];
    assert bs[i] == b && b.buffer == w.buckets[i].buffer;
    ActiveLenCovers(bs, i);
  }

  /** Sets the priority to 0 and the size to 1 when the message lacks them. */
  function Defaults(m: Message): (r: Message)
    ensures PriorityProp in r.props && SizeProp in r.props
    ensures r == m.(props := r.props) && m.props.Keys <= r.props.Keys
    ensures forall k :: k in m.props ==> r.props[k] == m.props[k]
    ensures PriorityProp !in m.props ==> r.props[PriorityProp] == Property(0.0, false)
    ensures SizeProp !in m.props ==> r.props[SizeProp] == Property(1.0, false)
  {
    var m1 := if PriorityProp in m.props then m else m.(props := m.props[PriorityProp := Property(0.0, false)]);
    if SizeProp in m1.props then m1 else m1.(props := m1.props[SizeProp := Property(1.0, false)])
  }

  /** The bucket a priority value names: Python finds the key `i` under an equal
      float, so a whole number naming a class selects it and anything else is
      missing. */
  function ClassOf(w: Wfq, v: real): (r: Option<nat>)
    ensures r.Some? <==> v == v.Floor as real && 0 <= v.Floor < |w.buckets|
    ensures r.Some? ==> r.value as real == v && r.value < |w.buckets|
  {
    if v == v.Floor as real && 0 <= v.Floor < |w.buckets| then Some(v.Floor) else None
  }

  /** The body of `Wfq.enqueue`, with the queue-level push wrapper: defaults
      filled in, the message is located at the bucket of its priority and
      pushed; `full()` is consulted when it was admitted to an active bucket. */
  function Admit(w: Wfq, m: Message): (r: Result<(Wfq, BucketPushed)>)
    requires Valid(w)
    ensures var m1 := Defaults(m);
            ClassOf(w, m1.props[PriorityProp].value).None? ==> r == Err(KeyMissing)
    ensures r.Ok? ==>
              var m1 := Defaults(m);
              var i := ClassOf(w, m1.props[PriorityProp].value).value;
              var m2 := m1.(location := AtQueue(w.owner, QIndex(i)));
              && Push(w.buckets[i], m2) == Ok(r.value.1)
              && r.value.0.buckets == w.buckets[i := r.value.1.bucket]
              && r.value.0.owner == w.owner && r.value.0.rate == w.rate
              && (r.value.1.result.Some? <==> Len(w.buckets[i].buffer) + Size(m1) <= w.buckets[i].capacity as real)
    ensures r.Ok? ==> Valid(r.value.0)
    ensures r.Ok? && WithinCapacity(w) ==> WithinCapacity(r.value.0)
  {
    var m1 := Defaults(m);
    match ClassOf(w, m1.props[PriorityProp].value)
    case None => Err(KeyMissing)
    case Some(i) =>
      var m2 := m1.(location := AtQueue(w.owner, QIndex(i)));
      var pushed :- Push(w.buckets[i], m2);
      var w1 := w.(buckets := w.buckets[i := pushed.bucket]);
      if pushed.result.Some? && pushed.bucket.active then
        var w2 :- Full(w1);
        Ok((w2, pushed))
      else Ok((w1, pushed))
  }

  /** The enqueue wrapper's first step: the message is in this pipe and served
      by its resource. */
  function EnterWfq(w: Wfq, m: Message): (r: Result<Message>)
    ensures r.Ok? ==> r.value.location == AtPipe(w.owner) && r.value.resource == w.owner
    ensures r.Ok? ==> r.value.visited == m.visited + [w.owner]
    ensures r.Ok? ==> r.value.id == m.id && r.value.props == m.props
  {
    SetResource(m.(location := AtPipe(w.owner)), w.owner)
  }

  /** `Wfq.enqueue` under the enqueue wrapper: enter the pipe, `Admit`, then
      consult `full()`, after which an active bucket holding something leaves
      the pipe available. */
  function Enqueue(w: Wfq, m: Message): (r: Result<(Wfq, BucketPushed)>)
    requires Valid(w)
    ensures EnterWfq(w, m).Err? ==> r == Err(EnterWfq(w, m).error)
    ensures EnterWfq(w, m).Ok? ==>
              var a := Admit(w, EnterWfq(w, m).value);
              && (a.Err? ==> r == Err(a.error))
              && (a.Ok? ==> (r.Ok? <==> Measurable(a.value.0.buckets)))
              && (r.Ok? ==> a.Ok? && r.value.1 == a.value.1 && r.value.0.buckets == a.value.0.buckets)
    ensures r.Ok? ==> Valid(r.value.0) && r.value.0.owner == w.owner && r.value.0.rate == w.rate
    ensures r.Ok? && WithinCapacity(w) ==> WithinCapacity(r.value.0)
    ensures r.Ok? && ActiveLen(r.value.0.buckets) > 0.0 ==> r.value.0.available
  {
    var m1 :- EnterWfq(w, m);
    var (w1, pushed) :- Admit(w, m1);
    var w2 :- Full(w1);
    Ok((w2, pushed))
  }

  /** A bucket `dequeue` may serve: active, with a head the level covers. */
  predicate Eligible(b: Bucket) {
    b.active && |b.buffer| > 0 && SizeProp in b.buffer[0].props && Size(b.buffer[0]) <= b.level
  }

  function HeadSize(b: Bucket): real
    requires Eligible(b)
  {
    Size(b.buffer[0])
  }

  /** The eligible bucket with the smallest head, the first of them on ties. */
  function Pick(bs: seq<Bucket>): (r: Option<nat>)
    ensures r.None? <==> forall i :: 0 <= i < |bs| ==> !Eligible(bs[i])
    ensures r.Some? ==> r.value < |bs| && Eligible(bs[r.value])
    ensures r.Some? ==> forall i :: 0 <= i < |bs| && Eligible(bs[i]) ==> HeadSize(bs[r.value]) <= HeadSize(bs[i])
    ensures r.Some? ==> forall i :: 0 <= i < r.value && Eligible(bs[i]) ==> HeadSize(bs[r.value]) < HeadSize(bs[i])
    decreases |bs|
  {
    if bs == [] then None
    else
      var rest := Pick(bs[1..]);
      assert forall i :: 1 <= i < |bs| ==> bs[i] == bs[1..][i - 1];
      if Eligible(bs[0]) && (rest.None? || HeadSize(bs[0]) <= HeadSize(bs[rest.value + 1])) then Some(0)
      else if rest.Some? then Some(rest.value + 1)
      else None
  }

  /** Two choices that both satisfy `Pick`'s contract are the same choice. */
  lemma PickUnique(bs: seq<Bucket>, a: nat, b: nat)
    requires a < |bs| && Eligible(bs[a]) && b < |bs| && Eligible(bs[b])
    requires forall i :: 0 <= i < |bs| && Eligible(bs[i]) ==> HeadSize(bs[a]) <= HeadSize(bs[i])
    requires forall i :: 0 <= i < a && Eligible(bs[i]) ==> HeadSize(bs[a]) < HeadSize(bs[i])
    requires forall i :: 0 <= i < |bs| && Eligible(bs[i]) ==> HeadSize(bs[b]) <= HeadSize(bs[i])
    requires forall i :: 0 <= i < b && Eligible(bs[i]) ==> HeadSize(bs[b]) < HeadSize(bs[i])
    ensures a == b
  {
  }

  /** The selection loop of `dequeue` over the refreshed buckets: a bucket
      replaces the current choice when it is eligible and its head is strictly
      smaller than the best so far. */
  method Select(bs: seq<Bucket>) returns (choice: Option<nat>)
    ensures choice == Pick(bs)
  {
    choice := None;
    var i := 0;
    while i < |bs|
      invariant 0 <= i <= |bs|
      invariant choice.None? <==> forall j :: 0 <= j < i ==> !Eligible(bs[j])
      invariant choice.Some? ==> choice.value < i && Eligible(bs[choice.value])
      invariant choice.Some? ==> forall j :: 0 <= j < i && Eligible(bs[j]) ==> HeadSize(bs[choice.value]) <= HeadSize(bs[j])
      invariant choice.Some? ==> forall j :: 0 <= j < choice.value && Eligible(bs[j]) ==> HeadSize(bs[choice.value]) < HeadSize(bs[j])
      decreases |bs| - i
    {
      if Eligible(bs[i]) && (choice.None? || HeadSize(bs[i]) < HeadSize(bs[choice.value])) {
        choice := Some(i);
      }
      i := i + 1;
    }
    var p := Pick(bs);
    if choice.Some? {
      PickUnique(bs, choice.value, p.value);
    }
  }

  /** The first step of `dequeue`: every active bucket's head size is read and
      its level refreshed; an active bucket with an empty buffer raises. */
  function RefreshActive(bs: seq<Bucket>, now: real): (r: Result<seq<Bucket>>)
    ensures r.Err? <==> exists i :: 0 <= i < |bs| && bs[i].active && bs[i].buffer == []
    ensures r.Err? ==> r.error == IndexOutOfRange
    ensures r.Ok? ==> |r.value| == |bs|
    ensures r.Ok? ==> forall i :: 0 <= i < |bs| ==> r.value[i] == if bs[i].active then Refresh(bs[i], now) else bs[i]
  {
    if exists i :: 0 <= i < |bs| && bs[i].active && bs[i].buffer == [] then Err(IndexOutOfRange)
    else Ok(seq(|bs|, i requires 0 <= i < |bs| => if bs[i].active then Refresh(bs[i], now) else bs[i]))
  }

  /** `Wfq.dequeue` at `now`: refresh the active buckets, pick the eligible one
      with the smallest head and pop it. With no eligible bucket Python calls
      `pop` on `None`. */
  function Dequeue(w: Wfq, now: real): (r: Result<(Wfq, Option<Message>)>)
    requires Valid(w)
    ensures r.Ok? ==> RefreshActive(w.buckets, now).Ok? && Pick(RefreshActive(w.buckets, now).value).Some?
    ensures RefreshActive(w.buckets, now).Ok? && Pick(RefreshActive(w.buckets, now).value).None? ==> r == Err(NoneQueue)
    ensures r.Ok? ==>
              var bs := RefreshActive(w.buckets, now).value;
              var i := Pick(bs).value;
              && r.value.1 == Some(bs[i].buffer[0])
              && r.value.0 == w.(buckets := bs[i := Pop(bs[i], now).0])
    ensures r.Ok? ==> Valid(r.value.0)
  {
    var bs :- RefreshActive(w.buckets, now);
    match Pick(bs)
    case None => Err(NoneQueue)
    case Some(i) =>
      var (b, m) := Pop(bs[i], now);
      Ok((w.(buckets := bs[i := b]), m))
  }

  /** What `dequeue` promises: the message served is the smallest head among the
      buckets whose level covers it, no other bucket loses a message, and the
      served bucket's level stays between 0 and its capacity. */
  lemma DequeueServesSmallest(w: Wfq, now: real)
    requires Valid(w) && Dequeue(w, now).Ok?
    requires forall i :: 0 <= i < |w.buckets| ==> NonNegative(w.buckets[i].buffer)
    ensures var bs := RefreshActive(w.buckets, now).value;
            var i := Pick(bs).value;
            var (w1, m) := Dequeue(w, now).value;
            && m.Some? && SizeProp in m.value.props
            && (forall j :: 0 <= j < |bs| && Eligible(bs[j]) ==> Size(m.value) <= HeadSize(bs[j]))
            && (forall j :: 0 <= j < |w.buckets| && j != i ==> w1.buckets[j].buffer == w.buckets[j].buffer)
            && w1.buckets[i].buffer == w.buckets[i].buffer[1..]
            && 0.0 <= w1.buckets[i].level <= w1.buckets[i].capacity as real
  {
    var bs := RefreshActive(w.buckets, now).value;
    var i := Pick(bs).value;
    assert bs[i] == Refresh(w.buckets[i], now);
    RefreshIdempotent(w.buckets[i], now);
    assert NonNegative(bs[i].buffer);
    PopKeepsLevel(bs[i], now);
  }
}
