/**
 The token-bucket throttle on outbound writes. Time is a real number the environment supplies and
 never runs backwards; a sleep lasts at least as long as asked. Rounding is not modelled.
 */
module Throttle {
  import opened Bytes

  datatype Bucket = Bucket(allowance: real, last: real)

  function Least(x: real, y: real): real {
    if x <= y then x else y
  }

  function Times(rate: real, dt: real): real {
    rate * dt
  }

  /** `replenish`: tokens for the elapsed time, capped at one second's worth. */
  function Refill(rate: real, b: Bucket, now: real): Bucket {
    Bucket(Least(b.allowance + Times(rate, now - b.last), rate), now)
  }

  /** How long an empty bucket makes a write wait. */
  function Wait(rate: real, b: Bucket): real
    requires rate > 0.0
  {
    (-b.allowance + 1.0) / rate
  }

  /** One call of `write`: clock readings before and after a possible sleep, and what the stream took. */
  datatype Call = Call(now: real, woken: real, written: Option<nat>)

  function Taken(c: Call): nat {
    match c.written case Some(n) => n case None => 0
  }

  /** The bucket when the inner write starts. */
  function AtWrite(rate: real, b: Bucket, c: Call): Bucket {
    var r := Refill(rate, b, c.now);
    if r.allowance <= 0.0 then Refill(rate, r, c.woken) else r
  }

  function Spend(b: Bucket, n: nat): Bucket {
    Bucket(b.allowance - n as real, b.last)
  }

  /** The clock is monotone and a sleep is no shorter than asked. */
  ghost predicate Honest(rate: real, b: Bucket, c: Call)
    requires rate > 0.0
  {
    && b.last <= c.now
    && (var r := Refill(rate, b, c.now); r.allowance <= 0.0 ==> c.now + Wait(rate, r) <= c.woken)
  }

  class Throttle {
    const rate: real
    var bucket: Bucket

    ghost predicate Valid()
      reads this
    {
      rate >= 1.0 && bucket.allowance <= rate
    }

    /** `new`: a full bucket, worth one second. */
    constructor (bytesPerSec: nat, now: real)
      requires bytesPerSec >= 1
      ensures Valid() && rate == bytesPerSec as real && bucket == Bucket(rate, now)
    {
      rate := bytesPerSec as real;
      bucket := Bucket(bytesPerSec as real, now);
    }

    method Replenish(now: real)
      modifies this`bucket
      ensures bucket == Refill(rate, old(bucket), now)
    {
      var dt := now - bucket.last;
      bucket := Bucket(Least(bucket.allowance + Times(rate, dt), rate), now);
    }

    /** `write`: wait for tokens if there are none, pass on what the stream accepts, and pay for it. */
    method Write(c: Call) returns (n: Option<nat>)
      requires Valid() && Honest(rate, bucket, c)
      modifies this`bucket
      ensures Valid() && n == c.written
      ensures AtWrite(rate, old(bucket), c).allowance > 0.0
      ensures bucket == Spend(AtWrite(rate, old(bucket), c), Taken(c))
      ensures old(bucket.allowance) + rate * (c.now - old(bucket.last)) > 0.0 ==> bucket.last == c.now
    {
      WaitsForOneToken(rate, bucket, c);
      AllowanceIsPositive(rate, bucket, c);
      Replenish(c.now);
      if bucket.allowance <= 0.0 {
        Replenish(c.woken);
      }
      if c.written.Some? {
        bucket := Bucket(bucket.allowance - c.written.value as real, bucket.last);
      }
      n := c.written;
    }
  }

  /** Every inner write starts with tokens in the bucket. */
  lemma {:induction false} AllowanceIsPositive(rate: real, b: Bucket, c: Call)
    requires rate >= 1.0 && Honest(rate, b, c)
    ensures 0.0 < AtWrite(rate, b, c).allowance <= rate
    ensures AtWrite(rate, b, c).last >= b.last
  {
    var r := Refill(rate, b, c.now);
    if r.allowance <= 0.0 {
      var w := Wait(rate, r);
      assert Times(rate, w) == -r.allowance + 1.0;
      Monotone(rate, w, c.woken - r.last);
    }
  }

  /** The bucket is full exactly when the time since the last write is worth what it lacks. */
  lemma {:induction false} IdleRefills(rate: real, b: Bucket, now: real)
    requires rate >= 1.0
    ensures Refill(rate, b, now).allowance == rate <==> b.allowance + rate * (now - b.last) >= rate
    ensures b.allowance >= 0.0 && now - b.last >= 1.0 ==> Refill(rate, b, now).allowance == rate
  {
    if now - b.last >= 1.0 {
      Monotone(rate, 1.0, now - b.last);
    }
  }

  /** A write that finds tokens goes ahead at once; one that finds none sleeps until it has one. */
  lemma {:induction false} WaitsForOneToken(rate: real, b: Bucket, c: Call)
    requires rate >= 1.0 && Honest(rate, b, c)
    ensures b.allowance + rate * (c.now - b.last) > 0.0 ==> AtWrite(rate, b, c).last == c.now
    ensures b.allowance + rate * (c.now - b.last) <= 0.0 && c.woken == c.now + Wait(rate, Refill(rate, b, c.now)) ==>
              AtWrite(rate, b, c) == Bucket(1.0, c.woken)
  {
    var r := Refill(rate, b, c.now);
    if r.allowance <= 0.0 {
      assert Times(rate, Wait(rate, r)) == -r.allowance + 1.0;
    }
  }

  lemma {:induction false} Monotone(rate: real, x: real, y: real)
    requires rate > 0.0 && x <= y
    ensures Times(rate, x) <= Times(rate, y)
  {
  }

  lemma {:induction false} TimesAdds(rate: real, x: real, y: real)
    ensures Times(rate, x) + Times(rate, y) == Times(rate, x + y)
  {
  }

  /** A call adds at most the tokens of the time that passed. */
  lemma {:induction false} CallGains(rate: real, b: Bucket, c: Call)
    ensures AtWrite(rate, b, c).allowance <= b.allowance + Times(rate, AtWrite(rate, b, c).last - b.last)
  {
    var r := Refill(rate, b, c.now);
    TimesAdds(rate, r.last - b.last, c.woken - r.last);
  }

  // ---------- runs of writes ----------

  /** The bucket before call `k`. */
  function Before(rate: real, start: Bucket, calls: seq<Call>, k: nat): Bucket
    requires k <= |calls|
  {
    if k == 0 then start
    else
      var b := Before(rate, start, calls, k - 1);
      Spend(AtWrite(rate, b, calls[k - 1]), Taken(calls[k - 1]))
  }

  /** The moment of the last replenish before the inner write of call `k`. */
  function Moment(rate: real, start: Bucket, calls: seq<Call>, k: nat): real
    requires k < |calls|
  {
    AtWrite(rate, Before(rate, start, calls, k), calls[k]).last
  }

  ghost predicate HonestRun(rate: real, start: Bucket, calls: seq<Call>)
    requires rate > 0.0
  {
    forall k :: 0 <= k < |calls| ==> Honest(rate, Before(rate, start, calls, k), calls[k])
  }

  /** Bytes the stream took in calls `i` up to but not including `j`. */
  function Sent(calls: seq<Call>, i: nat, j: nat): nat
    requires i <= j <= |calls|
  {
    if i == j then 0 else Sent(calls, i, j - 1) + Taken(calls[j - 1])
  }

  /** Tokens in the bucket as the inner write of call `k` starts. */
  function Level(rate: real, start: Bucket, calls: seq<Call>, k: nat): real
    requires k < |calls|
  {
    AtWrite(rate, Before(rate, start, calls, k), calls[k]).allowance
  }

  lemma {:induction false} OneFall(rate: real, start: Bucket, calls: seq<Call>, k: nat)
    requires 0 < k < |calls|
    ensures Level(rate, start, calls, k) <= Level(rate, start, calls, k - 1) - Taken(calls[k - 1]) as real
            + Times(rate, Moment(rate, start, calls, k) - Moment(rate, start, calls, k - 1))
  {
    CallGains(rate, Before(rate, start, calls, k), calls[k]);
  }

  /** Two falls in a row make one. */
  lemma {:induction false} FallsAdd(rate: real, l0: real, l1: real, l2: real, m0: real, m1: real, m2: real, n: real,
                                    k: real)
    requires l1 <= l0 + Times(rate, m1 - m0) - n && l2 <= l1 - k + Times(rate, m2 - m1)
    ensures l2 <= l0 + Times(rate, m2 - m0) - (n + k)
  {
    TimesAdds(rate, m1 - m0, m2 - m1);
  }

  lemma {:induction false} BucketFalls(rate: real, start: Bucket, calls: seq<Call>, i: nat, j: nat)
    requires i <= j < |calls|
    ensures Level(rate, start, calls, j) <= Level(rate, start, calls, i)
            + Times(rate, Moment(rate, start, calls, j) - Moment(rate, start, calls, i)) - Sent(calls, i, j) as real
    decreases j - i
  {
    if i < j {
      BucketFalls(rate, start, calls, i, j - 1);
      OneFall(rate, start, calls, j);
      FallsAdd(rate, Level(rate, start, calls, i), Level(rate, start, calls, j - 1), Level(rate, start, calls, j),
               Moment(rate, start, calls, i), Moment(rate, start, calls, j - 1), Moment(rate, start, calls, j),
               Sent(calls, i, j - 1) as real, Taken(calls[j - 1]) as real);
    } else {
      assert Times(rate, 0.0) == 0.0;
    }
  }

  lemma {:induction false} LevelInBounds(rate: real, start: Bucket, calls: seq<Call>, k: nat)
    requires rate >= 1.0 && HonestRun(rate, start, calls) && k < |calls|
    ensures 0.0 < Level(rate, start, calls, k) <= rate
  {
    AllowanceIsPositive(rate, Before(rate, start, calls, k), calls[k]);
  }

  lemma {:induction false} OneSecondMore(rate: real, dt: real)
    ensures Times(rate, 1.0 + dt) == rate + Times(rate, dt)
  {
  }

  /**
   The bound: between any two writes the stream takes strictly less than the rate times the elapsed
   time plus one second.
   */
  lemma {:induction false} RateIsBounded(rate: real, start: Bucket, calls: seq<Call>, i: nat, j: nat)
    requires rate >= 1.0 && HonestRun(rate, start, calls) && i < j < |calls|
    ensures Sent(calls, i, j) as real <
            Times(rate, 1.0 + (Moment(rate, start, calls, j) - Moment(rate, start, calls, i)))
  {
    BucketFalls(rate, start, calls, i, j);
    LevelInBounds(rate, start, calls, i);
    LevelInBounds(rate, start, calls, j);
    OneSecondMore(rate, Moment(rate, start, calls, j) - Moment(rate, start, calls, i));
  }

  /** A whole run of writes through the throttle itself. */
  method WriteAll(t: Throttle, calls: seq<Call>)
    requires t.Valid() && HonestRun(t.rate, t.bucket, calls)
    modifies t`bucket
    ensures t.Valid() && t.bucket == Before(t.rate, old(t.bucket), calls, |calls|)
  {
    for k := 0 to |calls|
      invariant t.Valid() && t.bucket == Before(t.rate, old(t.bucket), calls, k)
    {
      var _ := t.Write(calls[k]);
    }
  }
}
