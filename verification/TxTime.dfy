/**
 Start times of transmit bursts (align_time of src/tx.cpp). Doubles are reals; the unsigned
 64-bit arithmetic wraps.
 */
module TxTime {
  import opened Words

  /** uhd::time_spec_t: whole seconds and a fraction in [0, 1). */
  datatype TimeSpec = TimeSpec(full: nat, frac: real)

  datatype Result<+T> = Ok(value: T) | NonIntegerRate

  predicate Normal(ts: TimeSpec) {
    0.0 <= ts.frac < 1.0
  }

  /** A sample count rounded up to whole periods. */
  function Aligned(samples: nat, period: nat): (r: nat)
    requires period > 0
    ensures r % period == 0
  {
    var q := Wrap64(samples + period - 1) / period;
    NonNegative(q, period);
    DivModUnique(q * period, period, q, 0);
    q * period
  }

  lemma {:induction false} NonNegative(a: nat, b: nat)
    ensures a * b >= 0
  {
  }

  /** The time a sample count stands for. */
  function FromSamples(samples: nat, whole: nat, rate: real): TimeSpec
    requires whole > 0 && rate > 0.0
  {
    QuotientNonNegative(samples, whole);
    TimeSpec(samples / whole, (samples % whole) as real / rate)
  }

  lemma {:induction false} QuotientNonNegative(a: nat, b: nat)
    requires b > 0
    ensures a / b >= 0
  {
  }

  /** Time and delay as a sample count, each part truncated on its own. */
  function Samples(ts: TimeSpec, delay: real, rate: real, whole: nat): int {
    ts.full * whole + (ts.frac * whole as real).Floor + (rate * delay).Floor
  }

  function AlignTime(ts: TimeSpec, delay: real, rate: real, period: nat): (r: Result<TimeSpec>)
    requires Normal(ts) && delay >= 0.0 && rate > 0.0 && period > 0
    ensures r.Ok? <==> rate == rate.Floor as real
  {
    var whole := rate.Floor;
    if rate - whole as real == 0.0 then
      Ok(FromSamples(Aligned(Wrap64(Samples(ts, delay, rate, whole)), period), whole, rate))
    else
      NonIntegerRate
  }

  function Whole(n: nat): real {
    n as real
  }

  /** The throw is reached exactly for rates that are no integer. */
  lemma {:induction false} ThrowsExactly(ts: TimeSpec, delay: real, rate: real, period: nat)
    requires Normal(ts) && delay >= 0.0 && rate > 0.0 && period > 0
    ensures AlignTime(ts, delay, rate, period).NonIntegerRate? <==> forall n: nat :: Whole(n) != rate
  {
    assert rate.Floor >= 0;
    if rate == rate.Floor as real {
      assert Whole(rate.Floor) == rate;
    }
  }

  /** Samples between the epoch and a time, a begun one not counted. */
  function Tick(ts: TimeSpec, rate: nat): nat
    requires Normal(ts)
  {
    NonNegative(ts.full, rate);
    FloorNonNegative(ts.frac, rate);
    ts.full * rate + (ts.frac * rate as real).Floor
  }

  lemma {:induction false} FloorNonNegative(x: real, n: nat)
    requires x >= 0.0
    ensures (x * n as real).Floor >= 0 && (n as real * x).Floor >= 0
  {
    assert x * n as real >= 0.0;
    assert n as real * x >= 0.0;
  }

  /** What align_time aligns: the current tick plus the delay in whole samples. */
  function Earliest(ts: TimeSpec, delay: real, rate: nat): (n: nat)
    requires Normal(ts) && delay >= 0.0
    ensures n == Samples(ts, delay, rate as real, rate)
  {
    FloorNonNegative(delay, rate);
    Tick(ts, rate) + (rate as real * delay).Floor
  }

  /** Less than 2^63 samples since the epoch, the longest time the other counters hold. */
  predicate InRange(ts: TimeSpec, delay: real, rate: nat, period: nat)
    requires Normal(ts) && delay >= 0.0
  {
    Earliest(ts, delay, rate) + period < TWO63
  }

  /** Rounding up: the least multiple of p that is not below x. */
  lemma {:induction false} RoundUp(x: nat, p: nat)
    requires p > 0 && x + p - 1 < TWO64
    ensures x <= Aligned(x, p) < x + p
    ensures forall m: nat :: m % p == 0 && m >= x ==> m >= Aligned(x, p)
  {
    WrapFits(x + p - 1);
    var q := (x + p - 1) / p;
    assert x + p - 1 == q * p + (x + p - 1) % p;
    forall m: nat | m % p == 0 && m >= x
      ensures m >= q * p
    {
      Multiple(m, p);
      if m / p <= q - 1 {
        Monotone(m / p, q - 1, p);
      } else {
        Monotone(q, m / p, p);
      }
    }
  }

  lemma {:induction false} Multiple(m: nat, p: nat)
    requires p > 0 && m % p == 0
    ensures m == m / p * p
  {
  }

  lemma {:induction false} Monotone(a: int, b: int, p: nat)
    requires a <= b
    ensures a * p <= b * p
  {
  }

  lemma {:induction false} Fraction(k: nat, rate: nat)
    requires k < rate
    ensures 0.0 <= k as real / rate as real < 1.0
    ensures k as real / rate as real * rate as real == k as real
  {
  }

  /** Division into seconds and a fraction loses no sample. */
  lemma {:induction false} SplitTick(n: nat, rate: nat)
    requires rate > 0
    ensures var ts := FromSamples(n, rate, rate as real);
            Normal(ts) && Tick(ts, rate) == n && ts.frac * rate as real == (n % rate) as real
  {
    Fraction(n % rate, rate);
    assert ((n % rate) as real).Floor == n % rate;
    assert n == n / rate * rate + n % rate;
  }

  lemma {:induction false} AlignsEarliest(ts: TimeSpec, delay: real, rate: nat, period: nat)
    requires Normal(ts) && delay >= 0.0 && rate > 0 && period > 0
    requires InRange(ts, delay, rate, period)
    ensures AlignTime(ts, delay, rate as real, period)
         == Ok(FromSamples(Aligned(Earliest(ts, delay, rate), period), rate, rate as real))
  {
    SamplesFit(ts, delay, rate);
    assert (rate as real).Floor == rate;
  }

  lemma {:induction false} SamplesFit(ts: TimeSpec, delay: real, rate: nat)
    requires Normal(ts) && delay >= 0.0 && Earliest(ts, delay, rate) < TWO63
    ensures Wrap64(Samples(ts, delay, rate as real, rate)) == Earliest(ts, delay, rate)
  {
    WrapFits(Earliest(ts, delay, rate));
  }

  /** A time that stands for the sample to start with when x is the earliest possible one. */
  ghost predicate StartsAt(start: TimeSpec, x: nat, rate: nat, period: nat)
    requires rate > 0 && period > 0
  {
    && Normal(start)
    && start.frac * rate as real == (Tick(start, rate) % rate) as real
    && Tick(start, rate) % period == 0
    && x <= Tick(start, rate) < x + period
    && forall m: nat :: m % period == 0 && m >= x ==> m >= Tick(start, rate)
  }

  lemma {:induction false} StartExact(x: nat, rate: nat, period: nat)
    requires rate > 0 && period > 0 && x + period < TWO63
    ensures StartsAt(FromSamples(Aligned(x, period), rate, rate as real), x, rate, period)
  {
    RoundUp(x, period);
    SplitTick(Aligned(x, period), rate);
  }

  /**
     The start time stands for a whole sample; its tick is the least multiple of the period not
     before the current tick plus the delay.
   */
  lemma {:induction false} AlignExact(ts: TimeSpec, delay: real, rate: nat, period: nat)
    requires Normal(ts) && delay >= 0.0 && rate > 0 && period > 0
    requires InRange(ts, delay, rate, period)
    ensures AlignTime(ts, delay, rate as real, period).Ok?
    ensures StartsAt(AlignTime(ts, delay, rate as real, period).value, Earliest(ts, delay, rate), rate, period)
  {
    AlignsEarliest(ts, delay, rate, period);
    StartExact(Earliest(ts, delay, rate), rate, period);
  }

  /** Now and the delay as samples, without rounding. */
  function Moment(ts: TimeSpec, delay: real, rate: nat): real {
    (ts.full as real + ts.frac + delay) * rate as real
  }

  lemma {:induction false} Distribute(full: nat, frac: real, delay: real, rate: nat)
    ensures (full as real + frac + delay) * rate as real
         == (full * rate) as real + frac * rate as real + rate as real * delay
  {
    assert (full * rate) as real == full as real * rate as real;
  }

  /** Rounding the two fractions down costs less than two samples of the delay, and none on the sample grid. */
  lemma {:induction false} DelayKept(ts: TimeSpec, delay: real, rate: nat)
    requires Normal(ts) && delay >= 0.0
    ensures Moment(ts, delay, rate) - 2.0 < Earliest(ts, delay, rate) as real <= Moment(ts, delay, rate)
    ensures ((ts.frac * rate as real).Floor as real == ts.frac * rate as real
             && (rate as real * delay).Floor as real == rate as real * delay)
            ==> Earliest(ts, delay, rate) as real == Moment(ts, delay, rate)
  {
    Distribute(ts.full, ts.frac, delay, rate);
    var a, b := (ts.frac * rate as real).Floor, (rate as real * delay).Floor;
    assert Earliest(ts, delay, rate) == ts.full * rate + a + b;
    assert Earliest(ts, delay, rate) as real == (ts.full * rate) as real + a as real + b as real;
  }

  /** Aligning an aligned time again, without delay, changes nothing. */
  lemma {:induction false} AlignTwice(ts: TimeSpec, delay: real, rate: nat, period: nat)
    requires Normal(ts) && delay >= 0.0 && rate > 0 && period > 0
    requires InRange(ts, delay, rate, 2 * period)
    ensures var start := AlignTime(ts, delay, rate as real, period);
            start.Ok? && Normal(start.value) && AlignTime(start.value, 0.0, rate as real, period) == start
  {
    AlignExact(ts, delay, rate, period);
    AlignsEarliest(ts, delay, rate, period);
    var start := AlignTime(ts, delay, rate as real, period).value;
    var n := Aligned(Earliest(ts, delay, rate), period);
    SplitTick(n, rate);
    assert rate as real * 0.0 == 0.0;
    assert Earliest(start, 0.0, rate) == n;
    AlignsEarliest(start, 0.0, rate, period);
    RoundUp(n, period);
  }
}
