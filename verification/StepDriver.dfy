/**
 How the stepper settings become pulse lengths in samples, and timer ticks become a pulse period.
 */
module StepDriver {
  import opened StepTimeline

  const MAX_DELAY_SAMPLES: nat := 2
  const MAX_STEP_SAMPLES: nat := 4
  const PULSE_TOFF_MIN: real := 2.0
  const MAX_CYCLES: nat := 0x4_0000
  const HZ_PER_MHZ: nat := 1_000_000

  /** The step timer clock in MHz, from its frequency in Hz. */
  function Mhz(hz: nat): (r: real)
    ensures r >= 0.0 && r * 1000000.0 == hz as real
  {
    hz as real / 1000000.0
  }

  function Ceil(x: real): (n: int)
    ensures (n - 1) as real < x <= n as real
  {
    -((-x).Floor)
  }

  /** The least number of timer cycles between two steps: the pulse and its off time, rounded up. */
  function LeastCycles(pulseUs: real, timerMHz: real): (n: int)
    ensures 0.0 <= pulseUs && 0.0 <= timerMHz ==> n >= 0
    ensures (n - 1) as real < timerMHz * (pulseUs + 2.0) <= n as real
  {
    assert 0.0 <= pulseUs && 0.0 <= timerMHz ==> timerMHz * (pulseUs + PULSE_TOFF_MIN) >= 0.0;
    Ceil(timerMHz * (pulseUs + PULSE_TOFF_MIN))
  }

  function Max(a: nat, b: nat): nat { if a > b then a else b }

  function Min(a: nat, b: nat): nat { if a < b then a else b }

  /** n is the least number of samples, from 1 to most, that lasts us microseconds, or most if none does. */
  predicate CoversLeast(n: nat, us: real, most: nat) {
    && 1 <= n <= most
    && (us <= (USEC_PER_SAMPLE * n) as real || n == most)
    && (n == 1 || us > (USEC_PER_SAMPLE * (n - 1)) as real)
  }

  class PulseSettings {
    var minPeriod: nat
    var maxPeriod: nat
    var delayLength: nat
    var stepLength: nat
    var delaySamples: nat
    var stepSamples: nat

    constructor ()
      ensures delaySamples == stepSamples == 1
    {
      minPeriod, maxPeriod := 0, 0;
      delayLength, stepLength, delaySamples, stepSamples := USEC_PER_SAMPLE, USEC_PER_SAMPLE, 1, 1;
    }

    /** The pulse lengths for one choice of settings; hz is the frequency of the step timer. */
    method SettingsChanged(pulseUs: real, delayUs: real, hz: nat)
      requires 0.0 <= pulseUs < 4294967280.0 && 0.0 <= delayUs < 4294967280.0
      modifies this
      ensures CoversLeast(delaySamples, delayUs, MAX_DELAY_SAMPLES)
      ensures CoversLeast(stepSamples, pulseUs, MAX_STEP_SAMPLES)
      ensures delayLength == USEC_PER_SAMPLE * delaySamples && stepLength == USEC_PER_SAMPLE * stepSamples
      ensures maxPeriod == hz / HZ_PER_MHZ && minPeriod == LeastCycles(pulseUs, Mhz(hz))
    {
      hide Mhz, LeastCycles;
      FloorOfMhz(hz);
      minPeriod := LeastCycles(pulseUs, Mhz(hz));
      maxPeriod := Mhz(hz).Floor;
      delayLength := Ceil(delayUs);
      stepLength := Ceil(pulseUs);
      if delayLength % USEC_PER_SAMPLE != 0 {
        delayLength := delayLength + (USEC_PER_SAMPLE - delayLength % USEC_PER_SAMPLE);
      }
      delayLength := Min(Max(delayLength, USEC_PER_SAMPLE), USEC_PER_SAMPLE * 2);
      if stepLength % USEC_PER_SAMPLE != 0 {
        stepLength := stepLength + (USEC_PER_SAMPLE - stepLength % USEC_PER_SAMPLE);
      }
      stepLength := Min(Max(stepLength, USEC_PER_SAMPLE), USEC_PER_SAMPLE * 4);
      delaySamples := delayLength / USEC_PER_SAMPLE;
      stepSamples := stepLength / USEC_PER_SAMPLE;
    }
  }

  /** The pulse period, in microseconds, for a number of step timer cycles per tick. */
  datatype Period = DividesByZero | Period(us: nat)

  function CyclesPerTick(cycles: nat, minPeriod: nat, maxPeriod: nat): Period {
    if maxPeriod == 0 then DividesByZero
    else Period((if cycles < MAX_CYCLES then Max(cycles, minPeriod) else MAX_CYCLES - 1) / maxPeriod)
  }

  lemma FloorOfMhz(hz: nat)
    ensures Mhz(hz).Floor == hz / HZ_PER_MHZ
  {
    var q, m := hz / HZ_PER_MHZ, hz % HZ_PER_MHZ;
    assert hz == q * HZ_PER_MHZ + m;
    assert Mhz(hz) == q as real + m as real / 1000000.0;
  }

  lemma MulMono(a: real, b: real, c: real)
    requires a <= b && 0.0 <= c
    ensures a * c <= b * c
  {
  }

  lemma MulCancel(m: real, a: real, b: real)
    requires 0.0 < m && m * a < m * b
    ensures a < b
  {
  }

  lemma Quotient(a: nat, m: nat)
    requires m > 0
    ensures (a / m) as real * m as real <= a as real < (a / m) as real * m as real + m as real
  {
    assert a == (a / m) * m + a % m;
  }

  /** A quotient of at least F * (p + 2) by at most F is more than p + 1. */
  lemma PeriodAbove(a: nat, m: nat, p: real, f: real)
    requires 0 < m && m as real <= f && 0.0 <= p && f * (p + PULSE_TOFF_MIN) <= a as real
    ensures p + 1.0 < (a / m) as real
  {
    var q := (a / m) as real;
    var r := m as real;
    MulMono(r, f, p + PULSE_TOFF_MIN);
    Quotient(a, m);
    assert q * r == r * q;
    assert r * (p + PULSE_TOFF_MIN) == r * (p + 1.0) + r;
    MulCancel(r, p + 1.0, q);
  }

  /** For any timer clock of 1 MHz or more, the clamp keeps the pulse period positive exactly when the tick count or
      the clock is below 2^18; a tick count below the clamp also gets more than the pulse and half of its off time. */
  lemma PeriodPositive(cycles: nat, pulseUs: real, timerMHz: real)
    requires 0.0 <= pulseUs && 1.0 <= timerMHz
    ensures var period := CyclesPerTick(cycles, LeastCycles(pulseUs, timerMHz), timerMHz.Floor);
            && period.Period?
            && (period.us >= 1 <==> cycles < MAX_CYCLES || timerMHz.Floor < MAX_CYCLES)
            && (cycles < MAX_CYCLES ==> pulseUs + 1.0 < period.us as real)
            && (timerMHz * (pulseUs + PULSE_TOFF_MIN) <= MAX_PERIOD as real ==> period.us <= MAX_PERIOD)
  {
    var minPeriod := LeastCycles(pulseUs, timerMHz);
    var m := timerMHz.Floor;
    MulMono(1.0, timerMHz, pulseUs + PULSE_TOFF_MIN);
    var a := Max(cycles, minPeriod);
    PeriodAbove(a, m, pulseUs, timerMHz);
    Shrinks(a, m);
    Shrinks(MAX_CYCLES - 1, m);
  }

  /**
   For every frequency a 32-bit number of Hz can give, and every tick count: the period is defined exactly when the
   timer runs at 1 MHz or more, and then it is positive - the contract under which the fill loop terminates.
   */
  lemma PeriodClamped(cycles: nat, pulseUs: real, hz: nat)
    requires 0.0 <= pulseUs && hz < 0x1_0000_0000
    ensures var period := CyclesPerTick(cycles, LeastCycles(pulseUs, Mhz(hz)), hz / HZ_PER_MHZ);
            && (period.Period? <==> hz >= HZ_PER_MHZ)
            && (period.Period? ==> period.us >= 1)
            && (period.Period? && cycles < MAX_CYCLES ==> pulseUs + 1.0 < period.us as real)
            && (period.Period? && Mhz(hz) * (pulseUs + PULSE_TOFF_MIN) <= MAX_PERIOD as real ==>
                  period.us <= MAX_PERIOD)
  {
    hide Mhz, LeastCycles;
    FloorOfMhz(hz);
    if hz >= HZ_PER_MHZ {
      AtLeastOne(hz);
      PeriodPositive(cycles, pulseUs, Mhz(hz));
    }
  }

  lemma AtLeastOne(hz: nat)
    requires hz >= HZ_PER_MHZ
    ensures Mhz(hz) >= 1.0
  {
  }

  /** The period of a tick, to less than one microsecond: that of its own cycles, of the least number if they are
      fewer, and of 2^18 - 1 if they are 2^18 or more. */
  lemma PeriodOfTick(cycles: nat, minPeriod: nat, maxPeriod: nat)
    requires maxPeriod > 0
    ensures var us := CyclesPerTick(cycles, minPeriod, maxPeriod).us;
      var counted := if cycles >= 0x4_0000 then 0x3_FFFF else if cycles < minPeriod then minPeriod else cycles;
      us * maxPeriod <= counted < us * maxPeriod + maxPeriod
  {
    var counted := if cycles >= 0x4_0000 then 0x3_FFFF else if cycles < minPeriod then minPeriod else cycles;
    assert counted == (counted / maxPeriod) * maxPeriod + counted % maxPeriod;
  }

  /** Slower ticks never get a shorter period, exactly if the least number of cycles is not itself cut off. */
  lemma PeriodMonotone(minPeriod: nat, maxPeriod: nat)
    requires maxPeriod > 0
    ensures minPeriod / maxPeriod <= 0x3_FFFF / maxPeriod <==>
      forall a: nat, b: nat :: a <= b ==>
        CyclesPerTick(a, minPeriod, maxPeriod).us <= CyclesPerTick(b, minPeriod, maxPeriod).us
  {
    if minPeriod / maxPeriod <= 0x3_FFFF / maxPeriod {
      forall a: nat, b: nat | a <= b
        ensures CyclesPerTick(a, minPeriod, maxPeriod).us <= CyclesPerTick(b, minPeriod, maxPeriod).us
      {
        if b < 0x4_0000 {
          QuotientsOrdered(Max(a, minPeriod), Max(b, minPeriod), maxPeriod);
        } else if a < 0x4_0000 {
          QuotientsOrdered(a, 0x3_FFFF, maxPeriod);
        }
      }
    } else {
      assert CyclesPerTick(0, minPeriod, maxPeriod).us > CyclesPerTick(0x4_0000, minPeriod, maxPeriod).us;
    }
  }

  lemma QuotientsOrdered(a: nat, b: nat, m: nat)
    requires a <= b && m > 0
    ensures a / m <= b / m
  {
    assert a == (a / m) * m + a % m && b == (b / m) * m + b % m;
    if b / m < a / m {
      MulAtLeast(a / m - b / m, m);
    }
  }

  lemma MulAtLeast(d: nat, m: nat)
    requires d >= 1
    ensures d * m >= m
  {
    assert d * m == m + (d - 1) * m;
  }

  lemma Shrinks(a: nat, m: nat)
    requires m > 0
    ensures a / m <= a && (a / m >= 1 <==> a >= m)
  {
    Digits(a / m, m, a % m);
    assert a == (a / m) * m + a % m;
  }

  lemma Digits(q: nat, m: nat, r: nat)
    requires r < m
    ensures q <= q * m + r && (q >= 1 <==> q * m + r >= m)
  {
    MulGrows(q, m);
    if q >= 1 {
      MulGrows(m, q);
    }
  }

  lemma MulGrows(a: nat, b: nat)
    requires b >= 1
    ensures a <= a * b
  {
    assert a * b == a + a * (b - 1);
  }
}
