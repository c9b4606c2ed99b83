/** Round-trip estimation.  Times are milliseconds, floats are modelled as reals. */
module Jacobson {
  import opened Common

  const INITIAL_RTO: int := 250

  datatype Estimate = Estimate(srtt: real, rttvar: real)

  datatype Time = Time(sec: int, usec: int)

  function Millis(t: Time): int
  {
    t.sec * 1000 + TruncDiv(t.usec, 1000)
  }

  function RttSample(ackTime: Time, packetTime: Time): real
  {
    (Millis(ackTime) - Millis(packetTime)) as real
  }

  /** C's conversion of a float to an integer. */
  function Trunc(x: real): int
  {
    if x >= 0.0 then x.Floor else -((-x).Floor)
  }

  /** Toward zero, by less than one. */
  lemma TruncIs(x: real)
    ensures x >= 0.0 ==> x - 1.0 < Trunc(x) as real <= x
    ensures x < 0.0 ==> x <= Trunc(x) as real < x + 1.0
    ensures -1.0 < x < 1.0 ==> Trunc(x) == 0
  {
  }

  /** C's abs, which takes an integer: the fraction of its argument is lost. */
  function IntAbs(x: real): int
  {
    if Trunc(x) < 0 then -Trunc(x) else Trunc(x)
  }

  function Initial(r: real): Estimate
  {
    Estimate(r, r / 2.0)
  }

  /** computeRTO's effect; a sample of -1 is a sentinel and changes nothing. */
  function Update(e: Estimate, r: real): Estimate
  {
    if r == -1.0 then e
    else
      var err := r - e.srtt;
      Estimate(e.srtt + 0.125 * err, e.rttvar + 0.25 * (IntAbs(err) as real - e.rttvar))
  }

  function UnroundedRto(e: Estimate): real
  {
    e.srtt + 4.0 * e.rttvar
  }

  /** The file's static variables and the functions on them. */
  class Estimator {
    var srtt: real
    var rttvar: real
    var rtt: real

    constructor ()
      ensures rtt == 250.0 && srtt == 0.0 && rttvar == 0.0
    {
      rtt, srtt, rttvar := 250.0, 0.0, 0.0;
    }

    function Value(): Estimate
      reads this
    {
      Estimate(srtt, rttvar)
    }

    /** calc_rtt. */
    method CalcRtt(ackTime: Time, packetTime: Time) returns (r: real)
      modifies `rtt
      ensures r == rtt == RttSample(ackTime, packetTime)
    {
      var ackTimeInMill := (ackTime.sec * 1000 + TruncDiv(ackTime.usec, 1000)) as real;
      var packetTimeInMill := (packetTime.sec * 1000 + TruncDiv(packetTime.usec, 1000)) as real;
      rtt := ackTimeInMill - packetTimeInMill;
      r := rtt;
    }

    method InitializeSrttRttvar(r: real)
      modifies `srtt, `rttvar
      ensures Value() == Initial(r)
    {
      srtt := r;
      rttvar := r / 2.0;
    }

    method ComputeRto() returns (rto: int)
      modifies `srtt, `rttvar
      ensures Value() == Update(old(Value()), rtt)
      ensures rto == if rtt == -1.0 then INITIAL_RTO else Trunc(UnroundedRto(Value()))
      ensures var x := UnroundedRto(Value());
              rtt != -1.0 && x >= 0.0 ==> x - 1.0 < rto as real <= x
    {
      if rtt == -1.0 {
        return INITIAL_RTO;
      }
      var err := rtt - srtt;
      srtt := srtt + 0.125 * err;
      rttvar := rttvar + 0.25 * (IntAbs(err) as real - rttvar);
      rto := Trunc(srtt + 4.0 * rttvar);
    }
  }

  // ---------------------------------------------------------------- what a sample is

  function Micros(t: Time): int
  {
    t.sec * 1000000 + t.usec
  }

  predicate Normal(t: Time)
  {
    0 <= t.usec < 1000000
  }

  lemma MillisAre(t: Time)
    requires Normal(t)
    ensures Millis(t) == Micros(t) / 1000
  {
  }

  /** A sample is the true difference to less than a millisecond either way, and never
      negative, hence never the sentinel, unless the acknowledgement's time is earlier. */
  lemma SampleAccuracy(ackTime: Time, packetTime: Time)
    requires Normal(ackTime) && Normal(packetTime)
    ensures var r, exact := RttSample(ackTime, packetTime), Micros(ackTime) - Micros(packetTime);
            exact as real - 1000.0 < 1000.0 * r < exact as real + 1000.0
    ensures Micros(packetTime) <= Micros(ackTime) ==> RttSample(ackTime, packetTime) >= 0.0
  {
    MillisAre(ackTime);
    MillisAre(packetTime);
    hide Millis, Micros, Normal;
    var a, p := Micros(ackTime), Micros(packetTime);
    assert a - 1000 < 1000 * (a / 1000) <= a && p - 1000 < 1000 * (p / 1000) <= p;
    var d := a / 1000 - p / 1000;
    assert RttSample(ackTime, packetTime) == d as real;
    assert 1000.0 * (d as real) == (1000 * d) as real;
  }

  function Run(e: Estimate, samples: seq<real>, n: nat): Estimate
    requires n <= |samples|
  {
    if n == 0 then e else Update(Run(e, samples, n - 1), samples[n - 1])
  }

  // ------------------------------------------- section 2 of RFC 6298, rule 2.3

  function Abs(x: real): real
  {
    if x < 0.0 then -x else x
  }

  function RfcUpdate(e: Estimate, r: real): Estimate
  {
    Estimate(0.875 * e.srtt + 0.125 * r, 0.75 * e.rttvar + 0.25 * Abs(e.srtt - r))
  }

  function RfcRun(e: Estimate, samples: seq<real>, n: nat): Estimate
    requires n <= |samples|
  {
    if n == 0 then e else RfcUpdate(RfcRun(e, samples, n - 1), samples[n - 1])
  }

  lemma IntAbsLoses(x: real)
    ensures 0.0 <= Abs(x) - IntAbs(x) as real < 1.0
    ensures IntAbs(x) >= 0
  {
  }

  function Pow(x: real, n: nat): real
  {
    if n == 0 then 1.0 else x * Pow(x, n - 1)
  }

  /** The samples among the first n that are not the sentinel. */
  function Genuine(samples: seq<real>, n: nat): (g: seq<real>)
    requires n <= |samples|
    ensures |g| <= n
  {
    if n == 0 then []
    else if samples[n - 1] == -1.0 then Genuine(samples, n - 1)
    else Genuine(samples, n - 1) + [samples[n - 1]]
  }

  /** What the standard's recurrence makes of them. */
  function Standard(f: Estimate, samples: seq<real>, n: nat): Estimate
    requires n <= |samples|
  {
    RfcRun(f, Genuine(samples, n), |Genuine(samples, n)|)
  }

  lemma {:induction false} RfcRunPrefix(f: Estimate, samples: seq<real>, r: real, n: nat)
    requires n <= |samples|
    ensures RfcRun(f, samples + [r], n) == RfcRun(f, samples, n)
  {
    if n == 0 {
    } else {
      RfcRunPrefix(f, samples, r, n - 1);
    }
  }

  lemma StandardStep(f: Estimate, samples: seq<real>, n: nat)
    requires 0 < n <= |samples|
    ensures var before := Standard(f, samples, n - 1); var r := samples[n - 1];
            Standard(f, samples, n) == if r == -1.0 then before else RfcUpdate(before, r)
  {
    hide RfcUpdate;
    var g := Genuine(samples, n - 1);
    RfcRunPrefix(f, g, samples[n - 1], |g|);
  }

  /** RTTVAR is below the standard's by the given amount and less than one more. */
  predicate LowBy(code: Estimate, rfc: Estimate, amount: real)
  {
    code.srtt == rfc.srtt && 0.0 <= rfc.rttvar - code.rttvar - amount < 1.0
  }

  /** What is left of a gap after n samples. */
  function Faded(gap: real, n: nat): real
  {
    Pow(0.75, n) * gap
  }

  lemma FadedStep(gap: real, n: nat)
    ensures Faded(gap, 0) == gap && Faded(gap, n + 1) == 0.75 * Faded(gap, n)
  {
    var p := Pow(0.75, n);
    assert (0.75 * p) * gap == 0.75 * (p * gap);
  }

  /** Whatever the estimates start from and whatever the samples, SRTT is the standard's on
      the samples other than the sentinel, and RTTVAR is below the standard's by what is
      left of the initial gap, shrunk by 3/4 at each of them, and by a term that stays
      under one however many arrive. */
  lemma {:induction false} GapFades(e: Estimate, f: Estimate, gap: real, samples: seq<real>, n: nat)
    requires n <= |samples| && e.srtt == f.srtt && gap == f.rttvar - e.rttvar
    ensures LowBy(Run(e, samples, n), Standard(f, samples, n), Faded(gap, |Genuine(samples, n)|))
  {
    hide Faded, RfcUpdate;
    if n == 0 {
      FadedStep(gap, 0);
    } else {
      GapFades(e, f, gap, samples, n - 1);
      StandardStep(f, samples, n);
      hide LowBy, Standard;
      if samples[n - 1] != -1.0 {
        FadedStep(gap, |Genuine(samples, n - 1)|);
        GapStep(Run(e, samples, n - 1), Standard(f, samples, n - 1), samples[n - 1],
                Faded(gap, |Genuine(samples, n - 1)|));
      }
    }
  }

  lemma GapStep(code: Estimate, rfc: Estimate, r: real, rest: real)
    requires r != -1.0 && LowBy(code, rfc, rest)
    ensures LowBy(Update(code, r), RfcUpdate(rfc, r), 0.75 * rest)
  {
    var err := r - code.srtt;
    IntAbsLoses(err);
    assert Abs(rfc.srtt - r) == Abs(err);
    hide IntAbs, Abs;
  }

  /** From equal estimates the gap in RTTVAR stays under one and that in the timeout before
      rounding under four milliseconds. */
  lemma TruncationGap(e: Estimate, samples: seq<real>, n: nat)
    requires n <= |samples|
    ensures var code, rfc := Run(e, samples, n), Standard(e, samples, n);
            && code.srtt == rfc.srtt
            && 0.0 <= rfc.rttvar - code.rttvar < 1.0
            && 0.0 <= UnroundedRto(rfc) - UnroundedRto(code) < 4.0
  {
    hide Run, Standard, Pow, Genuine;
    GapFades(e, e, 0.0, samples, n);
    assert Faded(0.0, |Genuine(samples, n)|) == 0.0;
  }

  /** What updating with the sample that initialised the estimates takes off RTTVAR. */
  function Twice(r0: real): real
  {
    if r0 == -1.0 then 0.0 else r0 / 8.0
  }

  lemma FirstEstimate(r0: real)
    ensures var code, rfc := Update(Initial(r0), r0), Initial(r0);
            code.srtt == rfc.srtt && rfc.rttvar - code.rttvar == Twice(r0)
  {
  }

  /** The daemon initialises from the first sample r0 and then also updates with it, which
      rule 2.2 does not: n genuine samples later RTTVAR is low by an eighth of r0 times
      (3/4)^n and by less than one, and the timeout by four times that. */
  lemma FirstSampleCountsTwice(r0: real, samples: seq<real>, n: nat)
    requires n <= |samples|
    ensures var code, rfc := Run(Update(Initial(r0), r0), samples, n), Standard(Initial(r0), samples, n);
            var low := Faded(Twice(r0), |Genuine(samples, n)|);
            && code.srtt == rfc.srtt
            && 0.0 <= rfc.rttvar - code.rttvar - low < 1.0
            && 0.0 <= UnroundedRto(rfc) - UnroundedRto(code) - 4.0 * low < 4.0
  {
    hide Run, Standard, Genuine, Faded, Update, Twice;
    FirstEstimate(r0);
    GapFades(Update(Initial(r0), r0), Initial(r0), Twice(r0), samples, n);
  }

  // ------------------------------------------------------------------- stability

  function Largest(a: real, b: real): real
  {
    if a > b then a else b
  }

  /** Samples within [lo, hi] keep the estimates and the unrounded timeout in bounds. */
  lemma {:induction false} EstimatesBounded(r0: real, samples: seq<real>, n: nat, lo: real, hi: real)
    requires n <= |samples| && 0.0 <= lo <= r0 <= hi
    requires forall r | r in samples :: lo <= r <= hi
    ensures var e := Run(Initial(r0), samples, n);
            var dev := Largest(r0 / 2.0, hi - lo);
            && lo <= e.srtt <= hi && 0.0 <= e.rttvar <= dev
            && lo <= UnroundedRto(e) <= hi + 4.0 * dev
  {
    if n == 0 {
    } else {
      EstimatesBounded(r0, samples, n - 1, lo, hi);
      assert samples[n - 1] in samples;
      IntAbsLoses(samples[n - 1] - Run(Initial(r0), samples, n - 1).srtt);
    }
  }

  /** From an initial error d and deviation v, with p and q powers of 7/8 and 3/4. */
  predicate Decayed(e: Estimate, r: real, p: real, q: real, d: real, v: real)
  {
    && e.srtt - r == p * d
    && e.rttvar <= q * v + 2.0 * (p - q) * Abs(d)
  }

  /** Under a constant sample, not the sentinel, the SRTT error shrinks by exactly 7/8 at every update, and
      RTTVAR is bounded by the solution of its untruncated recurrence. */
  lemma {:induction false} ConstantSample(e: Estimate, r: real, n: nat)
    requires r != -1.0
    ensures Decayed(Run(e, seq(n, _ => r), n), r, Pow(0.875, n), Pow(0.75, n), e.srtt - r, e.rttvar)
  {
    hide Decayed, Update;
    var p, q, d := Pow(0.875, n), Pow(0.75, n), e.srtt - r;
    if n == 0 {
      NotYetDecayed(e, r);
    } else {
      ConstantSample(e, r, n - 1);
      RunPrefix(e, r, n - 1, n);
      PowNonNegative(0.875, n - 1);
      ConstantStep(Run(e, seq(n - 1, _ => r), n - 1), r, Pow(0.875, n - 1), Pow(0.75, n - 1), d, e.rttvar);
    }
  }

  lemma NotYetDecayed(e: Estimate, r: real)
    ensures Decayed(e, r, 1.0, 1.0, e.srtt - r, e.rttvar)
  {
  }

  lemma ConstantStep(before: Estimate, r: real, p: real, q: real, d: real, v: real)
    requires r != -1.0 && p >= 0.0 && Decayed(before, r, p, q, d, v)
    ensures Decayed(Update(before, r), r, 0.875 * p, 0.75 * q, d, v)
  {
    IntAbsLoses(r - before.srtt);
    ScaledAbs(p, d);
    var t := IntAbs(r - before.srtt) as real;
    var a, pd := Abs(d), p * d;
    assert Abs(r - before.srtt) == Abs(pd);
    hide IntAbs, Abs;
    assert (0.875 * p) * d == 0.875 * pd;
    assert t <= p * a;
    BoundStep(p, q, v, a, before.rttvar, t);
  }

  lemma BoundStep(p: real, q: real, v: real, a: real, before: real, t: real)
    requires before <= q * v + 2.0 * (p - q) * a && t <= p * a
    ensures before + 0.25 * (t - before) <= (0.75 * q) * v + 2.0 * (0.875 * p - 0.75 * q) * a
  {
    var pa, qa, qv := p * a, q * a, q * v;
    assert 2.0 * (p - q) * a == 2.0 * pa - 2.0 * qa;
    assert 2.0 * (0.875 * p - 0.75 * q) * a == 1.75 * pa - 1.5 * qa;
    assert (0.75 * q) * v == 0.75 * qv;
  }

  lemma ScaledAbs(p: real, d: real)
    requires p >= 0.0
    ensures Abs(p * d) == p * Abs(d)
  {
  }

  lemma {:induction false} PowNonNegative(x: real, n: nat)
    requires x >= 0.0
    ensures Pow(x, n) >= 0.0
  {
    if n == 0 {
    } else {
      PowNonNegative(x, n - 1);
    }
  }

  lemma {:induction false} RunPrefix(e: Estimate, r: real, n: nat, m: nat)
    requires n <= m
    ensures Run(e, seq(m, _ => r), n) == Run(e, seq(n, _ => r), n)
  {
    if n == 0 {
    } else {
      RunPrefix(e, r, n - 1, n);
      RunPrefix(e, r, n - 1, m);
    }
  }
}
