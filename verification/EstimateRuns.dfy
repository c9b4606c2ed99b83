/** What the sender daemon's timeout is, in every run, and how far from the standard's. */
module EstimateRuns {
  import opened Common
  import opened Jacobson
  import opened SenderDaemons
  import opened SenderSteps
  import opened Timers
  import opened Protocol
  import opened SenderRuns
  import opened SenderTheorems

  /** The acknowledgements the daemon received in the first n steps. */
  ghost function Heard(actions: seq<Action>, run: seq<System>, n: nat): seq<AckIn>
    requires n <= |actions| < |run|
  {
    if n == 0 then [] else Heard(actions, run, n - 1) + HeardIn(run[n - 1], actions[n - 1])
  }

  function HeardIn(s: System, a: Action): (acks: seq<AckIn>)
    ensures |acks| <= 1
  {
    if a.DaemonTurns? && Enabled(s, a) && a.ack.Some? then [a.ack.value] else []
  }

  function EstimateAfter(est: Estimate, acks: seq<AckIn>, n: nat): Estimate
    requires n <= |acks|
  {
    if n == 0 then est else Estimated(EstimateAfter(est, acks, n - 1), acks[n - 1])
  }

  function Samples(acks: seq<AckIn>): seq<real>
  {
    seq(|acks|, j requires 0 <= j < |acks| => Sample(acks[j]))
  }

  lemma StepEstimate(s: System, a: Action)
    requires Handover(s)
    ensures var t := Step(s, a); var acks := HeardIn(s, a);
            if acks == [] then t.d.est == s.d.est && t.d.rto == s.d.rto
            else t.d.est == Estimated(s.d.est, acks[0]) &&
                 t.d.rto == Max2(ComputedRto(t.d.est, Sample(acks[0])), MIN_RTO)
  {
    if a.DaemonTurns? && Enabled(s, a) {
      var (client, expiry) := Offered(s, a);
      IterationIs(s.d, s.d.packetCount, s.size, client, a.ack, expiry);
      hide Iteration, Ready, ComputedRto, Estimated, Sample;
    } else {
      hide Handover, Turn, Sent, DaemonTurn, Offered, Enabled;
    }
  }

  lemma {:induction false} EstimatePrefix(est: Estimate, acks: seq<AckIn>, more: seq<AckIn>, n: nat)
    requires n <= |acks|
    ensures EstimateAfter(est, acks + more, n) == EstimateAfter(est, acks, n)
  {
    if n == 0 {
    } else {
      EstimatePrefix(est, acks, more, n - 1);
    }
  }

  lemma NothingYet(est: Estimate)
    ensures EstimateAfter(est, [], 0) == est
  {
  }

  lemma EstimateMore(est: Estimate, acks: seq<AckIn>, more: seq<AckIn>)
    requires |more| <= 1
    ensures EstimateAfter(est, acks + more, |acks| + |more|) ==
            var before := EstimateAfter(est, acks, |acks|); if more == [] then before else Estimated(before, more[0])
  {
    hide Estimated;
    EstimatePrefix(est, acks, more, |acks|);
  }

  /** In every run the estimates are those of the acknowledgements received, in order, and
      the timeout is computed from the latest of them. */
  lemma {:induction false} EstimateInRuns(b: Boot, actions: seq<Action>, run: seq<System>, n: nat)
    requires IsRun(b, actions, run) && n <= |actions|
    ensures var acks := Heard(actions, run, n); var d := run[n].d;
            && d.est == EstimateAfter(b.est, acks, |acks|)
            && (acks != [] ==> d.rto == Max2(ComputedRto(d.est, Sample(acks[|acks| - 1])), MIN_RTO))
  {
    hide Step, Handover, Guarded, FirstsRight, Acknowledged, AlwaysNewest, ComputedRto, Estimated, Sample;
    hide HeardIn, Max2, EstimateAfter;
    if n == 0 {
      NothingYet(b.est);
    } else {
      EstimateInRuns(b, actions, run, n - 1);
      Invariants(b, actions, run, n - 1);
      StepEstimate(run[n - 1], actions[n - 1]);
      assert run[n] == Step(run[n - 1], actions[n - 1]);
      EstimateMore(b.est, Heard(actions, run, n - 1), HeardIn(run[n - 1], actions[n - 1]));
    }
  }

  /** Each acknowledgement of packet 0 starts the estimates afresh. */
  lemma {:induction false} SinceFirst(est: Estimate, acks: seq<AckIn>, i: nat, n: nat)
    requires i < n <= |acks| && acks[i].seqNo < 1
    requires forall j | i < j < n :: acks[j].seqNo >= 1
    ensures var r0 := Sample(acks[i]);
            EstimateAfter(est, acks, n) == Run(Update(Initial(r0), r0), Samples(acks[i + 1..]), n - i - 1)
  {
    hide Update, Sample;
    if n == i + 1 {
    } else {
      SinceFirst(est, acks, i, n - 1);
      assert acks[i + 1..][n - i - 2] == acks[n - 1];
    }
  }

  lemma FollowsStandard(est: Estimate, acks: seq<AckIn>, i: nat)
    requires i < |acks| && acks[i].seqNo < 1 && (forall j | i < j < |acks| :: acks[j].seqNo >= 1)
    ensures var e := EstimateAfter(est, acks, |acks|);
            var r0, later := Sample(acks[i]), Samples(acks[i + 1..]);
            var rfc := Standard(Initial(r0), later, |later|);
            && e.srtt == rfc.srtt
            && 0.0 <= rfc.rttvar - e.rttvar - Faded(Twice(r0), |Genuine(later, |later|)|) < 1.0
  {
    hide Sample, Faded, Twice, Genuine, Run, Standard, Update, Initial, EstimateAfter, UnroundedRto;
    SinceFirst(est, acks, i, |acks|);
    FirstSampleCountsTwice(Sample(acks[i]), Samples(acks[i + 1..]), |acks| - i - 1);
  }

  /** In every run: let r0 be the sample of the latest acknowledgement of packet 0 and n the
      number of samples since, not counting the sentinel.  SRTT is that of section 2 of
      RFC 6298 started from r0, and RTTVAR is below the standard's by (3/4)^n of an eighth
      of r0 and by less than one. */
  lemma TimeoutFollowsStandard(b: Boot, actions: seq<Action>, run: seq<System>, n: nat, i: nat)
    requires IsRun(b, actions, run) && n <= |actions| && i < |Heard(actions, run, n)|
    requires var acks := Heard(actions, run, n);
             acks[i].seqNo < 1 && (forall j | i < j < |acks| :: acks[j].seqNo >= 1)
    ensures var acks := Heard(actions, run, n); var d := run[n].d;
            var r0, later := Sample(acks[i]), Samples(acks[i + 1..]);
            var rfc := Standard(Initial(r0), later, |later|);
            && d.est.srtt == rfc.srtt
            && 0.0 <= rfc.rttvar - d.est.rttvar - Faded(Twice(r0), |Genuine(later, |later|)|) < 1.0
  {
    hide Heard, Step, Sample, Faded, Twice, Genuine, Standard, Initial, EstimateAfter, Samples;
    EstimateInRuns(b, actions, run, n);
    FollowsStandard(b.est, Heard(actions, run, n), i);
  }

  /** In every run in which an acknowledgement has been received, the timeout is the
      unrounded one of the current estimates rounded down, if that is at least 5, and 5
      otherwise; after a sentinel sample it is 250. */
  lemma TimeoutInRuns(b: Boot, actions: seq<Action>, run: seq<System>, n: nat)
    requires IsRun(b, actions, run) && n <= |actions| && Heard(actions, run, n) != []
    ensures var acks := Heard(actions, run, n); var d := run[n].d; var x := UnroundedRto(d.est);
            if Sample(acks[|acks| - 1]) == -1.0 then d.rto == 250
            else if x >= 5.0 then x - 1.0 < d.rto as real <= x
            else d.rto == 5
  {
    hide Heard, Step, Sample, EstimateAfter, UnroundedRto, Trunc;
    EstimateInRuns(b, actions, run, n);
    TruncIs(UnroundedRto(run[n].d.est));
  }

  lemma {:induction false} RunCons(e: Estimate, r: real, samples: seq<real>, n: nat)
    requires n <= |samples|
    ensures Run(e, [r] + samples, n + 1) == Run(Update(e, r), samples, n)
  {
    hide Update;
    if n == 0 {
      assert Run(e, [r] + samples, 0) == e;
    } else {
      RunCons(e, r, samples, n - 1);
    }
  }

  lemma BoundedSince(est: Estimate, acks: seq<AckIn>, i: nat, lo: real, hi: real)
    requires i < |acks| && acks[i].seqNo < 1 && (forall j | i < j < |acks| :: acks[j].seqNo >= 1)
    requires 0.0 <= lo && forall j | i <= j < |acks| :: lo <= Sample(acks[j]) <= hi
    ensures var e := EstimateAfter(est, acks, |acks|); var dev := Largest(Sample(acks[i]) / 2.0, hi - lo);
            && lo <= e.srtt <= hi && 0.0 <= e.rttvar <= dev
            && lo <= UnroundedRto(e) <= hi + 4.0 * dev
  {
    hide Sample, Run, Update, Initial, EstimateAfter, UnroundedRto, Largest;
    var r0, later := Sample(acks[i]), Samples(acks[i + 1..]);
    SinceFirst(est, acks, i, |acks|);
    RunCons(Initial(r0), r0, later, |later|);
    EstimatesBounded(r0, [r0] + later, |later| + 1, lo, hi);
  }

  /** In every run: samples within [lo, hi] since the latest acknowledgement of packet 0 keep
      both estimates in bounds, and the timeout between 5 and the upper bound it has before
      rounding. */
  lemma TimeoutBounded(b: Boot, actions: seq<Action>, run: seq<System>, n: nat, i: nat, lo: real, hi: real)
    requires IsRun(b, actions, run) && n <= |actions| && i < |Heard(actions, run, n)|
    requires var acks := Heard(actions, run, n);
             && acks[i].seqNo < 1 && (forall j | i < j < |acks| :: acks[j].seqNo >= 1)
             && 0.0 <= lo && (forall j | i <= j < |acks| :: lo <= Sample(acks[j]) <= hi)
    ensures var acks := Heard(actions, run, n); var d := run[n].d;
            var dev := Largest(Sample(acks[i]) / 2.0, hi - lo);
            && lo <= d.est.srtt <= hi && 0.0 <= d.est.rttvar <= dev
            && MIN_RTO <= d.rto && (d.rto == MIN_RTO || lo - 1.0 < d.rto as real <= hi + 4.0 * dev)
  {
    hide Heard, Step, Sample, EstimateAfter, Samples, UnroundedRto, Largest;
    EstimateInRuns(b, actions, run, n);
    BoundedSince(b.est, Heard(actions, run, n), i, lo, hi);
    var last := Heard(actions, run, n)[|Heard(actions, run, n)| - 1];
    assert Sample(last) >= 0.0;
  }
}
