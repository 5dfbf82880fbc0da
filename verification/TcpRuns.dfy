/** Runs with their steps made explicit, runs seen from the other side, and what holds along them. */
module TcpRuns {
  import opened Words
  import opened TcpSpec
  import opened TcpNetwork
  import opened TcpTheorems

  // ---- traces ----

  /** trace[i] is the step from run[i] to run[i + 1]. */
  ghost predicate TraceAt(run: seq<System>, trace: seq<Step>, i: nat)
    requires |trace| == |run| - 1 && i < |trace|
  {
    TakesStep(run[i], trace[i], run[i + 1])
  }

  ghost predicate IsTracedRun(run: seq<System>, trace: seq<Step>) {
    && |trace| == |run| - 1 && Init(run[0])
    && forall i: nat :: i < |trace| ==> TraceAt(run, trace, i)
  }

  lemma TracedIsRun(run: seq<System>, trace: seq<Step>)
    requires IsTracedRun(run, trace)
    ensures IsRun(run)
  {
    forall i: nat | i < |run| - 1 ensures StepAt(run, i) {
      assert TraceAt(run, trace, i);
    }
  }

  /** Every run has a trace. */
  lemma {:induction false} RunIsTraced(run: seq<System>) returns (trace: seq<Step>)
    requires IsRun(run)
    ensures IsTracedRun(run, trace)
    decreases |run|
  {
    var n := |run| - 1;
    if n == 0 {
      trace := [];
    } else {
      PrefixIsRun(run, n);
      var before := RunIsTraced(run[..n]);
      assert StepAt(run, n - 1);
      var t := NextIsStep(run[n - 1], run[n]);
      trace := before + [t];
      forall i: nat | i < |trace| ensures TraceAt(run, trace, i) {
        if i < n - 1 {
          assert TraceAt(run[..n], before, i);
        }
      }
    }
  }

  lemma PrefixIsRun(run: seq<System>, n: nat)
    requires IsRun(run) && 0 < n <= |run|
    ensures IsRun(run[..n])
  {
    forall i: nat | i < n - 1 ensures StepAt(run[..n], i) {
      SameStep(run, run[..n], i, i);
    }
  }

  // ---- the other side ----

  /** The same system with the sides exchanged. Through it every theorem that names side A holds
      for side B. */
  function Swapped(s: System): System {
    System(s.b, s.a, s.ba, s.ab)
  }

  function SwappedStep(t: Step): Step {
    Step(!t.byA, t.act)
  }

  lemma SwapTakesStep(s: System, t: Step, s': System)
    requires TakesStep(s, t, s')
    ensures TakesStep(Swapped(s), SwappedStep(t), Swapped(s'))
  {
  }

  function SwappedRun(run: seq<System>): (r: seq<System>)
    ensures |r| == |run| && forall i :: 0 <= i < |run| ==> r[i] == Swapped(run[i])
  {
    seq(|run|, i requires 0 <= i < |run| => Swapped(run[i]))
  }

  function SwappedTrace(trace: seq<Step>): (r: seq<Step>)
    ensures |r| == |trace| && forall i :: 0 <= i < |trace| ==> r[i] == SwappedStep(trace[i])
  {
    seq(|trace|, i requires 0 <= i < |trace| => SwappedStep(trace[i]))
  }

  /** A run seen from the other side is a run, step for step. */
  lemma SwappedIsTracedRun(run: seq<System>, trace: seq<Step>)
    requires IsTracedRun(run, trace)
    ensures IsTracedRun(SwappedRun(run), SwappedTrace(trace))
  {
    forall i: nat | i < |trace| ensures TraceAt(SwappedRun(run), SwappedTrace(trace), i) {
      assert TraceAt(run, trace, i);
      SwapTakesStep(run[i], trace[i], run[i + 1]);
    }
  }

  lemma SwappedIsRun(run: seq<System>)
    requires IsRun(run)
    ensures IsRun(SwappedRun(run))
  {
    var trace := RunIsTraced(run);
    SwappedIsTracedRun(run, trace);
    TracedIsRun(SwappedRun(run), SwappedTrace(trace));
  }

  // ---- initial sequence numbers ----

  lemma ActKeepsIss(x: Node, inbox: set<Packet>, act: Action)
    requires Steppable(x, inbox, act)
    ensures Act(x, act).0.iss == x.iss
  {
  }

  lemma {:induction false} IssAlong(run: seq<System>, trace: seq<Step>, j: nat)
    requires IsTracedRun(run, trace) && j < |run|
    ensures run[j].a.iss == run[0].a.iss
    decreases j
  {
    if j > 0 {
      IssAlong(run, trace, j - 1);
      assert TraceAt(run, trace, j - 1);
      if trace[j - 1].byA {
        ActKeepsIss(run[j - 1].a, run[j - 1].ba, trace[j - 1].act);
      }
    }
  }

  // ---- the smoothed RTT ----

  ghost predicate SrttIn(x: Node, lo: real, hi: real) {
    x.ep.rtx.srtt == 0.0 || lo <= x.ep.rtx.srtt <= hi
  }

  lemma HandleTcpSrtt(e: Endpoint, p: Packet, rtt: real, lo: real, hi: real)
    requires e.WellFormed() && |p.data| < WORD && lo <= rtt <= hi
    requires e.rtx.srtt == 0.0 || lo <= e.rtx.srtt <= hi
    ensures var s := HandleTcp(e, p, rtt).0.rtx.srtt; s == 0.0 || lo <= s <= hi
  {
    if p.data != [] {
      PayloadLeavesSender(e, p);
    } else {
      SrttWithinSamples(e.rtx.srtt, rtt, lo, hi);
    }
  }

  lemma ActSrtt(x: Node, inbox: set<Packet>, act: Action, lo: real, hi: real)
    requires Steppable(x, inbox, act) && SrttIn(x, lo, hi) && (act.Receive? ==> lo <= act.rtt <= hi)
    ensures SrttIn(Act(x, act).0, lo, hi)
  {
    if act.Receive? {
      HandleTcpSrtt(x.ep, act.packet, act.rtt, lo, hi);
    }
  }

  /** Along every run the smoothed RTT is unset or within the range of the samples. */
  lemma {:induction false} SrttAlong(run: seq<System>, trace: seq<Step>, j: nat, lo: real, hi: real)
    requires IsTracedRun(run, trace) && j < |run|
    requires forall i :: 0 <= i < |trace| && trace[i].byA && trace[i].act.Receive? ==> lo <= trace[i].act.rtt <= hi
    ensures SrttIn(run[j].a, lo, hi)
    decreases j
  {
    if j > 0 {
      SrttAlong(run, trace, j - 1, lo, hi);
      assert TraceAt(run, trace, j - 1);
      if trace[j - 1].byA {
        ActSrtt(run[j - 1].a, run[j - 1].ba, trace[j - 1].act, lo, hi);
      }
    }
  }
}
