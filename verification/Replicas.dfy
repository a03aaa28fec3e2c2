/** What N gateway replicas admit together: one in-memory limiter each, or one shared script. */
module Replicas {
  import opened Wrappers
  import opened TokenBucket
  import opened Limiter
  import opened RedisLimiter
  import opened Text

  /** One principal's call, with the replica the load balancer chose. */
  datatype Routed = Routed(replica: nat, call: Call)

  ghost predicate RoutedWithin(calls: seq<Routed>, n: nat) {
    forall c :: c in calls ==> c.replica < n
  }

  function CallsIn(calls: seq<Routed>): (cs: seq<Call>)
    ensures |cs| == |calls|
    ensures forall k :: 0 <= k < |calls| ==> cs[k] == calls[k].call
  {
    seq(|calls|, k requires 0 <= k < |calls| => calls[k].call)
  }

  /** Per-replica decisions: each replica knows only its own bucket for the principal. */
  function Decide(cfg: Config, states: seq<Option<Bucket>>, calls: seq<Routed>): (ok: seq<bool>)
    requires RoutedWithin(calls, |states|)
    ensures |ok| == |calls|
    decreases |calls|
  {
    if calls == [] then [] else
    var c := calls[0];
    assert c in calls;
    var (b, allowed) := Step(cfg, states[c.replica], c.call);
    [allowed] + Decide(cfg, states[c.replica := Some(b)], calls[1..])
  }

  // ---- The calls of one replica ----

  function CallsAt(calls: seq<Routed>, i: nat): seq<Call> {
    if calls == [] then [] else (if calls[0].replica == i then [calls[0].call] else []) + CallsAt(calls[1..], i)
  }

  function AnswersAt(calls: seq<Routed>, ok: seq<bool>, i: nat): (r: seq<bool>)
    requires |calls| == |ok|
    ensures |r| == |CallsAt(calls, i)|
  {
    if calls == [] then [] else (if calls[0].replica == i then [ok[0]] else []) + AnswersAt(calls[1..], ok[1..], i)
  }

  /** A replica decides by its own bucket and its own calls. */
  lemma {:induction false} ReplicaIsolated(cfg: Config, states: seq<Option<Bucket>>, calls: seq<Routed>, i: nat)
    requires RoutedWithin(calls, |states|) && i < |states|
    ensures AnswersAt(calls, Decide(cfg, states, calls), i) == Run(cfg, states[i], CallsAt(calls, i))
    decreases |calls|
  {
    if calls == [] {
    } else {
      var c, rest := calls[0], CallsAt(calls[1..], i);
      assert c in calls;
      var (b, ok) := Step(cfg, states[c.replica], c.call);
      var next := states[c.replica := Some(b)];
      ReplicaIsolated(cfg, next, calls[1..], i);
      assert Decide(cfg, states, calls)[1..] == Decide(cfg, next, calls[1..]);
      if c.replica == i {
        assert ([c.call] + rest)[1..] == rest;
      } else {
        assert CallsAt(calls, i) == rest;
      }
    }
  }

  /** What the first `n` replicas admitted together. */
  function SumOver(calls: seq<Routed>, ok: seq<bool>, n: nat): real
    requires |calls| == |ok|
  {
    if n == 0 then 0.0
    else SumOver(calls, ok, n - 1) + AdmittedCost(CallsAt(calls, n - 1), AnswersAt(calls, ok, n - 1))
  }

  lemma AdmittedCons(c: Call, b: bool, calls: seq<Call>, ok: seq<bool>)
    requires |calls| == |ok|
    ensures AdmittedCost([c] + calls, [b] + ok) == (if b then c.cost else 0.0) + AdmittedCost(calls, ok)
  {
    assert ([c] + calls)[1..] == calls && ([b] + ok)[1..] == ok;
  }

  lemma {:induction false} SumOverCons(calls: seq<Routed>, ok: seq<bool>, n: nat)
    requires calls != [] && |calls| == |ok|
    ensures SumOver(calls, ok, n)
            == (if calls[0].replica < n && ok[0] then calls[0].call.cost else 0.0) + SumOver(calls[1..], ok[1..], n)
  {
    if n == 0 {
    } else {
      var i := n - 1;
      SumOverCons(calls, ok, i);
      if calls[0].replica == i {
        AdmittedCons(calls[0].call, ok[0], CallsAt(calls[1..], i), AnswersAt(calls[1..], ok[1..], i));
      } else {
        assert CallsAt(calls, i) == CallsAt(calls[1..], i);
        assert AnswersAt(calls, ok, i) == AnswersAt(calls[1..], ok[1..], i);
      }
    }
  }

  lemma {:induction false} SumOverNothing(n: nat)
    ensures SumOver([], [], n) == 0.0
  {
    if n == 0 {
    } else {
      SumOverNothing(n - 1);
    }
  }

  /** Every call is one replica's. */
  lemma {:induction false} AdmittedSplits(calls: seq<Routed>, ok: seq<bool>, n: nat)
    requires |calls| == |ok| && RoutedWithin(calls, n)
    ensures AdmittedCost(CallsIn(calls), ok) == SumOver(calls, ok, n)
  {
    if calls == [] {
      SumOverNothing(n);
    } else {
      assert calls[0] in calls;
      AdmittedSplits(calls[1..], ok[1..], n);
      SumOverCons(calls, ok, n);
      assert CallsIn(calls)[1..] == CallsIn(calls[1..]);
    }
  }

  // ---- The per-replica bound ----

  function Times(n: nat, x: real): real {
    n as real * x
  }

  lemma TimesNext(n: nat, x: real)
    ensures Times(n + 1, x) == Times(n, x) + x && Times(0, x) == 0.0
  {
  }

  /** No reading is more than `time` after an earlier one. */
  ghost predicate Spans(calls: seq<Call>, time: real) {
    forall k, j :: 0 <= k < j < |calls| ==> calls[j].now - calls[k].now <= time
  }

  lemma {:induction false} AdmittedSnoc(calls: seq<Call>, ok: seq<bool>, c: Call)
    requires |calls| == |ok|
    ensures AdmittedCost(calls + [c], ok + [false]) == AdmittedCost(calls, ok)
  {
    if calls == [] {
      assert calls + [c] == [c] && ok + [false] == [false];
      AdmittedCons(c, false, [], []);
      assert [c] + [] == [c] && [false] + [] == [false];
    } else {
      assert (calls + [c])[1..] == calls[1..] + [c] && (ok + [false])[1..] == ok[1..] + [false];
      AdmittedSnoc(calls[1..], ok[1..], c);
    }
  }

  lemma AccruedGrows(cfg: Config, shorter: real, time: real)
    requires cfg.rate >= 0.0 && shorter <= time
    ensures Accrued(cfg, shorter) <= Accrued(cfg, time)
  {
    AccruedNonneg(cfg, time - shorter);
    AccruedAdds(cfg, 0.0, shorter, time);
  }

  /** One bucket admits at most a burst and the refill of the time its calls span. */
  lemma {:induction false} RunAdmits(cfg: Config, ob: Option<Bucket>, calls: seq<Call>, time: real)
    requires cfg.rate >= 0.0 && cfg.burst >= 0 && time >= 0.0 && Spans(calls, time)
    ensures AdmittedCost(calls, Run(cfg, ob, calls)) <= cfg.Capacity() + Accrued(cfg, time)
    decreases |calls|
  {
    AccruedNonneg(cfg, time);
    if calls == [] {
    } else {
      var n := |calls| - 1;
      var front, last := calls[..n], calls[n];
      if Run(cfg, ob, calls)[n] {
        WholeRunBound(cfg, ob, calls);
        AccruedGrows(cfg, last.now - calls[0].now, time);
      } else {
        RunAdmits(cfg, ob, front, time);
        RunSplit(cfg, ob, front, [last]);
        assert calls == front + [last];
        assert Run(cfg, ob, calls) == Run(cfg, ob, front) + [false];
        AdmittedSnoc(front, Run(cfg, ob, front), last);
      }
    }
  }

  /** On each replica's own clock, no two of its calls are more than `time` apart. */
  ghost predicate SpansEach(calls: seq<Routed>, n: nat, time: real) {
    forall i: nat :: i < n ==> Spans(CallsAt(calls, i), time)
  }

  /** Each of the first `n` replicas admitted at most `x`. */
  ghost predicate EachWithin(calls: seq<Routed>, ok: seq<bool>, n: nat, x: real)
    requires |calls| == |ok|
  {
    forall i: nat :: i < n ==> AdmittedCost(CallsAt(calls, i), AnswersAt(calls, ok, i)) <= x
  }

  lemma {:induction false} SumWithin(calls: seq<Routed>, ok: seq<bool>, n: nat, x: real)
    requires |calls| == |ok| && EachWithin(calls, ok, n, x)
    ensures SumOver(calls, ok, n) <= Times(n, x)
  {
    if n == 0 {
      TimesNext(0, x);
    } else {
      assert EachWithin(calls, ok, n - 1, x);
      SumWithin(calls, ok, n - 1, x);
      TimesNext(n - 1, x);
    }
  }

  lemma {:induction false} AllWithin(calls: seq<Routed>, ok: seq<bool>, n: nat, x: real)
    requires |calls| == |ok| && RoutedWithin(calls, n) && EachWithin(calls, ok, n, x)
    ensures AdmittedCost(CallsIn(calls), ok) <= Times(n, x)
  {
    AdmittedSplits(calls, ok, n);
    SumWithin(calls, ok, n, x);
  }

  lemma {:induction false} ReplicaAdmits(
    cfg: Config, states: seq<Option<Bucket>>, calls: seq<Routed>, time: real, i: nat)
    requires cfg.rate >= 0.0 && cfg.burst >= 0 && time >= 0.0
    requires i < |states| && RoutedWithin(calls, |states|) && SpansEach(calls, |states|, time)
    ensures AdmittedCost(CallsAt(calls, i), AnswersAt(calls, Decide(cfg, states, calls), i))
            <= cfg.Capacity() + Accrued(cfg, time)
  {
    ReplicaIsolated(cfg, states, calls, i);
    RunAdmits(cfg, states[i], CallsAt(calls, i), time);
  }

  lemma {:induction false} EachReplicaAdmits(cfg: Config, states: seq<Option<Bucket>>, calls: seq<Routed>, time: real)
    requires cfg.rate >= 0.0 && cfg.burst >= 0 && time >= 0.0
    requires RoutedWithin(calls, |states|) && SpansEach(calls, |states|, time)
    ensures EachWithin(calls, Decide(cfg, states, calls), |states|, cfg.Capacity() + Accrued(cfg, time))
  {
    forall i: nat | i < |states|
      ensures AdmittedCost(CallsAt(calls, i), AnswersAt(calls, Decide(cfg, states, calls), i))
              <= cfg.Capacity() + Accrued(cfg, time)
    {
      ReplicaAdmits(cfg, states, calls, time, i);
    }
  }

  /**
   * N replicas with a limiter each admit at most N times one limiter's window, from any state, however calls are
   * balanced. Each replica reads a clock of its own, and nothing ties one to another.
   */
  lemma {:induction false} PerReplicaWindow(
    cfg: Config, states: seq<Option<Bucket>>, calls: seq<Routed>, time: real)
    requires cfg.rate >= 0.0 && cfg.burst >= 0 && time >= 0.0
    requires RoutedWithin(calls, |states|) && SpansEach(calls, |states|, time)
    ensures AdmittedCost(CallsIn(calls), Decide(cfg, states, calls))
            <= Times(|states|, cfg.Capacity() + Accrued(cfg, time))
  {
    EachReplicaAdmits(cfg, states, calls, time);
    AllWithin(calls, Decide(cfg, states, calls), |states|, cfg.Capacity() + Accrued(cfg, time));
  }

  /** The buckets a run leaves behind. */
  function StatesAfter(cfg: Config, states: seq<Option<Bucket>>, calls: seq<Routed>): (after: seq<Option<Bucket>>)
    requires RoutedWithin(calls, |states|)
    ensures |after| == |states|
    decreases |calls|
  {
    if calls == [] then states else
    var c := calls[0];
    assert c in calls;
    StatesAfter(cfg, states[c.replica := Some(Step(cfg, states[c.replica], c.call).0)], calls[1..])
  }

  lemma {:induction false} DecideSplit(
    cfg: Config, states: seq<Option<Bucket>>, before: seq<Routed>, after: seq<Routed>)
    requires RoutedWithin(before, |states|) && RoutedWithin(after, |states|)
    ensures RoutedWithin(before + after, |states|)
    ensures Decide(cfg, states, before + after)
            == Decide(cfg, states, before) + Decide(cfg, StatesAfter(cfg, states, before), after)
    decreases |before|
  {
    if before == [] {
      assert before + after == after;
    } else {
      assert before[0] in before;
      var c := before[0];
      var (b, ok) := Step(cfg, states[c.replica], c.call);
      var next := states[c.replica := Some(b)];
      assert (before + after)[1..] == before[1..] + after;
      DecideSplit(cfg, next, before[1..], after);
      Regroup([ok], Decide(cfg, next, before[1..]), Decide(cfg, StatesAfter(cfg, states, before), after));
    }
  }

  /** Replicas that know nothing of the principal yet. */
  function Idle(n: nat): (states: seq<Option<Bucket>>)
    ensures |states| == n && forall i :: 0 <= i < n ==> states[i] == None
  {
    seq(n, _ => None)
  }

  /** So in every run of N replicas, every window, whatever came before it, stays within that bound. */
  lemma {:induction false} PerReplicaWindowOfRun(
    cfg: Config, n: nat, before: seq<Routed>, window: seq<Routed>, time: real)
    requires cfg.rate >= 0.0 && cfg.burst >= 0 && time >= 0.0
    requires RoutedWithin(before, n) && RoutedWithin(window, n) && SpansEach(window, n, time)
    ensures RoutedWithin(before + window, n)
    ensures AdmittedCost(CallsIn(window), Decide(cfg, Idle(n), before + window)[|before|..])
            <= Times(n, cfg.Capacity() + Accrued(cfg, time))
  {
    var states := StatesAfter(cfg, Idle(n), before);
    DecideSplit(cfg, Idle(n), before, window);
    assert Decide(cfg, Idle(n), before + window)[|before|..] == Decide(cfg, states, window);
    PerReplicaWindow(cfg, states, window, time);
  }

  /** One whole burst sent to every replica at the same instant. */
  function BurstEverywhere(cfg: Config, from: nat, n: nat, t: real): (calls: seq<Routed>)
    requires from <= n
    ensures |calls| == n - from
    ensures forall k :: 0 <= k < |calls| ==> calls[k] == Routed(from + k, Call(t, cfg.Capacity()))
  {
    seq(n - from, k requires 0 <= k < n - from => Routed(from + k, Call(t, cfg.Capacity())))
  }

  lemma {:induction false} BurstEverywhereAdmitted(
    cfg: Config, states: seq<Option<Bucket>>, from: nat, n: nat, t: real)
    requires from <= n == |states| && forall i :: from <= i < n ==> states[i] == None
    ensures var calls := BurstEverywhere(cfg, from, n, t);
            && RoutedWithin(calls, n)
            && AdmittedCost(CallsIn(calls), Decide(cfg, states, calls)) == Times(n - from, cfg.Capacity())
    decreases n - from
  {
    var calls := BurstEverywhere(cfg, from, n, t);
    if from == n {
      TimesNext(0, cfg.Capacity());
    } else {
      var next := states[from := Some(Step(cfg, states[from], calls[0].call).0)];
      assert calls[1..] == BurstEverywhere(cfg, from + 1, n, t);
      BurstEverywhereAdmitted(cfg, next, from + 1, n, t);
      TimesNext(n - from - 1, cfg.Capacity());
      assert CallsIn(calls)[1..] == CallsIn(calls[1..]);
      assert Decide(cfg, states, calls)[1..] == Decide(cfg, next, calls[1..]);
    }
  }

  /**
   * The factor N is real: N idle replicas admit N bursts at one instant, where a single limiter fed the same
   * calls admits one burst.
   */
  lemma {:induction false} PerReplicaFactorReached(cfg: Config, n: nat, t: real)
    requires n > 0 && cfg.burst > 0
    ensures var calls := BurstEverywhere(cfg, 0, n, t);
            && RoutedWithin(calls, n)
            && AdmittedCost(CallsIn(calls), Decide(cfg, Idle(n), calls)) == Times(n, cfg.Capacity())
            && AdmittedCost(CallsIn(calls), Run(cfg, None, CallsIn(calls))) == cfg.Capacity()
  {
    var calls := BurstEverywhere(cfg, 0, n, t);
    BurstEverywhereAdmitted(cfg, Idle(n), 0, n, t);
    var cs := CallsIn(calls);
    assert Step(cfg, None, cs[0]) == (Bucket(0.0, t), true);
    assert Run(cfg, None, cs) == [true] + Run(cfg, Some(Bucket(0.0, t)), cs[1..]);
    EmptyBucketDenies(cfg, Bucket(0.0, t), cs[1..], t);
  }

  lemma {:induction false} EmptyBucketDenies(cfg: Config, b: Bucket, calls: seq<Call>, t: real)
    requires cfg.burst > 0 && b == Bucket(0.0, t)
    requires forall k :: 0 <= k < |calls| ==> calls[k] == Call(t, cfg.Capacity())
    ensures AdmittedCost(calls, Run(cfg, Some(b), calls)) == 0.0
    decreases |calls|
  {
    if calls == [] {
    } else {
      assert Accrued(cfg, t - t) == 0.0;
      assert Step(cfg, Some(b), calls[0]) == (b, false);
      EmptyBucketDenies(cfg, b, calls[1..], t);
      assert Run(cfg, Some(b), calls)[1..] == Run(cfg, Some(b), calls[1..]);
    }
  }

  ghost predicate WithinLimit(cfg: Config, calls: seq<Call>, ok: seq<bool>, i: nat, j: nat)
    requires i <= j < |calls| == |ok|
  {
    AdmittedCost(calls[i..j + 1], ok[i..j + 1]) <= cfg.Capacity() + Accrued(cfg, calls[j].now - calls[i].now)
  }

  /** The calls of one principal in a trace of the shared store, and what they were answered. */
  function CallsBy(events: seq<Event>, key: string): seq<Call> {
    CallsOf(RequestsOf(events), key)
  }

  function AnswersBy(cfg: Config, events: seq<Event>, key: string): (ok: seq<bool>)
    ensures |ok| == |CallsBy(events, key)|
  {
    AnswersTo(RequestsOf(events), RedisDecisions(cfg, map[], events), key)
  }

  /** Expiry cannot be seen, so the shared store keeps each principal within the bound of one bucket. */
  lemma {:induction false} SharedScriptWindow(
    cfg: Config, events: seq<Event>, skew: real, clock: real, key: string, i: nat, j: nat)
    requires Tolerates(cfg, skew) && Admissible(cfg, map[], skew, clock, events)
    requires i <= j < |CallsBy(events, key)| && AnswersBy(cfg, events, key)[j]
    ensures WithinLimit(cfg, CallsBy(events, key), AnswersBy(cfg, events, key), i, j)
  {
    ExpirySimulated(cfg, map[], map[], skew, clock, events);
    PrincipalsIsolated(cfg, map[], RequestsOf(events), key);
    WindowBound(cfg, None, CallsBy(events, key), i, j);
  }

  ghost predicate GlobalLimit(cfg: Config, skew: real) {
    forall events, clock, key, i: nat, j: nat ::
      Admissible(cfg, map[], skew, clock, events) && i <= j < |CallsBy(events, key)| && AnswersBy(cfg, events, key)[j]
      ==> WithinLimit(cfg, CallsBy(events, key), AnswersBy(cfg, events, key), i, j)
  }

  lemma TwoAnswers(first: Call, second: Call, ok: bool)
    ensures AdmittedCost([first, second][0..2], [ok, true][0..2]) == (if ok then first.cost else 0.0) + second.cost
  {
    assert [first, second][0..2][1..] == [second] && [ok, true][0..2][1..] == [true];
    assert AdmittedCost([second], [true]) == second.cost;
  }

  lemma {:induction false} SpendIdleAskBy(cfg: Config, x: real, skew: real)
    requires 0.0 <= x <= skew
    ensures CallsBy(SpendIdleAsk(cfg, x), "p") == [Spend(cfg, x), Ask(cfg, x)]
    ensures AnswersBy(cfg, SpendIdleAsk(cfg, x), "p") == [cfg.burst >= 0, true]
  {
    SpendIdleAskRequests(cfg, x);
    SpendIdleAskRun(cfg, x, skew);
    var r, r' := Request("p", Spend(cfg, x)), Request("p", Ask(cfg, x));
    assert [r, r'][1..] == [r'] && [cfg.burst >= 0, true][1..] == [true];
    OneCall("p", r'.call, true);
  }

  lemma OneCall(principal: string, call: Call, ok: bool)
    ensures var rs := [Request(principal, call)];
            CallsOf(rs, principal) == [call] && AnswersTo(rs, [ok], principal) == [ok]
  {
    assert [Request(principal, call)][1..] == [] && [ok][1..] == [];
  }

  /**
   * The strict global limit. Calls of every replica meet in one atomic script, so a trace of requests is any
   * interleaving of them, each read from its own replica's clock. Whatever keys expire on the way, each principal is
   * admitted at most one burst plus the refill in every window of that principal's calls that ends in an admitted one,
   * exactly when the skew of those clocks is tolerated.
   */
  lemma {:induction false} GlobalLimitExactly(cfg: Config, skew: real)
    requires skew >= 0.0
    ensures GlobalLimit(cfg, skew) <==> Tolerates(cfg, skew)
  {
    if Tolerates(cfg, skew) {
      forall events, clock, key, i: nat, j: nat
        | && Admissible(cfg, map[], skew, clock, events)
          && i <= j < |CallsBy(events, key)| && AnswersBy(cfg, events, key)[j]
        ensures WithinLimit(cfg, CallsBy(events, key), AnswersBy(cfg, events, key), i, j)
      {
        SharedScriptWindow(cfg, events, skew, clock, key, i, j);
      }
    } else {
      var x := ShortBy(cfg, skew);
      var events := SpendIdleAsk(cfg, x);
      FallsShort(cfg, skew);
      SpendIdleAskRun(cfg, x, skew);
      SpendIdleAskBy(cfg, x, skew);
      TwoAnswers(Spend(cfg, x), Ask(cfg, x), cfg.burst >= 0);
      assert Ask(cfg, x).now - Spend(cfg, x).now == Ttl(cfg) as real - 2.0 * x;
      assert !WithinLimit(cfg, CallsBy(events, "p"), AnswersBy(cfg, events, "p"), 0, 1);
    }
  }
}
