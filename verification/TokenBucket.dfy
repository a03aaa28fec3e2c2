/** One principal's token bucket, and what it promises over whole runs. */
module TokenBucket {
  import opened Wrappers

  datatype Bucket = Bucket(tokens: real, updated: real)

  datatype Call = Call(now: real, cost: real)

  function Min(a: real, b: real): real {
    if a <= b then a else b
  }

  function AdmittedCost(calls: seq<Call>, ok: seq<bool>): real
    requires |calls| == |ok|
  {
    if calls == [] then 0.0 else (if ok[0] then calls[0].cost else 0.0) + AdmittedCost(calls[1..], ok[1..])
  }

  ghost predicate Nondecreasing(calls: seq<Call>) {
    forall i, j :: 0 <= i < j < |calls| ==> calls[i].now <= calls[j].now
  }

  /** The elements of `s` whose flag is set. */
  function Keep<T>(s: seq<T>, keep: seq<bool>): seq<T>
    requires |s| == |keep|
  {
    if s == [] then [] else (if keep[0] then [s[0]] else []) + Keep(s[1..], keep[1..])
  }

  lemma {:induction false} KeepOnlyLast<T>(s: seq<T>, x: T)
    ensures Keep(s + [x], seq(|s|, _ => false) + [true]) == [x]
  {
    var keep := seq(|s|, _ => false) + [true];
    if s == [] {
      assert s + [x] == [x] && keep == [true];
    } else {
      assert (s + [x])[1..] == s[1..] + [x];
      assert keep[1..] == seq(|s[1..]|, _ => false) + [true];
      KeepOnlyLast(s[1..], x);
    }
  }

  /** `rate` tokens per second up to `burst`. Any values: the source constrains neither. */
  datatype Config = Config(rate: real, burst: int) {
    function Capacity(): real {
      burst as real
    }
  }

  /** Tokens refilled in `seconds`. */
  function Accrued(cfg: Config, seconds: real): real {
    seconds * cfg.rate
  }

  lemma AccruedAdds(cfg: Config, t0: real, t1: real, t2: real)
    ensures Accrued(cfg, t1 - t0) + Accrued(cfg, t2 - t1) == Accrued(cfg, t2 - t0)
  {
  }

  lemma AccruedNonneg(cfg: Config, t: real)
    requires t >= 0.0 && cfg.rate >= 0.0
    ensures Accrued(cfg, t) >= 0.0
  {
  }

  lemma NothingAccrues(cfg: Config, seconds: real)
    requires cfg.rate == 0.0
    ensures Accrued(cfg, seconds) == 0.0
  {
  }

  /** Tokens a call at `now` finds after replenishing; an unknown principal starts full. */
  function Level(cfg: Config, ob: Option<Bucket>, now: real): real {
    match ob
    case None => cfg.Capacity()
    case Some(b) => Min(cfg.Capacity(), b.tokens + Accrued(cfg, now - b.updated))
  }

  function Step(cfg: Config, ob: Option<Bucket>, call: Call): (Bucket, bool) {
    var level := Level(cfg, ob, call.now);
    if level >= call.cost then (Bucket(level - call.cost, call.now), true) else (Bucket(level, call.now), false)
  }

  /** The decisions of a run, in call order. */
  function Run(cfg: Config, ob: Option<Bucket>, calls: seq<Call>): (ok: seq<bool>)
    ensures |ok| == |calls|
    decreases |calls|
  {
    if calls == [] then [] else
    var (b, allowed) := Step(cfg, ob, calls[0]);
    [allowed] + Run(cfg, Some(b), calls[1..])
  }

  /** The bucket a run leaves behind. */
  function Final(cfg: Config, ob: Option<Bucket>, calls: seq<Call>): Option<Bucket>
    decreases |calls|
  {
    if calls == [] then ob else Final(cfg, Some(Step(cfg, ob, calls[0]).0), calls[1..])
  }

  // ---- Window bound ----

  lemma {:induction false} RunSplit(cfg: Config, ob: Option<Bucket>, before: seq<Call>, after: seq<Call>)
    ensures Run(cfg, ob, before + after) == Run(cfg, ob, before) + Run(cfg, Final(cfg, ob, before), after)
    ensures Final(cfg, ob, before + after) == Final(cfg, Final(cfg, ob, before), after)
    decreases |before|
  {
    if before == [] {
      assert before + after == after;
    } else {
      assert (before + after)[1..] == before[1..] + after;
      RunSplit(cfg, Some(Step(cfg, ob, before[0]).0), before[1..], after);
    }
  }

  /** What a bucket holds after a run plus what the run admitted never exceeds what it held plus the refill. */
  lemma {:induction false} Conservation(cfg: Config, b: Bucket, calls: seq<Call>)
    requires calls != []
    ensures var f := Final(cfg, Some(b), calls);
            && f.Some? && f.value.updated == calls[|calls| - 1].now
            && f.value.tokens + AdmittedCost(calls, Run(cfg, Some(b), calls))
               <= b.tokens + Accrued(cfg, calls[|calls| - 1].now - b.updated)
            && (Run(cfg, Some(b), calls)[|calls| - 1] ==> f.value.tokens >= 0.0)
    decreases |calls|
  {
    var (b', ok) := Step(cfg, Some(b), calls[0]);
    var rest := calls[1..];
    assert Run(cfg, Some(b), calls) == [ok] + Run(cfg, Some(b'), rest);
    if rest == [] {
    } else {
      var last := calls[|calls| - 1];
      assert rest[|rest| - 1] == last;
      Conservation(cfg, b', rest);
      AccruedAdds(cfg, b.updated, calls[0].now, last.now);
    }
  }

  /** A run sees its starting state only through the level at its first call. */
  lemma RunFromLevel(cfg: Config, ob: Option<Bucket>, calls: seq<Call>)
    requires calls != []
    ensures var t := calls[0].now;
            Run(cfg, ob, calls) == Run(cfg, Some(Bucket(Level(cfg, ob, t), t)), calls)
  {
    var t := calls[0].now;
    assert Accrued(cfg, t - t) == 0.0;
    assert Level(cfg, Some(Bucket(Level(cfg, ob, t), t)), t) == Level(cfg, ob, t);
  }

  lemma {:induction false} WholeRunBound(cfg: Config, ob: Option<Bucket>, calls: seq<Call>)
    requires calls != [] && Run(cfg, ob, calls)[|calls| - 1]
    ensures AdmittedCost(calls, Run(cfg, ob, calls))
            <= cfg.Capacity() + Accrued(cfg, calls[|calls| - 1].now - calls[0].now)
  {
    RunFromLevel(cfg, ob, calls);
    Conservation(cfg, Bucket(Level(cfg, ob, calls[0].now), calls[0].now), calls);
  }

  lemma {:induction false} WindowIsRun(cfg: Config, ob: Option<Bucket>, calls: seq<Call>, i: nat, j: nat)
    requires i <= j <= |calls|
    ensures Run(cfg, ob, calls)[i..j] == Run(cfg, Final(cfg, ob, calls[..i]), calls[i..j])
  {
    var before, window, after := calls[..i], calls[i..j], calls[j..];
    assert calls == before + (window + after);
    RunSplit(cfg, ob, before, window + after);
    RunSplit(cfg, Final(cfg, ob, before), window, after);
  }

  /**
   * Any window of any run that ends in an admitted call admits at most one burst plus the refill between
   * its first and last clock readings. Nothing is assumed of the clock: readings may go backwards.
   */
  lemma {:induction false} WindowBound(cfg: Config, ob: Option<Bucket>, calls: seq<Call>, i: nat, j: nat)
    requires i <= j < |calls| && Run(cfg, ob, calls)[j]
    ensures AdmittedCost(calls[i..j + 1], Run(cfg, ob, calls)[i..j + 1])
            <= cfg.Capacity() + Accrued(cfg, calls[j].now - calls[i].now)
  {
    WindowIsRun(cfg, ob, calls, i, j + 1);
    var ok, window := Run(cfg, ob, calls), calls[i..j + 1];
    assert ok[i..j + 1][j - i] == ok[j];
    WholeRunBound(cfg, Final(cfg, ob, calls[..i]), window);
  }

  // ---- Denied calls are invisible ----

  /** Refilling in two steps is refilling once, although each refill is capped. */
  lemma RefillComposes(cfg: Config, ob: Option<Bucket>, t: real, t': real)
    requires cfg.rate >= 0.0 && t <= t'
    ensures Level(cfg, Some(Bucket(Level(cfg, ob, t), t)), t') == Level(cfg, ob, t')
  {
    AccruedNonneg(cfg, t' - t);
    if ob.Some? {
      AccruedAdds(cfg, ob.value.updated, t, t');
    }
  }

  /**
   * A denied call is unnoticed at reading `t`: it fitted the capacity, so its refill was not capped; or nothing is ever
   * refilled; or the clock has not gone back behind it.
   */
  predicate Unnoticed(cfg: Config, c: Call, t: real) {
    c.cost <= cfg.Capacity() || cfg.rate == 0.0 || (cfg.rate > 0.0 && c.now <= t)
  }

  lemma DeniedLeavesNoTrace(cfg: Config, ob: Option<Bucket>, c: Call, t: real)
    requires !Step(cfg, ob, c).1 && Unnoticed(cfg, c, t)
    ensures Level(cfg, Some(Step(cfg, ob, c).0), t) == Level(cfg, ob, t)
  {
    if cfg.rate > 0.0 && c.now <= t {
      RefillComposes(cfg, ob, c.now, t);
    } else if ob.Some? {
      AccruedAdds(cfg, ob.value.updated, c.now, t);
      if cfg.rate == 0.0 {
        NothingAccrues(cfg, t - c.now);
        NothingAccrues(cfg, t - ob.value.updated);
      }
    } else if cfg.rate == 0.0 {
      NothingAccrues(cfg, t - c.now);
    }
  }

  /** No call of the run can tell the two states apart. */
  ghost predicate SameOn(cfg: Config, ob: Option<Bucket>, ob': Option<Bucket>, calls: seq<Call>) {
    forall j :: 0 <= j < |calls| ==> Level(cfg, ob, calls[j].now) == Level(cfg, ob', calls[j].now)
  }

  /** Every call to be dropped was denied. */
  ghost predicate OnlyDenied(ok: seq<bool>, keep: seq<bool>) {
    |ok| == |keep| && forall k :: 0 <= k < |ok| && !keep[k] ==> !ok[k]
  }

  /** Every call to be dropped is unnoticed by all later ones. */
  ghost predicate OnlyUnnoticed(cfg: Config, calls: seq<Call>, keep: seq<bool>)
    requires |calls| == |keep|
  {
    forall k, j :: 0 <= k < j < |calls| && !keep[k] ==> Unnoticed(cfg, calls[k], calls[j].now)
  }

  lemma OnlyUnnoticedTail(cfg: Config, calls: seq<Call>, keep: seq<bool>)
    requires |calls| == |keep| > 0 && OnlyUnnoticed(cfg, calls, keep)
    ensures OnlyUnnoticed(cfg, calls[1..], keep[1..])
  {
    forall k, j | 0 <= k < j < |calls[1..]| && !keep[1..][k]
      ensures Unnoticed(cfg, calls[1..][k], calls[1..][j].now)
    {
      assert !keep[k + 1] && Unnoticed(cfg, calls[k + 1], calls[j + 1].now);
    }
  }

  lemma DropKeepsSame(cfg: Config, full: Option<Bucket>, reduced: Option<Bucket>, calls: seq<Call>, keep: seq<bool>)
    requires |calls| == |keep| > 0 && OnlyUnnoticed(cfg, calls, keep) && SameOn(cfg, full, reduced, calls)
    requires !keep[0] && !Step(cfg, full, calls[0]).1
    ensures SameOn(cfg, Some(Step(cfg, full, calls[0]).0), reduced, calls[1..])
  {
    forall j | 0 <= j < |calls[1..]|
      ensures Level(cfg, Some(Step(cfg, full, calls[0]).0), calls[1..][j].now) == Level(cfg, reduced, calls[1..][j].now)
    {
      assert calls[1..][j] == calls[j + 1];
      DeniedLeavesNoTrace(cfg, full, calls[0], calls[j + 1].now);
    }
  }

  lemma {:induction false} DeniedInvisibleFrom(
    cfg: Config, full: Option<Bucket>, reduced: Option<Bucket>, calls: seq<Call>, keep: seq<bool>)
    requires OnlyDenied(Run(cfg, full, calls), keep) && OnlyUnnoticed(cfg, calls, keep)
    requires SameOn(cfg, full, reduced, calls)
    ensures Run(cfg, reduced, Keep(calls, keep)) == Keep(Run(cfg, full, calls), keep)
    decreases |calls|
  {
    if calls == [] {
    } else {
      var c, rest, keeps := calls[0], calls[1..], keep[1..];
      var (b, ok) := Step(cfg, full, c);
      var oks := Run(cfg, Some(b), rest);
      assert Run(cfg, full, calls) == [ok] + oks && ([ok] + oks)[1..] == oks;
      OnlyUnnoticedTail(cfg, calls, keep);
      if keep[0] {
        assert Level(cfg, reduced, c.now) == Level(cfg, full, c.now);
        assert Step(cfg, reduced, c) == (b, ok);
        DeniedInvisibleFrom(cfg, Some(b), Some(b), rest, keeps);
        assert ([c] + Keep(rest, keeps))[1..] == Keep(rest, keeps);
      } else {
        DropKeepsSame(cfg, full, reduced, calls, keep);
        DeniedInvisibleFrom(cfg, Some(b), reduced, rest, keeps);
        assert Keep(calls, keep) == Keep(rest, keeps);
      }
    }
  }

  /**
   * Deleting denied calls from a run changes no other decision, when each fitted the capacity, or nothing refills, or
   * no later reading is before it.
   */
  lemma {:induction false} DeniedCallsInvisible(cfg: Config, ob: Option<Bucket>, calls: seq<Call>, keep: seq<bool>)
    requires OnlyDenied(Run(cfg, ob, calls), keep) && OnlyUnnoticed(cfg, calls, keep)
    ensures Run(cfg, ob, Keep(calls, keep)) == Keep(Run(cfg, ob, calls), keep)
  {
    DeniedInvisibleFrom(cfg, ob, ob, calls, keep);
  }

  ghost predicate DropsCost(calls: seq<Call>, keep: seq<bool>, cost: real)
    requires |calls| == |keep|
  {
    forall k :: 0 <= k < |calls| && !keep[k] ==> calls[k].cost == cost
  }

  /** Denied polls of this cost may be dropped from any run, whatever its clock readings. */
  ghost predicate PollsInvisible(cfg: Config, cost: real) {
    forall ob, calls, keep :: OnlyDenied(Run(cfg, ob, calls), keep) && DropsCost(calls, keep, cost) ==>
      Run(cfg, ob, Keep(calls, keep)) == Keep(Run(cfg, ob, calls), keep)
  }

  /** A denied poll above the capacity was capped, and the cap shows once the clock refills less than nothing. */
  lemma PollHurts(cfg: Config, cost: real)
    requires cost > cfg.Capacity() && cfg.rate != 0.0
    ensures var poll, call := Call(0.0, cost), Call(if cfg.rate > 0.0 then -1.0 else 1.0, cfg.Capacity());
            && Run(cfg, None, [poll, call]) == [false, false]
            && Run(cfg, None, [call]) == [true]
  {
    var poll, call := Call(0.0, cost), Call(if cfg.rate > 0.0 then -1.0 else 1.0, cfg.Capacity());
    assert Step(cfg, None, poll) == (Bucket(cfg.Capacity(), 0.0), false);
    assert Accrued(cfg, call.now) < 0.0;
    assert !Step(cfg, Some(Bucket(cfg.Capacity(), 0.0)), call).1;
    assert [poll, call][1..] == [call] && [call][1..] == [];
  }

  /** On arbitrary clocks, dropping denied polls of a cost is invisible exactly when it fits, or nothing refills. */
  lemma {:induction false} PollsInvisibleExactly(cfg: Config, cost: real)
    ensures PollsInvisible(cfg, cost) <==> cost <= cfg.Capacity() || cfg.rate == 0.0
  {
    if cost <= cfg.Capacity() || cfg.rate == 0.0 {
      forall ob, calls, keep | OnlyDenied(Run(cfg, ob, calls), keep) && DropsCost(calls, keep, cost)
        ensures Run(cfg, ob, Keep(calls, keep)) == Keep(Run(cfg, ob, calls), keep)
      {
        DeniedCallsInvisible(cfg, ob, calls, keep);
      }
    } else {
      PollHurts(cfg, cost);
      var poll, call := Call(0.0, cost), Call(if cfg.rate > 0.0 then -1.0 else 1.0, cfg.Capacity());
      var calls, keep := [poll, call], [false, true];
      assert OnlyDenied(Run(cfg, None, calls), keep) && DropsCost(calls, keep, cost);
      assert calls[1..] == [call] && keep[1..] == [true] && [call][1..] == [] && [false, false][1..] == [false];
      assert Keep(calls, keep) == Keep([call], [true]) == [call];
      assert Keep([false, false], keep) == Keep([false], [true]) == [false];
    }
  }

  /** Polls that were all denied and that neither one another nor the call notices. */
  ghost predicate DeniedPolls(cfg: Config, ob: Option<Bucket>, polls: seq<Call>, call: Call) {
    && (forall k :: 0 <= k < |polls| ==> !Run(cfg, ob, polls)[k] && Unnoticed(cfg, polls[k], call.now))
    && (forall k, j :: 0 <= k < j < |polls| ==> Unnoticed(cfg, polls[k], polls[j].now))
  }

  lemma {:induction false} PollsForgotten(cfg: Config, ob: Option<Bucket>, polls: seq<Call>, call: Call)
    requires DeniedPolls(cfg, ob, polls, call)
    ensures [Run(cfg, ob, polls + [call])[|polls|]] == Run(cfg, ob, [call])
  {
    var all := polls + [call];
    var keep := seq(|polls|, _ => false) + [true];
    RunSplit(cfg, ob, polls, [call]);
    var ok := Run(cfg, ob, all);
    DeniedCallsInvisible(cfg, ob, all, keep);
    KeepOnlyLast(polls, call);
    assert ok == ok[..|polls|] + [ok[|polls|]];
    KeepOnlyLast(ok[..|polls|], ok[|polls|]);
  }

  /**
   * Polling never delays admission: after any number of denied polls a call is admitted exactly when its cost fits the
   * capacity and the refill since the last write of `b` has made up the difference.
   */
  lemma {:induction false} AdmissionTime(cfg: Config, b: Bucket, polls: seq<Call>, call: Call)
    requires DeniedPolls(cfg, Some(b), polls, call)
    ensures Run(cfg, Some(b), polls + [call])[|polls|]
            <==> call.cost <= cfg.Capacity() && call.cost <= b.tokens + Accrued(cfg, call.now - b.updated)
  {
    PollsForgotten(cfg, Some(b), polls, call);
    assert [call][1..] == [];
    assert Run(cfg, Some(b), [call]) == [Level(cfg, Some(b), call.now) >= call.cost];
  }

  lemma WaitedEnough(cfg: Config, missing: real, waited: real)
    requires cfg.rate > 0.0 && waited >= missing / cfg.rate
    ensures Accrued(cfg, waited) >= missing
  {
    assert Accrued(cfg, missing / cfg.rate) == missing;
    AccruedNonneg(cfg, waited - missing / cfg.rate);
    AccruedAdds(cfg, 0.0, missing / cfg.rate, waited);
  }

  /** With a positive rate a cost within capacity is admitted from a computable moment on, however it was polled. */
  lemma {:induction false} EventuallyAdmitted(cfg: Config, b: Bucket, polls: seq<Call>, call: Call)
    requires cfg.rate > 0.0 && DeniedPolls(cfg, Some(b), polls, call)
    requires call.cost <= cfg.Capacity()
    requires call.now - b.updated >= (call.cost - b.tokens) / cfg.rate
    ensures Run(cfg, Some(b), polls + [call])[|polls|]
  {
    AdmissionTime(cfg, b, polls, call);
    WaitedEnough(cfg, call.cost - b.tokens, call.now - b.updated);
  }
}
