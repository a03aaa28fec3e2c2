/**
 * The Redis limiter: the atomic script over a store whose keys expire, and how far the replicas' clocks may stray from
 * the server's before expiry can be seen in a decision.
 */
module RedisLimiter {
  import opened Wrappers
  import opened TokenBucket
  import opened Limiter

  /** A stored hash, with the moment of the server's clock from which the server may drop it. */
  datatype Entry = Entry(tokens: real, updated: real, deadline: real)

  type Store = map<string, Entry>

  /** Python's `int(x)`: truncation towards zero. */
  function Truncate(x: real): int {
    if x >= 0.0 then x.Floor else -(-x).Floor
  }

  /** Seconds an idle key lives. */
  function Ttl(cfg: Config): int {
    if cfg.rate <= 0.0 then 3600 else
    var t := Truncate(cfg.Capacity() / cfg.rate) + 1;
    if t >= 1 then t else 1
  }

  function Unstored(store: Store, key: string): Option<Bucket> {
    if key in store then Some(Bucket(store[key].tokens, store[key].updated)) else None
  }

  /** One script run: the refill goes by the caller's reading `r.call.now`, the expiry by the server's clock `at`. */
  function Execute(cfg: Config, store: Store, r: Request, at: real): (Store, bool) {
    var (b, ok) := Step(cfg, Unstored(store, r.principal), r.call);
    (store[r.principal := Entry(b.tokens, b.updated, at + Ttl(cfg) as real)], ok)
  }

  class RedisServer {
    var store: Store

    constructor ()
      ensures store == map[]
    {
      store := map[];
    }

    /** `_LUA_TOKEN_BUCKET`, which the server runs as one atomic step when its own clock reads `at`. */
    method TokenBucketScript(key: string, rate: real, burst: int, now: real, cost: real, ttl: int, at: real)
      returns (allowed: int)
      modifies this
      ensures var (b, ok) := Step(Config(rate, burst), Unstored(old(store), key), Call(now, cost));
              && allowed == (if ok then 1 else 0)
              && store == old(store)[key := Entry(b.tokens, b.updated, at + ttl as real)]
    {
      var tokens, updated;
      if key in store {
        tokens, updated := store[key].tokens, store[key].updated;
      } else {
        tokens, updated := burst as real, now;
      }
      assert Accrued(Config(rate, burst), now - now) == 0.0;
      tokens := Min(burst as real, tokens + Accrued(Config(rate, burst), now - updated));
      updated := now;
      allowed := 0;
      if tokens >= cost {
        tokens := tokens - cost;
        allowed := 1;
      }
      store := store[key := Entry(tokens, updated, at + ttl as real)];
    }

    /** The server drops a key at any moment from its deadline on. */
    method DropExpired(key: string, at: real)
      requires key in store && store[key].deadline <= at
      modifies this
      ensures store == old(store) - {key}
      ensures forall cfg :: store == After(cfg, old(store), Drop(key, at))
    {
      store := store - {key};
    }
  }

  /** One gateway replica's handle on the shared server. */
  class RedisTokenBucketLimiter {
    const cfg: Config
    const namespace: string
    const server: RedisServer

    constructor (server: RedisServer, rate: real, burst: int, namespace: string)
      ensures cfg == Config(rate, burst) && this.server == server && this.namespace == namespace
    {
      this.cfg, this.server, this.namespace := Config(rate, burst), server, namespace;
    }

    method Allow(principal: string, cost: real, now: real, at: real) returns (allowed: bool)
      modifies server
      ensures (server.store, allowed)
              == Execute(cfg, old(server.store), Request(namespace + ":" + principal, Call(now, cost)), at)
    {
      var ttl := 3600;
      if cfg.rate > 0.0 {
        ttl := Truncate(cfg.Capacity() / cfg.rate) + 1;
        if ttl < 1 { ttl := 1; }
      }
      var result := server.TokenBucketScript(namespace + ":" + principal, cfg.rate, cfg.burst, now, cost, ttl, at);
      allowed := result != 0;
    }
  }

  // ---- Runs with expiry ----

  /** `at` is the server's clock; a request also carries its caller's reading. */
  datatype Event = Arrive(request: Request, at: real) | Drop(key: string, at: real)

  function After(cfg: Config, store: Store, e: Event): Store {
    match e
    case Arrive(r, at) => Execute(cfg, store, r, at).0
    case Drop(key, _) => store - {key}
  }

  /**
   * The server's clock never goes back, every caller's reading is within `skew` of it, and keys are dropped only from
   * their deadline on. Dropping is never forced.
   */
  ghost predicate Admissible(cfg: Config, store: Store, skew: real, clock: real, events: seq<Event>)
    decreases |events|
  {
    events == [] ||
    (var e := events[0];
     && clock <= e.at
     && (e.Arrive? ==> e.at - skew <= e.request.call.now <= e.at + skew)
     && (e.Drop? ==> e.key in store && store[e.key].deadline <= e.at)
     && Admissible(cfg, After(cfg, store, e), skew, e.at, events[1..]))
  }

  function RedisDecisions(cfg: Config, store: Store, events: seq<Event>): (ok: seq<bool>)
    ensures |ok| == |RequestsOf(events)|
    decreases |events|
  {
    if events == [] then [] else
    var e := events[0];
    (if e.Arrive? then [Execute(cfg, store, e.request, e.at).1] else [])
    + RedisDecisions(cfg, After(cfg, store, e), events[1..])
  }

  function RequestsOf(events: seq<Event>): seq<Request> {
    if events == [] then [] else
    (if events[0].Arrive? then [events[0].request] else []) + RequestsOf(events[1..])
  }

  // ---- How much skew an idle bucket's refill leaves room for ----

  function Max(a: real, b: real): real {
    if a >= b then a else b
  }

  /** The least a bucket can stand at: an admitted call leaves nothing missing, a denied one the capacity. */
  function Floor(cfg: Config): real {
    Min(0.0, cfg.Capacity())
  }

  /** An idle bucket is full again when its key may go, even if its last writer was ahead and its next caller behind. */
  predicate Tolerates(cfg: Config, skew: real) {
    cfg.rate >= 0.0 && Accrued(cfg, Ttl(cfg) as real - 2.0 * skew) >= Max(0.0, cfg.Capacity())
  }

  lemma AccruedOver(cfg: Config, amount: real, seconds: real)
    requires cfg.rate > 0.0
    ensures Accrued(cfg, seconds) >= amount <==> seconds >= amount / cfg.rate
  {
    var full := amount / cfg.rate;
    assert Accrued(cfg, full) == amount;
    AccruedAdds(cfg, 0.0, full, seconds);
    if seconds >= full {
      AccruedNonneg(cfg, seconds - full);
    } else {
      assert (seconds - full) * cfg.rate < 0.0;
    }
  }

  /**
   * In seconds: the skew, taken twice, must fit between a whole refill and the TTL, which leaves at most one second.
   * Without a refill there must be nothing to refill.
   */
  lemma {:induction false} ToleratedSkew(cfg: Config, skew: real)
    ensures cfg.rate > 0.0 ==>
              && (Tolerates(cfg, skew) <==> 2.0 * skew <= Ttl(cfg) as real - Max(0.0, cfg.Capacity()) / cfg.rate)
              && 0.0 < Ttl(cfg) as real - Max(0.0, cfg.Capacity()) / cfg.rate <= 1.0
    ensures cfg.rate == 0.0 ==> (Tolerates(cfg, skew) <==> cfg.burst <= 0)
    ensures cfg.rate < 0.0 ==> !Tolerates(cfg, skew)
    ensures cfg.rate <= 0.0 ==> Ttl(cfg) == 3600
  {
    if cfg.rate > 0.0 {
      AccruedOver(cfg, Max(0.0, cfg.Capacity()), Ttl(cfg) as real - 2.0 * skew);
      TtlRounds(cfg);
    } else if cfg.rate == 0.0 {
      NothingAccrues(cfg, Ttl(cfg) as real - 2.0 * skew);
    }
  }

  lemma TtlRounds(cfg: Config)
    requires cfg.rate > 0.0
    ensures 0.0 < Ttl(cfg) as real - Max(0.0, cfg.Capacity()) / cfg.rate <= 1.0
  {
    QuotientSign(cfg);
    if cfg.burst < 0 {
      assert Max(0.0, cfg.Capacity()) / cfg.rate == 0.0;
    }
  }

  lemma QuotientSign(cfg: Config)
    requires cfg.rate > 0.0
    ensures cfg.burst >= 0 ==> cfg.Capacity() / cfg.rate >= 0.0
    ensures cfg.burst <= 0 ==> cfg.Capacity() / cfg.rate <= 0.0
  {
    var full := cfg.Capacity() / cfg.rate;
    assert full * cfg.rate == cfg.Capacity();
  }

  /** Without skew the TTL outlasts a refill exactly when there is a rate, or nothing to refill. */
  lemma {:induction false} SharedClockExactly(cfg: Config)
    ensures Tolerates(cfg, 0.0) <==> cfg.rate > 0.0 || (cfg.rate == 0.0 && cfg.burst <= 0)
  {
    ToleratedSkew(cfg, 0.0);
  }

  // ---- The store against the in-memory limiter ----

  /** The bucket's refill reaches `amount` by the reading `t`. */
  ghost predicate Reaches(cfg: Config, b: Bucket, t: real, amount: real) {
    b.tokens + Accrued(cfg, t - b.updated) >= amount
  }

  lemma StaysReached(cfg: Config, b: Bucket, t: real, later: real, amount: real)
    requires cfg.rate >= 0.0 && Reaches(cfg, b, t, amount) && t <= later
    ensures Reaches(cfg, b, later, amount)
  {
    AccruedNonneg(cfg, later - t);
    AccruedAdds(cfg, b.updated, t, later);
  }

  /** A call read no later than `t` leaves a bucket that stands at the floor or above by `t`. */
  lemma StepReachesFloor(cfg: Config, ob: Option<Bucket>, call: Call, t: real)
    requires cfg.rate >= 0.0 && call.now <= t
    requires ob.Some? ==> Reaches(cfg, ob.value, t, Floor(cfg))
    ensures Reaches(cfg, Step(cfg, ob, call).0, t, Floor(cfg))
  {
    AccruedNonneg(cfg, t - call.now);
    if ob.Some? {
      AccruedAdds(cfg, ob.value.updated, call.now, t);
    }
  }

  lemma {:induction false} FullAtDeadline(cfg: Config, b: Bucket, ttl: real, written: real, at: real, skew: real)
    requires cfg.rate >= 0.0 && Accrued(cfg, ttl - 2.0 * skew) >= Max(0.0, cfg.Capacity())
    requires Reaches(cfg, b, written + skew, Floor(cfg)) && written + ttl <= at
    ensures Reaches(cfg, b, at - skew, cfg.Capacity())
  {
    var start, end := written + skew, written + ttl - skew;
    AccruedAdds(cfg, b.updated, start, end);
    assert end - start == ttl - 2.0 * skew;
    StaysReached(cfg, b, end, at - skew, cfg.Capacity());
  }

  /** What ties the in-memory buckets to the store that may have forgotten some of them. */
  ghost predicate Simulates(cfg: Config, buckets: map<string, Bucket>, store: Store, skew: real, clock: real) {
    && (forall p :: p in store ==> p in buckets && Remembers(cfg, buckets[p], store[p], skew, clock))
    && (forall p :: p in buckets && p !in store ==> Reaches(cfg, buckets[p], clock - skew, cfg.Capacity()))
  }

  ghost predicate Remembers(cfg: Config, b: Bucket, e: Entry, skew: real, clock: real) {
    && e.tokens == b.tokens && e.updated == b.updated
    && e.deadline - Ttl(cfg) as real <= clock
    && Reaches(cfg, b, e.deadline - Ttl(cfg) as real + skew, Floor(cfg))
  }

  lemma SameAnswer(
    cfg: Config, buckets: map<string, Bucket>, store: Store, skew: real, clock: real, r: Request, at: real)
    requires cfg.rate >= 0.0 && Simulates(cfg, buckets, store, skew, clock)
    requires clock <= at && at - skew <= r.call.now
    ensures Step(cfg, Unstored(store, r.principal), r.call) == Step(cfg, Lookup(buckets, r.principal), r.call)
  {
    var p := r.principal;
    if p in store {
      assert Remembers(cfg, buckets[p], store[p], skew, clock);
    } else if p in buckets {
      StaysReached(cfg, buckets[p], clock - skew, r.call.now, cfg.Capacity());
    }
  }

  lemma {:induction false} WriteRemembered(
    cfg: Config, buckets: map<string, Bucket>, store: Store, skew: real, clock: real, r: Request, at: real)
    requires cfg.rate >= 0.0 && Simulates(cfg, buckets, store, skew, clock)
    requires clock <= at && at - skew <= r.call.now <= at + skew
    ensures var b := Step(cfg, Lookup(buckets, r.principal), r.call).0;
            Remembers(cfg, b, Entry(b.tokens, b.updated, at + Ttl(cfg) as real), skew, at)
  {
    var p := r.principal;
    if p in store {
      assert Remembers(cfg, buckets[p], store[p], skew, clock);
      StaysReached(cfg, buckets[p], store[p].deadline - Ttl(cfg) as real + skew, at + skew, Floor(cfg));
    } else if p in buckets {
      StaysReached(cfg, buckets[p], clock - skew, at + skew, cfg.Capacity());
      assert Reaches(cfg, buckets[p], at + skew, Floor(cfg));
    }
    StepReachesFloor(cfg, Lookup(buckets, p), r.call, at + skew);
  }

  lemma {:induction false} RequestSimulated(
    cfg: Config, buckets: map<string, Bucket>, store: Store, skew: real, clock: real, r: Request, at: real)
    requires cfg.rate >= 0.0 && Simulates(cfg, buckets, store, skew, clock)
    requires clock <= at && at - skew <= r.call.now <= at + skew
    ensures Execute(cfg, store, r, at).1 == Admit(cfg, buckets, r).1
    ensures Simulates(cfg, Admit(cfg, buckets, r).0, Execute(cfg, store, r, at).0, skew, at)
  {
    SameAnswer(cfg, buckets, store, skew, clock, r, at);
    WriteRemembered(cfg, buckets, store, skew, clock, r, at);
    forall q | q in store
      ensures q in buckets && Remembers(cfg, buckets[q], store[q], skew, at)
    {
      assert Remembers(cfg, buckets[q], store[q], skew, clock);
    }
    forall q | q in buckets && q !in store
      ensures Reaches(cfg, buckets[q], at - skew, cfg.Capacity())
    {
      StaysReached(cfg, buckets[q], clock - skew, at - skew, cfg.Capacity());
    }
  }

  lemma {:induction false} DropSimulated(
    cfg: Config, buckets: map<string, Bucket>, store: Store, skew: real, clock: real, key: string, at: real)
    requires Tolerates(cfg, skew) && Simulates(cfg, buckets, store, skew, clock) && clock <= at
    requires key in store && store[key].deadline <= at
    ensures Simulates(cfg, buckets, store - {key}, skew, at)
  {
    assert Remembers(cfg, buckets[key], store[key], skew, clock);
    FullAtDeadline(cfg, buckets[key], Ttl(cfg) as real, store[key].deadline - Ttl(cfg) as real, at, skew);
    forall q | q in store
      ensures q in buckets && Remembers(cfg, buckets[q], store[q], skew, at)
    {
      assert Remembers(cfg, buckets[q], store[q], skew, clock);
    }
    forall q | q in buckets && q !in store
      ensures Reaches(cfg, buckets[q], at - skew, cfg.Capacity())
    {
      StaysReached(cfg, buckets[q], clock - skew, at - skew, cfg.Capacity());
    }
  }

  lemma {:induction false} ExpirySimulated(
    cfg: Config, buckets: map<string, Bucket>, store: Store, skew: real, clock: real, events: seq<Event>)
    requires Tolerates(cfg, skew) && Simulates(cfg, buckets, store, skew, clock)
    requires Admissible(cfg, store, skew, clock, events)
    ensures RedisDecisions(cfg, store, events) == Serve(cfg, buckets, RequestsOf(events))
    decreases |events|
  {
    if events == [] {
    } else {
      var e := events[0];
      var rest := RequestsOf(events[1..]);
      match e {
        case Arrive(r, at) =>
          RequestSimulated(cfg, buckets, store, skew, clock, r, at);
          ExpirySimulated(cfg, Admit(cfg, buckets, r).0, After(cfg, store, e), skew, at, events[1..]);
          assert ([r] + rest)[1..] == rest;
        case Drop(key, at) =>
          DropSimulated(cfg, buckets, store, skew, clock, key, at);
          ExpirySimulated(cfg, buckets, After(cfg, store, e), skew, at, events[1..]);
          assert RequestsOf(events) == rest;
      }
    }
  }

  ghost predicate ExpiryInvisible(cfg: Config, skew: real) {
    forall events, start :: Admissible(cfg, map[], skew, start, events) ==>
      RedisDecisions(cfg, map[], events) == Serve(cfg, map[], RequestsOf(events))
  }

  // ---- The run that shows an expiry ----

  /** Spend with a clock `x` ahead of the server's, idle until the key may go, and ask with one as far behind. */
  function SpendIdleAsk(cfg: Config, x: real): seq<Event> {
    var ttl := Ttl(cfg) as real;
    [Arrive(Request("p", Spend(cfg, x)), 0.0), Drop("p", ttl), Arrive(Request("p", Ask(cfg, x)), ttl)]
  }

  function Spend(cfg: Config, x: real): Call {
    Call(x, Max(0.0, cfg.Capacity()))
  }

  function Ask(cfg: Config, x: real): Call {
    Call(Ttl(cfg) as real - x, cfg.Capacity())
  }

  lemma SpendIdleAskRequests(cfg: Config, x: real)
    ensures RequestsOf(SpendIdleAsk(cfg, x)) == [Request("p", Spend(cfg, x)), Request("p", Ask(cfg, x))]
  {
    var events := SpendIdleAsk(cfg, x);
    assert events[1..] == [events[1], events[2]] && events[1..][1..] == [events[2]] && events[1..][1..][1..] == [];
    assert RequestsOf([events[2]]) == [events[2].request];
    assert RequestsOf(events[1..]) == RequestsOf([events[2]]);
  }

  /** Dropping its only key empties a store, and an empty store starts a principal afresh. */
  lemma DropThenAsk(cfg: Config, store: Store, drop: Event, ask: Event, skew: real)
    requires drop.Drop? && ask.Arrive? && ask.at == drop.at
    requires store.Keys == {drop.key} && store[drop.key].deadline == drop.at >= 0.0
    requires ask.at - skew <= ask.request.call.now <= ask.at + skew
    ensures Admissible(cfg, store, skew, 0.0, [drop, ask])
    ensures RedisDecisions(cfg, store, [drop, ask]) == [cfg.Capacity() >= ask.request.call.cost]
  {
    assert [drop, ask][1..] == [ask] && [ask][1..] == [];
    assert After(cfg, store, drop) == map[];
    assert RedisDecisions(cfg, map[], [ask]) == [cfg.Capacity() >= ask.request.call.cost];
    assert Admissible(cfg, map[], skew, drop.at, [ask]);
  }

  lemma {:induction false} SpendIdleAskRun(cfg: Config, x: real, skew: real)
    requires 0.0 <= x <= skew
    ensures Admissible(cfg, map[], skew, 0.0, SpendIdleAsk(cfg, x))
    ensures RedisDecisions(cfg, map[], SpendIdleAsk(cfg, x)) == [cfg.burst >= 0, true]
  {
    var events := SpendIdleAsk(cfg, x);
    var store := After(cfg, map[], events[0]);
    DropThenAsk(cfg, store, events[1], events[2], skew);
    assert events[1..] == [events[1], events[2]];
  }

  lemma {:induction false} SpendAskInMemory(cfg: Config, x: real)
    requires Accrued(cfg, Ttl(cfg) as real - 2.0 * x) < Max(0.0, cfg.Capacity())
    ensures Serve(cfg, map[], [Request("p", Spend(cfg, x)), Request("p", Ask(cfg, x))]) == [cfg.burst >= 0, false]
  {
    var r, r' := Request("p", Spend(cfg, x)), Request("p", Ask(cfg, x));
    assert [r, r'][1..] == [r'] && [r'][1..] == [];
    var next := Admit(cfg, map[], r).0;
    var b := Step(cfg, None, r.call).0;
    assert Lookup(next, "p") == Some(b) && b.updated == x && b.tokens == Floor(cfg);
    assert r'.call.now - b.updated == Ttl(cfg) as real - 2.0 * x;
    assert Level(cfg, Some(b), r'.call.now) < cfg.Capacity();
    assert Serve(cfg, next, [r']) == [false];
  }

  /** A reading within the skew at which the refill falls short. */
  function ShortBy(cfg: Config, skew: real): real {
    if cfg.rate >= 0.0 then skew else 0.0
  }

  lemma FallsShort(cfg: Config, skew: real)
    requires skew >= 0.0 && !Tolerates(cfg, skew)
    ensures Accrued(cfg, Ttl(cfg) as real - 2.0 * ShortBy(cfg, skew)) < Max(0.0, cfg.Capacity())
  {
    if cfg.rate < 0.0 {
      assert 3600.0 * cfg.rate < 0.0;
    }
  }

  /**
   * Key expiry changes no decision on any trace, of any callers whose clocks stay within the skew of the server's,
   * exactly when that skew is tolerated.
   */
  lemma {:induction false} ExpiryInvisibleExactly(cfg: Config, skew: real)
    requires skew >= 0.0
    ensures ExpiryInvisible(cfg, skew) <==> Tolerates(cfg, skew)
  {
    if Tolerates(cfg, skew) {
      forall events, start | Admissible(cfg, map[], skew, start, events)
        ensures RedisDecisions(cfg, map[], events) == Serve(cfg, map[], RequestsOf(events))
      {
        ExpirySimulated(cfg, map[], map[], skew, start, events);
      }
    } else {
      var x := ShortBy(cfg, skew);
      FallsShort(cfg, skew);
      SpendIdleAskRun(cfg, x, skew);
      SpendIdleAskRequests(cfg, x);
      SpendAskInMemory(cfg, x);
      assert RedisDecisions(cfg, map[], SpendIdleAsk(cfg, x))[1];
      assert !Serve(cfg, map[], RequestsOf(SpendIdleAsk(cfg, x)))[1];
    }
  }

  // ---- Bounded memory ----

  function StoreAfter(cfg: Config, store: Store, events: seq<Event>): Store
    decreases |events|
  {
    if events == [] then store else StoreAfter(cfg, After(cfg, store, events[0]), events[1..])
  }

  /** A key the server must still hold belongs to a principal that called within the last `Ttl` seconds. */
  lemma {:induction false} LiveKeysAreRecent(cfg: Config, store: Store, events: seq<Event>, key: string, clock: real)
    requires key in StoreAfter(cfg, store, events) && StoreAfter(cfg, store, events)[key].deadline > clock
    ensures (key in store && store[key].deadline > clock)
            || exists e :: e in events && e.Arrive? && e.request.principal == key && e.at > clock - Ttl(cfg) as real
    decreases |events|
  {
    if events == [] {
    } else {
      var e := events[0];
      LiveKeysAreRecent(cfg, After(cfg, store, e), events[1..], key, clock);
      if e.Arrive? && e.request.principal == key && e.at > clock - Ttl(cfg) as real {
        assert e in events;
      }
    }
  }
}
