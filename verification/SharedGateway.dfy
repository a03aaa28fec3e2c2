/** Any number of gateways over one Redis limiter, as one gateway with an in-memory limiter. */
module SharedGateway {
  import opened Wrappers
  import opened TokenBucket
  import opened Limiter
  import opened Gateway
  import R = RedisLimiter
  import Text

  /** What the limiter files a principal under. */
  function KeyOf(namespace: string, subject: string): string {
    namespace + ":" + subject
  }

  lemma KeysDiffer(namespace: string, subject: string, other: string)
    ensures KeyOf(namespace, subject) == KeyOf(namespace, other) <==> subject == other
  {
    var n := |namespace| + 1;
    assert KeyOf(namespace, subject)[n..] == subject && KeyOf(namespace, other)[n..] == other;
  }

  function AsRequest(namespace: string, subject: string, now: real): Request {
    Request(KeyOf(namespace, subject), Call(now, 1.0))
  }

  function RespondShared(cfg: Config, namespace: string, store: R.Store, a: Arrival, at: real): (R.Store, Outcome) {
    match Screen(a)
    case Done(outcome) => (store, outcome)
    case Caller(subject) =>
      var (next, ok) := R.Execute(cfg, store, AsRequest(namespace, subject, a.now), at);
      (next, if ok then Served else Limited)
  }

  /** As over the in-memory limiter, with the token taken under the principal's key of the shared store. */
  lemma {:induction false} RespondSharedExactly(
    cfg: Config, namespace: string, store: R.Store, a: Arrival, at: real, auth: Text.Bytes)
    requires Authorizes(a.scope.headers, auth)
    ensures var (next, outcome) := RespondShared(cfg, namespace, store, a, at);
            && Decided(a, auth, outcome)
            && (if outcome == Served || outcome == Limited then
                  (next, outcome == Served)
                  == R.Execute(cfg, store, Request(namespace + ":" + Verified(a, auth).subject, Call(a.now, 1.0)), at)
                else next == store)
  {
    ScreenExactly(a, auth);
  }

  /** One of the gateways: its own limiter object on the shared server. */
  class SharedGatewayApp {
    const limiter: R.RedisTokenBucketLimiter

    constructor (server: R.RedisServer, rate: real, burst: int, namespace: string)
      ensures limiter.server == server && limiter.cfg == Config(rate, burst) && limiter.namespace == namespace
    {
      limiter := new R.RedisTokenBucketLimiter(server, rate, burst, namespace);
    }

    method Handle(a: Arrival, at: real) returns (outcome: Outcome)
      modifies limiter.server
      ensures (limiter.server.store, outcome)
              == RespondShared(limiter.cfg, limiter.namespace, old(limiter.server.store), a, at)
      ensures forall auth :: Authorizes(a.scope.headers, auth) ==> Decided(a, auth, outcome)
    {
      forall auth | Authorizes(a.scope.headers, auth)
        ensures Decided(a, auth, RespondShared(limiter.cfg, limiter.namespace, limiter.server.store, a, at).1)
      {
        RespondSharedExactly(limiter.cfg, limiter.namespace, limiter.server.store, a, at, auth);
      }
      var screened := ScreenConnection(a);
      match screened {
        case Done(o) => return o;
        case Caller(subject) =>
          var ok := limiter.Allow(subject, 1.0, a.now, at);
          return if ok then Served else Limited;
      }
    }
  }

  // ---- Runs of all gateways together ----

  /** A connection at any of the gateways, read on that gateway's clock, or the server dropping an expired key. */
  datatype Event = Connect(arrival: Arrival, at: real) | Expire(key: string, at: real)

  function After(cfg: Config, namespace: string, store: R.Store, e: Event): R.Store {
    match e
    case Connect(a, at) => RespondShared(cfg, namespace, store, a, at).0
    case Expire(key, _) => store - {key}
  }

  /** The server's clock never goes back, and the reading of every verified connection is within `skew` of it. */
  ghost predicate Admissible(
    cfg: Config, namespace: string, store: R.Store, skew: real, clock: real, events: seq<Event>)
    decreases |events|
  {
    events == [] ||
    (var e := events[0];
     && clock <= e.at
     && (e.Connect? && Screen(e.arrival).Caller? ==> e.at - skew <= e.arrival.now <= e.at + skew)
     && (e.Expire? ==> e.key in store && store[e.key].deadline <= e.at)
     && Admissible(cfg, namespace, After(cfg, namespace, store, e), skew, e.at, events[1..]))
  }

  function ArrivalsOf(events: seq<Event>): seq<Arrival> {
    if events == [] then [] else (if events[0].Connect? then [events[0].arrival] else []) + ArrivalsOf(events[1..])
  }

  function SharedOutcomes(cfg: Config, namespace: string, store: R.Store, events: seq<Event>): seq<Outcome>
    decreases |events|
  {
    if events == [] then [] else
    var e := events[0];
    (if e.Connect? then [RespondShared(cfg, namespace, store, e.arrival, e.at).1] else [])
    + SharedOutcomes(cfg, namespace, After(cfg, namespace, store, e), events[1..])
  }

  // ---- As one gateway ----

  /** The same buckets, filed under keys and under principals. */
  ghost predicate Renamed(namespace: string, keyed: map<string, Bucket>, buckets: map<string, Bucket>) {
    forall s :: Lookup(keyed, KeyOf(namespace, s)) == Lookup(buckets, s)
  }

  lemma {:induction false} AdmitRenamed(
    cfg: Config, namespace: string, keyed: map<string, Bucket>, buckets: map<string, Bucket>,
    subject: string, now: real)
    requires Renamed(namespace, keyed, buckets)
    ensures var k, b := Admit(cfg, keyed, AsRequest(namespace, subject, now)),
                        Admit(cfg, buckets, Request(subject, Call(now, 1.0)));
            k.1 == b.1 && Renamed(namespace, k.0, b.0)
  {
    var k := Admit(cfg, keyed, AsRequest(namespace, subject, now)).0;
    var b := Admit(cfg, buckets, Request(subject, Call(now, 1.0))).0;
    assert Lookup(keyed, KeyOf(namespace, subject)) == Lookup(buckets, subject);
    forall s
      ensures Lookup(k, KeyOf(namespace, s)) == Lookup(b, s)
    {
      KeysDiffer(namespace, subject, s);
      assert Lookup(keyed, KeyOf(namespace, s)) == Lookup(buckets, s);
    }
  }

  /** The in-memory gateway and the store stand for the same buckets. */
  ghost predicate Follows(
    cfg: Config, namespace: string, store: R.Store, keyed: map<string, Bucket>, buckets: map<string, Bucket>,
    skew: real, clock: real)
  {
    R.Simulates(cfg, keyed, store, skew, clock) && Renamed(namespace, keyed, buckets)
  }

  /** Time alone forgets nothing. */
  lemma {:induction false} FollowsLater(
    cfg: Config, namespace: string, store: R.Store, keyed: map<string, Bucket>, buckets: map<string, Bucket>,
    skew: real, clock: real, at: real)
    requires cfg.rate >= 0.0 && clock <= at && Follows(cfg, namespace, store, keyed, buckets, skew, clock)
    ensures Follows(cfg, namespace, store, keyed, buckets, skew, at)
  {
    forall p | p in store
      ensures p in keyed && R.Remembers(cfg, keyed[p], store[p], skew, at)
    {
      assert R.Remembers(cfg, keyed[p], store[p], skew, clock);
    }
    forall p | p in keyed && p !in store
      ensures R.Reaches(cfg, keyed[p], at - skew, cfg.Capacity())
    {
      R.StaysReached(cfg, keyed[p], clock - skew, at - skew, cfg.Capacity());
    }
  }

  lemma {:induction false} ConnectFollows(
    cfg: Config, namespace: string, store: R.Store, keyed: map<string, Bucket>, buckets: map<string, Bucket>,
    skew: real, clock: real, a: Arrival, at: real)
    returns (keyed': map<string, Bucket>)
    requires cfg.rate >= 0.0 && clock <= at && Follows(cfg, namespace, store, keyed, buckets, skew, clock)
    requires Screen(a).Caller? ==> at - skew <= a.now <= at + skew
    ensures RespondShared(cfg, namespace, store, a, at).1 == Gateway.Respond(cfg, buckets, a).1
    ensures Follows(cfg, namespace, RespondShared(cfg, namespace, store, a, at).0, keyed',
                    Gateway.Respond(cfg, buckets, a).0, skew, at)
  {
    match Screen(a) {
      case Done(_) =>
        keyed' := keyed;
        FollowsLater(cfg, namespace, store, keyed, buckets, skew, clock, at);
      case Caller(subject) =>
        var r := AsRequest(namespace, subject, a.now);
        R.RequestSimulated(cfg, keyed, store, skew, clock, r, at);
        AdmitRenamed(cfg, namespace, keyed, buckets, subject, a.now);
        keyed' := Admit(cfg, keyed, r).0;
    }
  }

  lemma {:induction false} SharedFollows(
    cfg: Config, namespace: string, store: R.Store, keyed: map<string, Bucket>, buckets: map<string, Bucket>,
    skew: real, clock: real, events: seq<Event>)
    requires R.Tolerates(cfg, skew) && Follows(cfg, namespace, store, keyed, buckets, skew, clock)
    requires Admissible(cfg, namespace, store, skew, clock, events)
    ensures SharedOutcomes(cfg, namespace, store, events) == Outcomes(cfg, buckets, ArrivalsOf(events))
    decreases |events|
  {
    if events == [] {
    } else {
      var e, rest := events[0], ArrivalsOf(events[1..]);
      var next := After(cfg, namespace, store, e);
      match e {
        case Connect(a, at) =>
          var keyed' := ConnectFollows(cfg, namespace, store, keyed, buckets, skew, clock, a, at);
          SharedFollows(cfg, namespace, next, keyed', Gateway.Respond(cfg, buckets, a).0, skew, at, events[1..]);
          assert ([a] + rest)[1..] == rest;
        case Expire(key, at) =>
          R.DropSimulated(cfg, keyed, store, skew, clock, key, at);
          SharedFollows(cfg, namespace, next, keyed, buckets, skew, at, events[1..]);
          assert ArrivalsOf(events) == rest;
      }
    }
  }

  /**
   * Any number of gateways on one Redis server answer every connection as one gateway with an in-memory limiter would
   * that got all of them, in the order the server saw them, as long as the gateways' clocks stay within a tolerated
   * skew.
   */
  lemma {:induction false} ManyGatewaysAsOne(
    cfg: Config, namespace: string, skew: real, clock: real, events: seq<Event>)
    requires R.Tolerates(cfg, skew) && Admissible(cfg, namespace, map[], skew, clock, events)
    ensures SharedOutcomes(cfg, namespace, map[], events) == Outcomes(cfg, map[], ArrivalsOf(events))
  {
    SharedFollows(cfg, namespace, map[], map[], map[], skew, clock, events);
  }
}
