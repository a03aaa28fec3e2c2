/** The HTTP gateway: public paths, bearer authentication, then the per-principal limiter. */
module Gateway {
  import opened Wrappers
  import opened Text
  import opened TokenBucket
  import opened Limiter

  datatype Scope = Scope(kind: string, path: string, headers: seq<(Bytes, Bytes)>)

  /** What verifying a token comes to; the verifier itself is outside the model. */
  datatype Verdict = Principal(subject: string) | AuthError(message: string) | OtherFailure

  /** One connection: its scope, the verifier as it stands then, and the limiter's clock reading. */
  datatype Arrival = Arrival(scope: Scope, verify: string -> Verdict, now: real)

  datatype Outcome =
    | Open                       // handed to the application without authentication
    | MissingToken               // 401
    | Rejected(message: string)  // 401
    | ValidationFailed           // 401
    | Limited                    // 429
    | Served                     // handed to the application for an authenticated principal

  const PUBLIC_PATHS: set<string> := {"/healthz", "/readyz", "/metrics"}

  function FirstAuthorization(headers: seq<(Bytes, Bytes)>): Bytes {
    if headers == [] then []
    else if LowerBytes(headers[0].0) == AsciiBytes("authorization") then headers[0].1
    else FirstAuthorization(headers[1..])
  }

  /** How far a connection gets without the limiter. */
  datatype Screened = Done(outcome: Outcome) | Caller(subject: string)

  function Screen(a: Arrival): Screened {
    if a.scope.kind != "http" || a.scope.path in PUBLIC_PATHS then Done(Open) else
    var auth := FirstAuthorization(a.scope.headers);
    if LowerBytes(Take(auth, 7)) != AsciiBytes("bearer ") then Done(MissingToken) else
    match a.verify(Strip(Latin1(Skip(auth, 7))))
    case AuthError(message) => Done(Rejected(message))
    case OtherFailure => Done(ValidationFailed)
    case Principal(subject) => Caller(subject)
  }

  function Respond(cfg: Config, buckets: map<string, Bucket>, a: Arrival): (map<string, Bucket>, Outcome) {
    match Screen(a)
    case Done(outcome) => (buckets, outcome)
    case Caller(subject) =>
      var (next, ok) := Admit(cfg, buckets, Request(subject, Call(a.now, 1.0)));
      (next, if ok then Served else Limited)
  }

  // ---- What a connection is answered, without the order in which the code finds out ----

  predicate IsPublic(scope: Scope) {
    scope.kind != "http" || scope.path == "/healthz" || scope.path == "/readyz" || scope.path == "/metrics"
  }

  /** The word in small letters, capitals or a mixture. */
  predicate Spells(s: Bytes, word: string) {
    |s| == |word| && forall i :: 0 <= i < |s| ==> SpellsAt(s[i], word[i])
  }

  predicate SpellsAt(b: Byte, c: char) {
    b as int == c as int || ('a' <= c <= 'z' && b as int == c as int - 32)
  }

  lemma {:induction false} SpellsExactly(s: Bytes, word: string)
    requires IsAscii(word) && forall i :: 0 <= i < |word| ==> !('A' <= word[i] <= 'Z')
    ensures Spells(s, word) <==> LowerBytes(s) == AsciiBytes(word)
  {
    var low, w := LowerBytes(s), AsciiBytes(word);
    if |s| == |word| {
      forall i | 0 <= i < |s|
        ensures SpellsAt(s[i], word[i]) <==> low[i] == w[i]
      {
      }
    }
  }

  predicate IsAuthorization(name: Bytes) {
    Spells(name, "authorization")
  }

  /** `auth` is the value of the first authorization header, or nothing without one. */
  ghost predicate Authorizes(headers: seq<(Bytes, Bytes)>, auth: Bytes) {
    || (exists i :: 0 <= i < |headers| && IsAuthorization(headers[i].0) && headers[i].1 == auth
                    && forall j :: 0 <= j < i ==> !IsAuthorization(headers[j].0))
    || (auth == [] && forall j :: 0 <= j < |headers| ==> !IsAuthorization(headers[j].0))
  }

  predicate IsBearer(auth: Bytes) {
    |auth| >= 7 && Spells(auth[..7], "bearer ")
  }

  function Verified(a: Arrival, auth: Bytes): Verdict
    requires IsBearer(auth)
  {
    a.verify(Strip(Latin1(auth[7..])))
  }

  /** Open exactly for public paths; 401 for exactly the reason there is; else served or limited. */
  ghost predicate Decided(a: Arrival, auth: Bytes, outcome: Outcome) {
    && (outcome == Open <==> IsPublic(a.scope))
    && (outcome == MissingToken <==> !IsPublic(a.scope) && !IsBearer(auth))
    && (!IsPublic(a.scope) && IsBearer(auth) ==>
          && (forall m :: outcome == Rejected(m) <==> Verified(a, auth) == AuthError(m))
          && (outcome == ValidationFailed <==> Verified(a, auth) == OtherFailure)
          && (outcome == Served || outcome == Limited <==> Verified(a, auth).Principal?))
  }

  lemma {:induction false} FirstAuthorizationFound(headers: seq<(Bytes, Bytes)>, auth: Bytes)
    requires Authorizes(headers, auth)
    ensures FirstAuthorization(headers) == auth
  {
    if headers != [] {
      SpellsExactly(headers[0].0, "authorization");
    }
    if headers == [] || IsAuthorization(headers[0].0) {
    } else {
      if i :| 0 <= i < |headers| && IsAuthorization(headers[i].0) && headers[i].1 == auth
              && forall j :: 0 <= j < i ==> !IsAuthorization(headers[j].0) {
        assert headers[1..][i - 1] == headers[i];
        assert forall j :: 0 <= j < i - 1 ==> headers[1..][j] == headers[j + 1];
      }
      FirstAuthorizationFound(headers[1..], auth);
    }
  }

  /** Screening answers what the limiter is not asked about, and passes on exactly the verified principals. */
  ghost predicate Screens(a: Arrival, auth: Bytes, s: Screened) {
    match s
    case Done(outcome) => Decided(a, auth, outcome) && outcome != Served && outcome != Limited
    case Caller(subject) => !IsPublic(a.scope) && IsBearer(auth) && Verified(a, auth) == Principal(subject)
  }

  lemma {:induction false} ScreenExactly(a: Arrival, auth: Bytes)
    requires Authorizes(a.scope.headers, auth)
    ensures Screens(a, auth, Screen(a))
  {
    FirstAuthorizationFound(a.scope.headers, auth);
    SpellsExactly(Take(auth, 7), "bearer ");
  }

  /** Only a verified principal reaches the limiter, for one token, filed under that principal. */
  lemma {:induction false} RespondExactly(cfg: Config, buckets: map<string, Bucket>, a: Arrival, auth: Bytes)
    requires Authorizes(a.scope.headers, auth)
    ensures var (next, outcome) := Respond(cfg, buckets, a);
            && Decided(a, auth, outcome)
            && (if outcome == Served || outcome == Limited then
                  (next, outcome == Served)
                  == Admit(cfg, buckets, Request(Verified(a, auth).subject, Call(a.now, 1.0)))
                else next == buckets)
  {
    ScreenExactly(a, auth);
  }

  /** The gateway up to its limiter: the header scan and the early returns. */
  method ScreenConnection(a: Arrival) returns (s: Screened)
    ensures s == Screen(a)
    ensures forall auth :: Authorizes(a.scope.headers, auth) ==> Screens(a, auth, s)
  {
    forall auth | Authorizes(a.scope.headers, auth)
      ensures Screens(a, auth, Screen(a))
    {
      ScreenExactly(a, auth);
    }
    if a.scope.kind != "http" || a.scope.path in PUBLIC_PATHS {
      return Done(Open);
    }
    var auth: Bytes := [];
    var headers := a.scope.headers;
    var i := 0;
    while i < |headers|
      invariant 0 <= i <= |headers|
      invariant auth == []
      invariant FirstAuthorization(headers[i..]) == FirstAuthorization(headers)
    {
      if LowerBytes(headers[i].0) == AsciiBytes("authorization") {
        auth := headers[i].1;
        break;
      }
      i := i + 1;
    }
    assert auth == FirstAuthorization(headers);
    if LowerBytes(Take(auth, 7)) != AsciiBytes("bearer ") {
      return Done(MissingToken);
    }
    match a.verify(Strip(Latin1(Skip(auth, 7)))) {
      case AuthError(message) => return Done(Rejected(message));
      case OtherFailure => return Done(ValidationFailed);
      case Principal(subject) => return Caller(subject);
    }
  }

  class GatewayApp {
    const limiter: TokenBucketLimiter

    constructor (rate: real, burst: int)
      ensures fresh(limiter) && limiter.Valid() && limiter.View() == map[] && limiter.cfg == Config(rate, burst)
    {
      limiter := new TokenBucketLimiter(rate, burst);
    }

    method Handle(a: Arrival) returns (outcome: Outcome)
      requires limiter.Valid()
      modifies limiter, limiter.buckets.Values
      ensures limiter.Valid() && fresh(limiter.buckets.Values - old(limiter.buckets.Values))
      ensures (limiter.View(), outcome) == Respond(limiter.cfg, old(limiter.View()), a)
      ensures forall auth :: Authorizes(a.scope.headers, auth) ==> Decided(a, auth, outcome)
    {
      forall auth | Authorizes(a.scope.headers, auth)
        ensures Decided(a, auth, Respond(limiter.cfg, limiter.View(), a).1)
      {
        RespondExactly(limiter.cfg, limiter.View(), a, auth);
      }
      var screened := ScreenConnection(a);
      match screened {
        case Done(o) => return o;
        case Caller(subject) =>
          var ok := limiter.Allow(subject, 1.0, a.now);
          return if ok then Served else Limited;
      }
    }
  }

  // ---- Whole runs ----

  function Outcomes(cfg: Config, buckets: map<string, Bucket>, arrivals: seq<Arrival>): (out: seq<Outcome>)
    ensures |out| == |arrivals|
    decreases |arrivals|
  {
    if arrivals == [] then [] else
    var (next, outcome) := Respond(cfg, buckets, arrivals[0]);
    [outcome] + Outcomes(cfg, next, arrivals[1..])
  }

  /** The connections that reach the limiter, as the requests it sees. */
  function LimiterTrace(arrivals: seq<Arrival>): seq<Request> {
    if arrivals == [] then [] else
    (match Screen(arrivals[0])
     case Done(_) => []
     case Caller(subject) => [Request(subject, Call(arrivals[0].now, 1.0))])
    + LimiterTrace(arrivals[1..])
  }

  /** Of those connections, which were served. */
  function LimiterAnswers(arrivals: seq<Arrival>, out: seq<Outcome>): seq<bool>
    requires |arrivals| == |out|
  {
    if arrivals == [] then [] else
    (if Screen(arrivals[0]).Caller? then [out[0] == Served] else []) + LimiterAnswers(arrivals[1..], out[1..])
  }

  /** Screening alone decides every connection it can; the rest are served or limited, as one limiter run decides. */
  lemma {:induction false} GatewayRun(cfg: Config, buckets: map<string, Bucket>, arrivals: seq<Arrival>)
    ensures var out := Outcomes(cfg, buckets, arrivals);
            && (forall i :: 0 <= i < |arrivals| ==>
                  match Screen(arrivals[i])
                  case Done(o) => out[i] == o
                  case Caller(_) => out[i] == Served || out[i] == Limited)
            && LimiterAnswers(arrivals, out) == Serve(cfg, buckets, LimiterTrace(arrivals))
    decreases |arrivals|
  {
    if arrivals == [] {
    } else {
      var a, rest := arrivals[0], arrivals[1..];
      var (next, o) := Respond(cfg, buckets, a);
      GatewayRun(cfg, next, rest);
      var out := Outcomes(cfg, buckets, arrivals);
      assert out == [o] + Outcomes(cfg, next, rest) && out[1..] == Outcomes(cfg, next, rest);
      forall i | 0 <= i < |arrivals|
        ensures match Screen(arrivals[i])
                case Done(o) => out[i] == o
                case Caller(_) => out[i] == Served || out[i] == Limited
      {
        if i > 0 {
          assert arrivals[i] == rest[i - 1] && out[i] == out[1..][i - 1];
        }
      }
      if Screen(a).Caller? {
        var r := Request(Screen(a).subject, Call(a.now, 1.0));
        assert ([r] + LimiterTrace(rest))[1..] == LimiterTrace(rest);
      } else {
        assert LimiterTrace(arrivals) == LimiterTrace(rest);
        assert LimiterAnswers(arrivals, out) == LimiterAnswers(rest, out[1..]);
      }
    }
  }

  function AnswersOf(cfg: Config, arrivals: seq<Arrival>, subject: string): seq<bool> {
    var trace := LimiterTrace(arrivals);
    AnswersTo(trace, Serve(cfg, map[], trace), subject)
  }

  /**
   * What a principal is answered is one bucket run over that principal's own verified calls: public, rejected and
   * other principals' connections, in any number and order, never show.
   */
  lemma {:induction false} Noninterference(
    cfg: Config, arrivals: seq<Arrival>, arrivals': seq<Arrival>, subject: string)
    requires CallsOf(LimiterTrace(arrivals), subject) == CallsOf(LimiterTrace(arrivals'), subject)
    ensures AnswersOf(cfg, arrivals, subject) == AnswersOf(cfg, arrivals', subject)
            == Run(cfg, None, CallsOf(LimiterTrace(arrivals), subject))
  {
    PrincipalsIsolated(cfg, map[], LimiterTrace(arrivals), subject);
    PrincipalsIsolated(cfg, map[], LimiterTrace(arrivals'), subject);
  }

  lemma {:induction false} UnitCosts(requests: seq<Request>, subject: string)
    requires forall k :: 0 <= k < |requests| ==> requests[k].call.cost == 1.0
    ensures forall k :: 0 <= k < |CallsOf(requests, subject)| ==> CallsOf(requests, subject)[k].cost == 1.0
  {
    if requests == [] {
    } else {
      UnitCosts(requests[1..], subject);
    }
  }

  lemma {:induction false} NoRefillRun(cfg: Config, ob: Option<Bucket>, left: int, calls: seq<Call>)
    requires cfg.rate == 0.0 && left <= cfg.burst
    requires if ob.None? then left == cfg.burst else ob.value.tokens == left as real
    requires forall k :: 0 <= k < |calls| ==> calls[k].cost == 1.0
    ensures forall k :: 0 <= k < |calls| ==> Run(cfg, ob, calls)[k] == (k < left)
    decreases |calls|
  {
    if calls == [] {
    } else {
      var (b, ok) := Step(cfg, ob, calls[0]);
      assert ob.Some? ==> Accrued(cfg, calls[0].now - ob.value.updated) == 0.0;
      assert Level(cfg, ob, calls[0].now) == left as real;
      NoRefillRun(cfg, Some(b), if ok then left - 1 else left, calls[1..]);
      assert Run(cfg, ob, calls) == [ok] + Run(cfg, Some(b), calls[1..]);
    }
  }

  lemma {:induction false} TraceCosts(arrivals: seq<Arrival>)
    ensures forall k :: 0 <= k < |LimiterTrace(arrivals)| ==> LimiterTrace(arrivals)[k].call.cost == 1.0
  {
    if arrivals == [] {
    } else {
      TraceCosts(arrivals[1..]);
    }
  }

  /** With no refill a principal is served exactly the first `burst` verified requests, whatever else arrives. */
  lemma {:induction false} NoRefillServesOneBurst(cfg: Config, arrivals: seq<Arrival>, subject: string, k: nat)
    requires cfg.rate == 0.0 && k < |AnswersOf(cfg, arrivals, subject)|
    ensures AnswersOf(cfg, arrivals, subject)[k] <==> k < cfg.burst
  {
    var trace := LimiterTrace(arrivals);
    Noninterference(cfg, arrivals, arrivals, subject);
    TraceCosts(arrivals);
    UnitCosts(trace, subject);
    NoRefillRun(cfg, None, cfg.burst, CallsOf(trace, subject));
  }

  lemma {:induction false} NothingFits(cfg: Config, ob: Option<Bucket>, calls: seq<Call>)
    requires forall k :: 0 <= k < |calls| ==> calls[k].cost > cfg.Capacity()
    ensures forall k :: 0 <= k < |calls| ==> !Run(cfg, ob, calls)[k]
    decreases |calls|
  {
    if calls == [] {
    } else {
      NothingFits(cfg, Some(Step(cfg, ob, calls[0]).0), calls[1..]);
    }
  }

  lemma {:induction false} KeepMembers<T>(s: seq<T>, keep: seq<bool>, p: T -> bool)
    requires |s| == |keep| && forall k :: 0 <= k < |s| ==> p(s[k])
    ensures forall k :: 0 <= k < |Keep(s, keep)| ==> p(Keep(s, keep)[k])
  {
    if s == [] {
    } else {
      KeepMembers(s[1..], keep[1..], p);
    }
  }

  lemma {:induction false} KeepLengths<T, U>(s: seq<T>, t: seq<U>, keep: seq<bool>)
    requires |s| == |t| == |keep|
    ensures |Keep(s, keep)| == |Keep(t, keep)|
  {
    if s == [] {
    } else {
      KeepLengths(s[1..], t[1..], keep[1..]);
    }
  }

  /**
   * A denied request never hurts its principal: with any of them left out, all other answers are the same, whatever the
   * clock reads and whatever else arrives. A request costs one token, which fits, or nothing is ever admitted.
   */
  lemma {:induction false} DeniedRequestsNeverHurt(
    cfg: Config, arrivals: seq<Arrival>, subject: string, keep: seq<bool>)
    requires OnlyDenied(AnswersOf(cfg, arrivals, subject), keep)
    ensures |keep| == |CallsOf(LimiterTrace(arrivals), subject)|
    ensures Run(cfg, None, Keep(CallsOf(LimiterTrace(arrivals), subject), keep))
            == Keep(AnswersOf(cfg, arrivals, subject), keep)
  {
    var calls := CallsOf(LimiterTrace(arrivals), subject);
    Noninterference(cfg, arrivals, arrivals, subject);
    TraceCosts(arrivals);
    UnitCosts(LimiterTrace(arrivals), subject);
    if 1.0 <= cfg.Capacity() {
      DeniedCallsInvisible(cfg, None, calls, keep);
    } else {
      NothingFits(cfg, None, calls);
      KeepMembers(calls, keep, (c: Call) => c.cost == 1.0);
      NothingFits(cfg, None, Keep(calls, keep));
      KeepMembers(Run(cfg, None, calls), keep, (ok: bool) => !ok);
      KeepLengths(calls, Run(cfg, None, calls), keep);
    }
  }
}
