/** The in-memory limiter: one bucket object per principal, updated in place. */
module Limiter {
  import opened Wrappers
  import opened TokenBucket

  datatype Request = Request(principal: string, call: Call)

  function Lookup(buckets: map<string, Bucket>, principal: string): Option<Bucket> {
    if principal in buckets then Some(buckets[principal]) else None
  }

  /** One call, on values. */
  function Admit(cfg: Config, buckets: map<string, Bucket>, r: Request): (map<string, Bucket>, bool) {
    var (b, ok) := Step(cfg, Lookup(buckets, r.principal), r.call);
    (buckets[r.principal := b], ok)
  }

  /** The decisions of a whole trace of requests by any principals. */
  function Serve(cfg: Config, buckets: map<string, Bucket>, requests: seq<Request>): (ok: seq<bool>)
    ensures |ok| == |requests|
    decreases |requests|
  {
    if requests == [] then [] else
    var (next, allowed) := Admit(cfg, buckets, requests[0]);
    [allowed] + Serve(cfg, next, requests[1..])
  }

  function CallsOf(requests: seq<Request>, principal: string): seq<Call> {
    if requests == [] then [] else
    (if requests[0].principal == principal then [requests[0].call] else []) + CallsOf(requests[1..], principal)
  }

  /** The answers given to one principal. */
  function AnswersTo(requests: seq<Request>, ok: seq<bool>, principal: string): (r: seq<bool>)
    requires |requests| == |ok|
    ensures |r| == |CallsOf(requests, principal)|
  {
    if requests == [] then [] else
    (if requests[0].principal == principal then [ok[0]] else []) + AnswersTo(requests[1..], ok[1..], principal)
  }

  /** A principal is answered as if nobody else were calling. */
  lemma {:induction false} PrincipalsIsolated(
    cfg: Config, buckets: map<string, Bucket>, requests: seq<Request>, principal: string)
    ensures AnswersTo(requests, Serve(cfg, buckets, requests), principal)
            == Run(cfg, Lookup(buckets, principal), CallsOf(requests, principal))
    decreases |requests|
  {
    if requests == [] {
    } else {
      var r := requests[0];
      var (next, ok) := Admit(cfg, buckets, r);
      PrincipalsIsolated(cfg, next, requests[1..], principal);
      var rest := CallsOf(requests[1..], principal);
      assert Serve(cfg, buckets, requests)[1..] == Serve(cfg, next, requests[1..]);
      if r.principal == principal {
        assert ([r.call] + rest)[1..] == rest;
      } else {
        assert Lookup(next, principal) == Lookup(buckets, principal);
        assert CallsOf(requests, principal) == rest;
      }
    }
  }

  class BucketCell {
    var tokens: real
    var updated: real

    constructor (tokens: real, updated: real)
      ensures this.tokens == tokens && this.updated == updated
    {
      this.tokens, this.updated := tokens, updated;
    }
  }

  class TokenBucketLimiter {
    const cfg: Config
    var buckets: map<string, BucketCell>

    /** No two principals share a bucket object. */
    ghost predicate Valid()
      reads this
    {
      forall p, q :: p in buckets && q in buckets && p != q ==> buckets[p] != buckets[q]
    }

    ghost function View(): map<string, Bucket>
      reads this, buckets.Values
    {
      map p | p in buckets :: Bucket(buckets[p].tokens, buckets[p].updated)
    }

    constructor (rate: real, burst: int)
      ensures Valid() && cfg == Config(rate, burst) && View() == map[] && buckets == map[]
    {
      cfg := Config(rate, burst);
      buckets := map[];
    }

    method Allow(principal: string, cost: real, now: real) returns (allowed: bool)
      requires Valid()
      modifies this, buckets.Values
      ensures Valid() && fresh(buckets.Values - old(buckets.Values))
      ensures (View(), allowed) == Admit(cfg, old(View()), Request(principal, Call(now, cost)))
    {
      if principal !in buckets {
        var cell := new BucketCell(cfg.Capacity(), now);
        buckets := buckets[principal := cell];
      }
      var b := buckets[principal];
      ghost var found := Lookup(old(View()), principal);
      assert found.None? ==> Accrued(cfg, now - b.updated) == 0.0;
      b.tokens := Min(cfg.Capacity(), b.tokens + Accrued(cfg, now - b.updated));
      b.updated := now;
      assert b.tokens == Level(cfg, found, now);
      if b.tokens >= cost {
        b.tokens := b.tokens - cost;
        allowed := true;
      } else {
        allowed := false;
      }
      assert Bucket(b.tokens, b.updated) == Step(cfg, found, Call(now, cost)).0;
      assert View() == old(View())[principal := Bucket(b.tokens, b.updated)];
    }
  }
}
