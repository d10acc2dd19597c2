/** The per-client token bucket: bounded in size, forgetting clients once they have refilled.
    Keys are opaque, clock readings and tokens exact. */
module RateLimiting {

  datatype Config = Config(capacity: nat, perSecond: real, maxClients: nat) {
    predicate Valid() {
      1 <= capacity && 0.0 < perSecond && 1 <= maxClients
    }

    function RefillSeconds(): real
      requires Valid()
    {
      capacity as real / perSecond
    }
  }

  datatype Bucket = Bucket(key: string, tokens: real, seen: real)

  function Min(x: real, y: real): real {
    if x <= y then x else y
  }

  function Ceil(x: real): int {
    -(-x).Floor
  }

  predicate Stale(cfg: Config, b: Bucket, now: real)
    requires cfg.Valid()
  {
    cfg.RefillSeconds() <= now - b.seen
  }

  /** Drop refilled clients from the front, the longest unseen first. */
  function Prune(cfg: Config, buckets: seq<Bucket>, now: real): seq<Bucket>
    requires cfg.Valid()
  {
    if buckets == [] || !Stale(cfg, buckets[0], now) then buckets
    else Prune(cfg, buckets[1..], now)
  }

  /** Position of the client's bucket, or the number of buckets when it has none. */
  function IndexOf(buckets: seq<Bucket>, key: string): (i: nat)
    ensures i <= |buckets|
    ensures i < |buckets| ==> buckets[i].key == key
    ensures forall j | 0 <= j < i :: buckets[j].key != key
  {
    if buckets == [] || buckets[0].key == key then 0 else 1 + IndexOf(buckets[1..], key)
  }

  predicate Has(buckets: seq<Bucket>, key: string) {
    IndexOf(buckets, key) < |buckets|
  }

  /** The stored bucket, or a full one for a client not seen before. */
  function Fetch(cfg: Config, buckets: seq<Bucket>, key: string, now: real): Bucket {
    if Has(buckets, key) then buckets[IndexOf(buckets, key)]
    else Bucket(key, cfg.capacity as real, now)
  }

  function Without(buckets: seq<Bucket>, key: string): seq<Bucket> {
    var i := IndexOf(buckets, key);
    if i < |buckets| then buckets[..i] + buckets[i + 1..] else buckets
  }

  /** The tokens that so much time refills. */
  function Earn(elapsed: real, perSecond: real): real {
    elapsed * perSecond
  }

  function Refill(cfg: Config, b: Bucket, now: real): real {
    Min(cfg.capacity as real, b.tokens + Earn(now - b.seen, cfg.perSecond))
  }

  function WaitFor(cfg: Config, tokens: real): int
    requires cfg.Valid()
  {
    if 1.0 <= tokens then 0
    else
      var due := Ceil((1.0 - tokens) / cfg.perSecond);
      if due < 1 then 1 else due
  }

  function Spend(tokens: real): real {
    if 1.0 <= tokens then tokens - 1.0 else tokens
  }

  /** Evict the longest unseen clients beyond the bound. */
  function Evict(cfg: Config, buckets: seq<Bucket>): seq<Bucket> {
    if |buckets| <= cfg.maxClients then buckets else buckets[|buckets| - cfg.maxClients..]
  }

  datatype Outcome = Outcome(buckets: seq<Bucket>, wait: int)

  /** The buckets after one call and before the size bound is applied. */
  function Touch(cfg: Config, buckets: seq<Bucket>, key: string, now: real): seq<Bucket>
    requires cfg.Valid()
  {
    var kept := Prune(cfg, buckets, now);
    var tokens := Refill(cfg, Fetch(cfg, kept, key, now), now);
    Without(kept, key) + [Bucket(key, Spend(tokens), now)]
  }

  function AcquireSpec(cfg: Config, buckets: seq<Bucket>, key: string, now: real): Outcome
    requires cfg.Valid()
  {
    var tokens := Refill(cfg, Fetch(cfg, Prune(cfg, buckets, now), key, now), now);
    Outcome(Evict(cfg, Touch(cfg, buckets, key, now)), WaitFor(cfg, tokens))
  }

  /** Distinct clients in last-seen order up to `now`, bounded in number and in tokens. */
  ghost predicate Inv(cfg: Config, buckets: seq<Bucket>, now: real) {
    && |buckets| <= cfg.maxClients
    && Ordered(cfg, buckets, now)
  }

  ghost predicate Ordered(cfg: Config, buckets: seq<Bucket>, now: real) {
    && (forall i, j | 0 <= i < j < |buckets| ::
          buckets[i].key != buckets[j].key && buckets[i].seen <= buckets[j].seen)
    && (forall i | 0 <= i < |buckets| ::
          0.0 <= buckets[i].tokens <= cfg.capacity as real && buckets[i].seen <= now)
  }

  class RateLimiter {
    const cfg: Config
    var buckets: seq<Bucket>   // the ordered dictionary, oldest entry first

    constructor (capacity: nat, perSecond: real, maxClients: nat)
      requires Config(capacity, perSecond, maxClients).Valid()
      ensures cfg == Config(capacity, perSecond, maxClients) && buckets == []
    {
      cfg := Config(capacity, perSecond, maxClients);
      buckets := [];
    }

    method PopKey(key: string, now: real) returns (b: Bucket)
      modifies this
      ensures b == Fetch(cfg, old(buckets), key, now) && buckets == Without(old(buckets), key)
    {
      for i := 0 to |buckets|
        invariant buckets == old(buckets)
        invariant forall j | 0 <= j < i :: buckets[j].key != key
      {
        if buckets[i].key == key {
          b := buckets[i];
          assert IndexOf(buckets, key) == i;
          buckets := buckets[..i] + buckets[i + 1..];
          return;
        }
      }
      return Bucket(key, cfg.capacity as real, now);
    }

    method DropStale(now: real)
      requires cfg.Valid()
      modifies this
      ensures buckets == Prune(cfg, old(buckets), now)
    {
      while buckets != []
        invariant Prune(cfg, buckets, now) == Prune(cfg, old(buckets), now)
        decreases |buckets|
      {
        var oldest := buckets[0];
        if now - oldest.seen < cfg.RefillSeconds() {
          break;
        }
        buckets := buckets[1..];
      }
    }

    method DropExcess()
      modifies this
      ensures buckets == Evict(cfg, old(buckets))
    {
      while cfg.maxClients < |buckets|
        invariant Evict(cfg, buckets) == Evict(cfg, old(buckets))
        decreases |buckets|
      {
        buckets := buckets[1..];
      }
    }

    /** Spend one token: 0 when allowed, else the whole seconds until one is due. */
    method Acquire(key: string, now: real) returns (wait: int)
      requires cfg.Valid()
      modifies this
      ensures Outcome(buckets, wait) == AcquireSpec(cfg, old(buckets), key, now)
    {
      DropStale(now);
      var bucket := PopKey(key, now);
      var tokens := Refill(cfg, bucket, now);
      wait := WaitFor(cfg, tokens);
      buckets := buckets + [Bucket(key, Spend(tokens), now)];
      DropExcess();
    }
  }

  // ----- One call -----

  lemma {:induction false} PruneFacts(cfg: Config, buckets: seq<Bucket>, now: real)
    requires cfg.Valid() && Ordered(cfg, buckets, now)
    ensures Ordered(cfg, Prune(cfg, buckets, now), now) && |Prune(cfg, buckets, now)| <= |buckets|
    ensures forall b | b in Prune(cfg, buckets, now) :: b in buckets
    ensures forall b | b in buckets && b !in Prune(cfg, buckets, now) :: Stale(cfg, b, now)
  {
    if buckets != [] && Stale(cfg, buckets[0], now) {
      PruneFacts(cfg, buckets[1..], now);
      assert buckets == [buckets[0]] + buckets[1..];
    }
  }
}
