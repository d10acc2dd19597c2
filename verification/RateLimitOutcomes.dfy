/** What one call answers and what it leaves, in the fields of the buckets. */
module RateLimitOutcomes {
  import opened RateLimiting
  import opened RateLimitTheorems

  /** The client would have refilled by now. */
  ghost predicate Refilled(cfg: Config, b: Bucket, now: real)
    requires cfg.Valid()
  {
    now - b.seen >= cfg.capacity as real / cfg.perSecond
  }

  lemma {:induction false} PruneExactly(cfg: Config, buckets: seq<Bucket>, now: real)
    requires cfg.Valid() && Ordered(cfg, buckets, now)
    ensures forall b :: b in Prune(cfg, buckets, now) <==> b in buckets && !Refilled(cfg, b, now)
  {
    if buckets != [] {
      assert buckets == [buckets[0]] + buckets[1..];
      if Refilled(cfg, buckets[0], now) {
        PruneExactly(cfg, buckets[1..], now);
      } else {
        forall b | b in buckets ensures !Refilled(cfg, b, now) {
          var i :| 0 <= i < |buckets| && buckets[i] == b;
          assert buckets[0].seen <= b.seen;
        }
      }
    }
  }

  /** Exactly the excess is evicted, and no evicted client was seen later than one that stays. */
  ghost predicate EvictsExcess(cfg: Config, touched: seq<Bucket>, kept: seq<Bucket>) {
    && |kept| == (if cfg.maxClients < |touched| then cfg.maxClients else |touched|)
    && kept == touched[|touched| - |kept|..]
    && forall i, j | 0 <= i < |touched| - |kept| && 0 <= j < |kept| ::
         touched[i].key != kept[j].key && touched[i].seen <= kept[j].seen
  }

  lemma EvictExactly(cfg: Config, touched: seq<Bucket>, now: real)
    requires Ordered(cfg, touched, now)
    ensures EvictsExcess(cfg, touched, Evict(cfg, touched))
  {
  }

  // ----- What the caller finds -----

  /** The caller's tokens: a full bucket, or what its stored one had, refilled since up to the capacity. */
  ghost predicate Finds(cfg: Config, buckets: seq<Bucket>, key: string, now: real, tokens: real) {
    if forall b | b in buckets :: b.key != key then tokens == cfg.capacity as real
    else
      exists b | b in buckets && b.key == key ::
        var refilled := b.tokens + Earn(now - b.seen, cfg.perSecond);
        tokens == if refilled < cfg.capacity as real then refilled else cfg.capacity as real
  }

  lemma LevelExactly(cfg: Config, buckets: seq<Bucket>, key: string, now: real)
    requires cfg.Valid() && Ordered(cfg, buckets, now)
    ensures Finds(cfg, buckets, key, now, Level(cfg, buckets, key, now))
  {
    HasMember(buckets, key);
    if Has(buckets, key) {
      assert buckets[IndexOf(buckets, key)] in buckets;
    } else {
      FullIsFull(cfg, key, now);
    }
  }

  predicate Suffices(cfg: Config, tokens: real, seconds: int) {
    1.0 <= tokens + Earn(seconds as real, cfg.perSecond)
  }

  /** No wait with a token to spend; otherwise the fewest whole seconds that refill one. */
  ghost predicate WaitsFor(cfg: Config, tokens: real, wait: int) {
    if 1.0 <= tokens then wait == 0
    else 1 <= wait && Suffices(cfg, tokens, wait) && forall v | 1 <= v < wait :: !Suffices(cfg, tokens, v)
  }

  lemma WaitExactly(cfg: Config, tokens: real)
    requires cfg.Valid()
    ensures WaitsFor(cfg, tokens, WaitFor(cfg, tokens))
  {
    if tokens < 1.0 {
      forall v | 1 <= v ensures Suffices(cfg, tokens, v) <==> WaitFor(cfg, tokens) <= v {
        WaitIsLeast(cfg, tokens, v);
      }
    }
  }

  // ----- One call -----

  /** The clients that have not refilled stay in order, the caller goes last with one token less if it had one,
      and the excess is evicted. */
  ghost predicate Leaves(
    cfg: Config, buckets: seq<Bucket>, key: string, now: real, tokens: real, kept: seq<Bucket>)
    requires cfg.Valid()
  {
    exists others: seq<Bucket> ::
      && (forall b :: b in others <==> b in buckets && b.key != key && !Refilled(cfg, b, now))
      && (forall i, j | 0 <= i < j < |others| ::
            others[i].key != others[j].key && others[i].seen <= others[j].seen)
      && EvictsExcess(
           cfg, others + [Bucket(key, if 1.0 <= tokens then tokens - 1.0 else tokens, now)], kept)
  }

  lemma TouchIs(cfg: Config, buckets: seq<Bucket>, key: string, now: real)
    requires cfg.Valid()
    ensures var tokens := Level(cfg, Prune(cfg, buckets, now), key, now);
            Touch(cfg, buckets, key, now)
            == Without(Prune(cfg, buckets, now), key)
               + [Bucket(key, if 1.0 <= tokens then tokens - 1.0 else tokens, now)]
  {
  }

  lemma OthersExactly(cfg: Config, buckets: seq<Bucket>, key: string, now: real, others: seq<Bucket>)
    requires cfg.Valid() && Ordered(cfg, buckets, now) && others == Without(Prune(cfg, buckets, now), key)
    ensures Ordered(cfg, others, now)
    ensures forall b :: b in others <==> b in buckets && b.key != key && !Refilled(cfg, b, now)
  {
    PruneFacts(cfg, buckets, now);
    PruneExactly(cfg, buckets, now);
    WithoutFacts(cfg, Prune(cfg, buckets, now), key, now);
  }

  /** A call on a limiter in last-seen order. */
  lemma AcquireExactly(cfg: Config, buckets: seq<Bucket>, before: real, c: Call)
    requires cfg.Valid() && Inv(cfg, buckets, before) && before <= c.now
    ensures var out := AcquireSpec(cfg, buckets, c.key, c.now);
            exists tokens: real ::
              && Finds(cfg, buckets, c.key, c.now, tokens)
              && WaitsFor(cfg, tokens, out.wait)
              && Leaves(cfg, buckets, c.key, c.now, tokens, out.buckets)
  {
    var tokens, others := Level(cfg, buckets, c.key, c.now), Without(Prune(cfg, buckets, c.now), c.key);
    LevelExactly(cfg, buckets, c.key, c.now);
    WaitExactly(cfg, tokens);
    OthersExactly(cfg, buckets, c.key, c.now, others);
    TouchIs(cfg, buckets, c.key, c.now);
    PruneKeepsLevel(cfg, buckets, c.now, c.key, c.now);
    TouchFacts(cfg, buckets, c);
    EvictExactly(cfg, Touch(cfg, buckets, c.key, c.now), c.now);
    assert Leaves(cfg, buckets, c.key, c.now, tokens, AcquireSpec(cfg, buckets, c.key, c.now).buckets);
  }
}
