/** What forgetting, bounding and refilling do to a client, over whole sequences of calls. */
module RateLimitTheorems {
  import opened RateLimiting

  datatype Call = Call(key: string, now: real)

  /** Tokens a client would find at time `t`: the observable state of one client. */
  function Level(cfg: Config, buckets: seq<Bucket>, key: string, t: real): real {
    Refill(cfg, Fetch(cfg, buckets, key, t), t)
  }

  /** The size bound removes `key` in this call. */
  predicate Evicts(cfg: Config, buckets: seq<Bucket>, c: Call, key: string)
    requires cfg.Valid()
  {
    var touched := Touch(cfg, buckets, c.key, c.now);
    Has(touched, key) && !Has(Evict(cfg, touched), key)
  }

  // ----- Buckets -----

  lemma FetchMember(cfg: Config, buckets: seq<Bucket>, b: Bucket, now: real, t: real)
    requires Ordered(cfg, buckets, now) && b in buckets
    ensures Has(buckets, b.key) && Fetch(cfg, buckets, b.key, t) == b
  {
    var j :| 0 <= j < |buckets| && buckets[j] == b;
    assert IndexOf(buckets, b.key) == j;
  }

  lemma HasMember(buckets: seq<Bucket>, key: string)
    ensures Has(buckets, key) <==> exists b | b in buckets :: b.key == key
  {
    if Has(buckets, key) {
      assert buckets[IndexOf(buckets, key)] in buckets;
    }
  }

  lemma WithoutFacts(cfg: Config, buckets: seq<Bucket>, key: string, now: real)
    requires Ordered(cfg, buckets, now)
    ensures Ordered(cfg, Without(buckets, key), now)
    ensures forall b :: b in Without(buckets, key) <==> b in buckets && b.key != key
  {
    var i, rest := IndexOf(buckets, key), Without(buckets, key);
    forall b | b in buckets && b.key != key ensures b in rest {
      var j :| 0 <= j < |buckets| && buckets[j] == b;
      if i < |buckets| {
        assert j < i ==> rest[j] == b;
        assert i < j ==> rest[j - 1] == b;
      }
    }
  }

  /** A bucket old enough to be forgotten is full for ever after. */
  lemma StaleIsFull(cfg: Config, b: Bucket, now: real, t: real)
    requires cfg.Valid() && 0.0 <= b.tokens && Stale(cfg, b, now) && now <= t
    ensures Refill(cfg, b, t) == cfg.capacity as real
  {
    EarnGrows(cfg.RefillSeconds(), t - b.seen, cfg.perSecond);
    EarnOfQuotient(cfg.capacity as real, cfg.perSecond);
  }

  lemma EarnOfQuotient(c: real, r: real)
    requires r != 0.0
    ensures Earn(c / r, r) == c
  {
  }

  lemma EarnGrows(x: real, y: real, r: real)
    requires x <= y && 0.0 <= r
    ensures Earn(x, r) <= Earn(y, r)
    ensures x < y && 0.0 < r ==> Earn(x, r) < Earn(y, r)
  {
  }

  lemma EarnNothing(r: real)
    ensures Earn(0.0, r) == 0.0
  {
  }

  lemma EarnAdds(x: real, y: real, z: real, r: real)
    requires x + y == z
    ensures Earn(x, r) + Earn(y, r) == Earn(z, r)
  {
  }

  lemma RefillBounds(cfg: Config, b: Bucket, now: real)
    requires cfg.Valid() && 0.0 <= b.tokens && b.seen <= now
    ensures 0.0 <= Refill(cfg, b, now) <= cfg.capacity as real
  {
    EarnGrows(0.0, now - b.seen, cfg.perSecond);
    EarnNothing(cfg.perSecond);
  }

  lemma PruneKeepsFetch(cfg: Config, buckets: seq<Bucket>, now: real, key: string, t: real)
    requires cfg.Valid() && Ordered(cfg, buckets, now)
    ensures var b, kept := Fetch(cfg, buckets, key, t), Prune(cfg, buckets, now);
            || Fetch(cfg, kept, key, t) == b
            || (!Has(kept, key) && b in buckets && Stale(cfg, b, now))
  {
    var kept := Prune(cfg, buckets, now);
    PruneFacts(cfg, buckets, now);
    HasMember(buckets, key);
    HasMember(kept, key);
    if Has(buckets, key) {
      var b := buckets[IndexOf(buckets, key)];
      FetchMember(cfg, buckets, b, now, t);
      forall x | x in kept && x.key == key ensures x == b {
        FetchMember(cfg, buckets, x, now, t);
      }
    }
  }

  /** Pruning shows in no client's level. */
  lemma PruneKeepsLevel(cfg: Config, buckets: seq<Bucket>, now: real, key: string, t: real)
    requires cfg.Valid() && Ordered(cfg, buckets, now) && now <= t
    ensures Level(cfg, Prune(cfg, buckets, now), key, t) == Level(cfg, buckets, key, t)
  {
    PruneKeepsFetch(cfg, buckets, now, key, t);
    var b, kept := Fetch(cfg, buckets, key, t), Prune(cfg, buckets, now);
    if Fetch(cfg, kept, key, t) != b {
      StaleIsFull(cfg, b, now, t);
      FullIsFull(cfg, key, t);
    }
  }

  lemma FullIsFull(cfg: Config, key: string, t: real)
    ensures Refill(cfg, Bucket(key, cfg.capacity as real, t), t) == cfg.capacity as real
  {
    EarnNothing(cfg.perSecond);
  }

  lemma TouchFacts(cfg: Config, buckets: seq<Bucket>, c: Call)
    requires cfg.Valid() && Ordered(cfg, buckets, c.now)
    ensures Ordered(cfg, Touch(cfg, buckets, c.key, c.now), c.now)
    ensures forall b :: b in Touch(cfg, buckets, c.key, c.now) && b.key != c.key
                   <==> b in Prune(cfg, buckets, c.now) && b.key != c.key
  {
    var kept := Prune(cfg, buckets, c.now);
    PruneFacts(cfg, buckets, c.now);
    WithoutFacts(cfg, kept, c.key, c.now);
    var b := Fetch(cfg, kept, c.key, c.now);
    if Has(kept, c.key) { assert b in kept; }
    RefillBounds(cfg, b, c.now);
    var rest := Without(kept, c.key);
    forall i | 0 <= i < |rest| ensures rest[i].key != c.key && rest[i].seen <= c.now {
      assert rest[i] in rest;
    }
  }

  /** Buckets stay distinct, in last-seen order, at most `maxClients` and between 0 and capacity. */
  lemma AcquireKeepsInv(cfg: Config, buckets: seq<Bucket>, before: real, c: Call)
    requires cfg.Valid() && Inv(cfg, buckets, before) && before <= c.now
    ensures Inv(cfg, AcquireSpec(cfg, buckets, c.key, c.now).buckets, c.now)
  {
    TouchFacts(cfg, buckets, c);
  }

  lemma OthersKeepBuckets(cfg: Config, buckets: seq<Bucket>, c: Call, key: string, t: real)
    requires cfg.Valid() && Ordered(cfg, buckets, c.now)
    requires key != c.key && !Evicts(cfg, buckets, c, key)
    ensures Fetch(cfg, AcquireSpec(cfg, buckets, c.key, c.now).buckets, key, t)
         == Fetch(cfg, Prune(cfg, buckets, c.now), key, t)
  {
    var kept, touched := Prune(cfg, buckets, c.now), Touch(cfg, buckets, c.key, c.now);
    var after := Evict(cfg, touched);
    PruneFacts(cfg, buckets, c.now);
    TouchFacts(cfg, buckets, c);
    HasMember(kept, key);
    HasMember(touched, key);
    HasMember(after, key);
    if Has(kept, key) {
      var b, a := kept[IndexOf(kept, key)], after[IndexOf(after, key)];
      FetchMember(cfg, touched, a, c.now, t);
      FetchMember(cfg, touched, b, c.now, t);
    }
  }

  /** A call never disturbs another client's level, unless it evicts that client. */
  lemma OthersUndisturbed(cfg: Config, buckets: seq<Bucket>, c: Call, key: string, t: real)
    requires cfg.Valid() && Ordered(cfg, buckets, c.now) && c.now <= t
    requires key != c.key && !Evicts(cfg, buckets, c, key)
    ensures Level(cfg, AcquireSpec(cfg, buckets, c.key, c.now).buckets, key, t)
         == Level(cfg, buckets, key, t)
  {
    OthersKeepBuckets(cfg, buckets, c, key, t);
    PruneKeepsLevel(cfg, buckets, c.now, key, t);
  }

  /** The caller itself finds its level, spends from it, and is never the one evicted. */
  lemma CallerSpends(cfg: Config, buckets: seq<Bucket>, c: Call, t: real)
    requires cfg.Valid() && Ordered(cfg, buckets, c.now)
    ensures var r := AcquireSpec(cfg, buckets, c.key, c.now);
            var tokens := Level(cfg, buckets, c.key, c.now);
            && r.wait == WaitFor(cfg, tokens)
            && Level(cfg, r.buckets, c.key, t) == Refill(cfg, Bucket(c.key, Spend(tokens), c.now), t)
            && 0.0 <= tokens
    ensures !Evicts(cfg, buckets, c, c.key)
  {
    var touched := Touch(cfg, buckets, c.key, c.now);
    PruneFacts(cfg, buckets, c.now);
    TouchFacts(cfg, buckets, c);
    PruneKeepsLevel(cfg, buckets, c.now, c.key, c.now);
    var kept := Prune(cfg, buckets, c.now);
    var b := Fetch(cfg, kept, c.key, c.now);
    if Has(kept, c.key) { assert b in kept; }
    RefillBounds(cfg, b, c.now);
    var after := Evict(cfg, touched);
    assert Ordered(cfg, after, c.now);
    FetchMember(cfg, after, touched[|touched| - 1], c.now, t);
  }

  // ----- Sequences of calls -----

  ghost predicate Clocked(now: real, calls: seq<Call>)
    decreases |calls|
  {
    calls != [] ==> now <= calls[0].now && Clocked(calls[0].now, calls[1..])
  }

  ghost function After(cfg: Config, buckets: seq<Bucket>, calls: seq<Call>): seq<Bucket>
    requires cfg.Valid()
    decreases |calls|
  {
    if calls == [] then buckets
    else After(cfg, AcquireSpec(cfg, buckets, calls[0].key, calls[0].now).buckets, calls[1..])
  }

  ghost function Waits(cfg: Config, buckets: seq<Bucket>, calls: seq<Call>): (r: seq<int>)
    requires cfg.Valid()
    ensures |r| == |calls|
    decreases |calls|
  {
    if calls == [] then [] else
    var o := AcquireSpec(cfg, buckets, calls[0].key, calls[0].now);
    [o.wait] + Waits(cfg, o.buckets, calls[1..])
  }

  ghost predicate NeverEvicted(cfg: Config, buckets: seq<Bucket>, calls: seq<Call>, key: string)
    requires cfg.Valid()
    decreases |calls|
  {
    calls != [] ==>
      && !Evicts(cfg, buckets, calls[0], key)
      && NeverEvicted(
           cfg, AcquireSpec(cfg, buckets, calls[0].key, calls[0].now).buckets, calls[1..], key)
  }

  // The limiter that never drops a bucket.
  type Ledger = map<string, Bucket>

  function LedgerLevel(cfg: Config, ledger: Ledger, key: string, t: real): real {
    Refill(cfg, if key in ledger then ledger[key] else Bucket(key, cfg.capacity as real, t), t)
  }

  ghost function LedgerWaits(cfg: Config, ledger: Ledger, calls: seq<Call>): (r: seq<int>)
    requires cfg.Valid()
    ensures |r| == |calls|
    decreases |calls|
  {
    if calls == [] then [] else
    var c := calls[0];
    var tokens := LedgerLevel(cfg, ledger, c.key, c.now);
    [WaitFor(cfg, tokens)]
    + LedgerWaits(cfg, ledger[c.key := Bucket(c.key, Spend(tokens), c.now)], calls[1..])
  }

  ghost predicate SameLevels(
    cfg: Config, buckets: seq<Bucket>, ledger: Ledger, key: string, now: real)
  {
    forall t | now <= t :: Level(cfg, buckets, key, t) == LedgerLevel(cfg, ledger, key, t)
  }

  lemma SameLevelsKept(
    cfg: Config, buckets: seq<Bucket>, ledger: Ledger, key: string, now: real, c: Call)
    requires cfg.Valid() && Inv(cfg, buckets, now) && now <= c.now
    requires SameLevels(cfg, buckets, ledger, key, now) && !Evicts(cfg, buckets, c, key)
    ensures var tokens := LedgerLevel(cfg, ledger, c.key, c.now);
            SameLevels(cfg, AcquireSpec(cfg, buckets, c.key, c.now).buckets,
                       ledger[c.key := Bucket(c.key, Spend(tokens), c.now)], key, c.now)
  {
    var tokens := LedgerLevel(cfg, ledger, c.key, c.now);
    var after := AcquireSpec(cfg, buckets, c.key, c.now).buckets;
    var ledger' := ledger[c.key := Bucket(c.key, Spend(tokens), c.now)];
    forall t | c.now <= t ensures Level(cfg, after, key, t) == LedgerLevel(cfg, ledger', key, t) {
      if key == c.key {
        CallerSpends(cfg, buckets, c, t);
        assert Level(cfg, buckets, key, c.now) == LedgerLevel(cfg, ledger, key, c.now);
      } else {
        OthersUndisturbed(cfg, buckets, c, key, t);
        assert Level(cfg, buckets, key, t) == LedgerLevel(cfg, ledger, key, t);
      }
    }
  }

  lemma {:induction false} ForgettingFrom(
    cfg: Config, buckets: seq<Bucket>, ledger: Ledger, now: real, calls: seq<Call>, key: string,
    i: nat)
    requires cfg.Valid() && Inv(cfg, buckets, now) && Clocked(now, calls)
    requires SameLevels(cfg, buckets, ledger, key, now)
    requires NeverEvicted(cfg, buckets, calls, key)
    requires i < |calls| && calls[i].key == key
    ensures Waits(cfg, buckets, calls)[i] == LedgerWaits(cfg, ledger, calls)[i]
    decreases |calls|
  {
    var c := calls[0];
    var tokens := LedgerLevel(cfg, ledger, c.key, c.now);
    if i == 0 {
      CallerSpends(cfg, buckets, c, c.now);
      assert Level(cfg, buckets, key, c.now) == LedgerLevel(cfg, ledger, key, c.now);
    } else {
      SameLevelsKept(cfg, buckets, ledger, key, now, c);
      AcquireKeepsInv(cfg, buckets, now, c);
      ForgettingFrom(cfg, AcquireSpec(cfg, buckets, c.key, c.now).buckets,
                     ledger[c.key := Bucket(c.key, Spend(tokens), c.now)], c.now, calls[1..], key,
                     i - 1);
    }
  }

  /** Forgetting is unobservable: from a new limiter and under a clock that never runs backwards, a
      client the size bound never evicts gets exactly the answers of a limiter that drops nothing,
      whatever happens to the others. */
  lemma ForgettingIsUnobservable(cfg: Config, now: real, calls: seq<Call>, key: string)
    requires cfg.Valid() && Clocked(now, calls) && NeverEvicted(cfg, [], calls, key)
    ensures forall i | 0 <= i < |calls| && calls[i].key == key ::
              Waits(cfg, [], calls)[i] == LedgerWaits(cfg, map[], calls)[i]
  {
    forall i | 0 <= i < |calls| && calls[i].key == key
      ensures Waits(cfg, [], calls)[i] == LedgerWaits(cfg, map[], calls)[i]
    {
      ForgettingFrom(cfg, [], map[], now, calls, key, i);
    }
  }

  /** Every reachable limiter is bounded, ordered and holds sensible tokens. */
  lemma {:induction false} RunKeepsInv(
    cfg: Config, buckets: seq<Bucket>, now: real, calls: seq<Call>)
    requires cfg.Valid() && Inv(cfg, buckets, now) && Clocked(now, calls)
    ensures Inv(cfg, After(cfg, buckets, calls), if calls == [] then now else calls[|calls| - 1].now)
    decreases |calls|
  {
    if calls != [] {
      AcquireKeepsInv(cfg, buckets, now, calls[0]);
      RunKeepsInv(cfg, AcquireSpec(cfg, buckets, calls[0].key, calls[0].now).buckets, calls[0].now,
                  calls[1..]);
    }
  }

  // ----- Admission -----

  ghost function Admitted(cfg: Config, buckets: seq<Bucket>, calls: seq<Call>, key: string): nat
    requires cfg.Valid()
    decreases |calls|
  {
    if calls == [] then 0 else
    var o := AcquireSpec(cfg, buckets, calls[0].key, calls[0].now);
    (if calls[0].key == key && o.wait == 0 then 1 else 0) + Admitted(cfg, o.buckets, calls[1..], key)
  }

  /** The tokens a client earns between two instants. */
  ghost function Earned(cfg: Config, s: real, t: real): real {
    Earn(t - s, cfg.perSecond)
  }

  lemma LevelGrowth(cfg: Config, b: Bucket, s: real, t: real)
    requires cfg.Valid() && s <= t
    ensures Refill(cfg, b, t) <= Refill(cfg, b, s) + Earned(cfg, s, t)
  {
    EarnGrows(0.0, t - s, cfg.perSecond);
    EarnNothing(cfg.perSecond);
    EarnAdds(s - b.seen, t - s, t - b.seen, cfg.perSecond);
  }

  /** Between two instants a level grows by the refill rate at most. */
  lemma LevelGrows(cfg: Config, buckets: seq<Bucket>, key: string, s: real, t: real)
    requires cfg.Valid() && s <= t
    ensures Level(cfg, buckets, key, t) <= Level(cfg, buckets, key, s) + Earned(cfg, s, t)
  {
    if Has(buckets, key) {
      LevelGrowth(cfg, buckets[IndexOf(buckets, key)], s, t);
    } else {
      FullIsFull(cfg, key, s);
      FullIsFull(cfg, key, t);
      EarnGrows(0.0, t - s, cfg.perSecond);
      EarnNothing(cfg.perSecond);
    }
  }

  lemma LevelBounds(cfg: Config, buckets: seq<Bucket>, key: string, now: real)
    requires cfg.Valid() && Ordered(cfg, buckets, now)
    ensures 0.0 <= Level(cfg, buckets, key, now) <= cfg.capacity as real
  {
    if Has(buckets, key) {
      RefillBounds(cfg, buckets[IndexOf(buckets, key)], now);
    } else {
      FullIsFull(cfg, key, now);
    }
  }

  /** The refill over the gaps between calls. */
  ghost function Accrued(cfg: Config, s: real, calls: seq<Call>): real
    decreases |calls|
  {
    if calls == [] then 0.0
    else Earned(cfg, s, calls[0].now) + Accrued(cfg, calls[0].now, calls[1..])
  }

  lemma {:induction false} AccruedIsElapsed(cfg: Config, s: real, calls: seq<Call>, t: real)
    requires cfg.Valid() && Clocked(s, calls) && s <= t && (forall c | c in calls :: c.now <= t)
    ensures Accrued(cfg, s, calls) <= Earned(cfg, s, t)
    decreases |calls|
  {
    if calls == [] {
      EarnGrows(0.0, t - s, cfg.perSecond);
      EarnNothing(cfg.perSecond);
    } else {
      AccruedIsElapsed(cfg, calls[0].now, calls[1..], t);
      EarnAdds(calls[0].now - s, t - calls[0].now, t - s, cfg.perSecond);
    }
  }

  /** What is admitted is paid for by the level at the start and the refill since. */
  lemma {:induction false} AdmissionsArePaid(
    cfg: Config, buckets: seq<Bucket>, s: real, calls: seq<Call>, key: string)
    requires cfg.Valid() && Inv(cfg, buckets, s) && Clocked(s, calls)
    requires NeverEvicted(cfg, buckets, calls, key)
    ensures Admitted(cfg, buckets, calls, key) as real
         <= Level(cfg, buckets, key, s) + Accrued(cfg, s, calls)
    decreases |calls|
  {
    if calls == [] {
      LevelBounds(cfg, buckets, key, s);
    } else {
      var o := AcquireSpec(cfg, buckets, calls[0].key, calls[0].now);
      AcquireKeepsInv(cfg, buckets, s, calls[0]);
      AdmissionsArePaid(cfg, o.buckets, calls[0].now, calls[1..], key);
      PaidSince(cfg, buckets, s, calls[0], key);
    }
  }

  lemma PaidSince(cfg: Config, buckets: seq<Bucket>, s: real, c: Call, key: string)
    requires cfg.Valid() && Ordered(cfg, buckets, c.now) && !Evicts(cfg, buckets, c, key) && s <= c.now
    ensures var o := AcquireSpec(cfg, buckets, c.key, c.now);
            (if c.key == key && o.wait == 0 then 1 else 0) as real + Level(cfg, o.buckets, key, c.now)
            <= Level(cfg, buckets, key, s) + Earned(cfg, s, c.now)
  {
    LevelGrows(cfg, buckets, key, s, c.now);
    OneCallIsPaid(cfg, buckets, c, key);
  }

  lemma RefillLater(cfg: Config, b: Bucket, t: real, d: real)
    requires t - b.seen == d
    ensures Refill(cfg, b, t) == Min(cfg.capacity as real, b.tokens + Earn(d, cfg.perSecond))
  {
  }

  lemma OneCallIsPaid(cfg: Config, buckets: seq<Bucket>, c: Call, key: string)
    requires cfg.Valid() && Ordered(cfg, buckets, c.now) && !Evicts(cfg, buckets, c, key)
    ensures var o := AcquireSpec(cfg, buckets, c.key, c.now);
            (if c.key == key && o.wait == 0 then 1.0 else 0.0) + Level(cfg, o.buckets, key, c.now)
            <= Level(cfg, buckets, key, c.now)
  {
    if c.key == key {
      CallerSpends(cfg, buckets, c, c.now);
      var tokens := Level(cfg, buckets, key, c.now);
      RefillNow(cfg, Bucket(key, Spend(tokens), c.now));
      WaitSign(cfg, tokens);
    } else {
      OthersUndisturbed(cfg, buckets, c, key, c.now);
    }
  }

  lemma RefillNow(cfg: Config, b: Bucket)
    ensures Refill(cfg, b, b.seen) <= b.tokens
  {
    RefillLater(cfg, b, b.seen, 0.0);
    EarnNothing(cfg.perSecond);
  }

  lemma WaitSign(cfg: Config, tokens: real)
    requires cfg.Valid()
    ensures WaitFor(cfg, tokens) >= 0
    ensures WaitFor(cfg, tokens) == 0 <==> 1.0 <= tokens
  {
  }

  /** From any reachable limiter, a client that is not evicted is admitted at most
      capacity + rate * elapsed times. */
  lemma AdmissionBound(
    cfg: Config, buckets: seq<Bucket>, s: real, calls: seq<Call>, key: string, t: real)
    requires cfg.Valid() && Inv(cfg, buckets, s) && Clocked(s, calls)
    requires NeverEvicted(cfg, buckets, calls, key)
    requires s <= t && (forall c | c in calls :: c.now <= t)
    ensures Admitted(cfg, buckets, calls, key) as real
         <= cfg.capacity as real + Earned(cfg, s, t)
  {
    AdmissionsArePaid(cfg, buckets, s, calls, key);
    AccruedIsElapsed(cfg, s, calls, t);
    LevelBounds(cfg, buckets, key, s);
  }

  // ----- Waiting -----

  ghost predicate OnlyOthers(calls: seq<Call>, key: string) {
    forall c | c in calls :: c.key != key
  }

  lemma {:induction false} OthersUndisturbedRun(
    cfg: Config, buckets: seq<Bucket>, now: real, calls: seq<Call>, key: string, t: real)
    requires cfg.Valid() && Inv(cfg, buckets, now) && Clocked(now, calls) && OnlyOthers(calls, key)
    requires NeverEvicted(cfg, buckets, calls, key)
    requires now <= t && (forall c | c in calls :: c.now <= t)
    ensures Level(cfg, After(cfg, buckets, calls), key, t) == Level(cfg, buckets, key, t)
    decreases |calls|
  {
    if calls != [] {
      var c := calls[0];
      AcquireKeepsInv(cfg, buckets, now, c);
      OthersUndisturbed(cfg, buckets, c, key, t);
      OthersUndisturbedRun(cfg, AcquireSpec(cfg, buckets, c.key, c.now).buckets, c.now, calls[1..],
                           key, t);
    }
  }

  /** `v` whole seconds refill `tokens` to a spendable one exactly when `v` reaches the wait. */
  lemma WaitIsLeast(cfg: Config, tokens: real, v: int)
    requires cfg.Valid() && tokens < 1.0 && 1 <= v
    ensures 1.0 <= tokens + Earn(v as real, cfg.perSecond) <==> WaitFor(cfg, tokens) <= v
  {
    var due := (1.0 - tokens) / cfg.perSecond;
    EarnOfQuotient(1.0 - tokens, cfg.perSecond);
    CeilIsLeast(due, v);
    if due <= v as real {
      EarnGrows(due, v as real, cfg.perSecond);
    } else {
      EarnGrows(v as real, due, cfg.perSecond);
    }
  }

  lemma CeilIsLeast(x: real, v: int)
    ensures x <= v as real <==> Ceil(x) <= v
  {
  }

  /** What a refused client finds at a later instant, others calling meanwhile. */
  lemma RefusedLevel(
    cfg: Config, buckets: seq<Bucket>, before: real, c: Call, others: seq<Call>, t: real)
    requires cfg.Valid() && Inv(cfg, buckets, before) && before <= c.now <= t
    requires Level(cfg, buckets, c.key, c.now) < 1.0
    requires var refused := AcquireSpec(cfg, buckets, c.key, c.now).buckets;
             && Clocked(c.now, others) && OnlyOthers(others, c.key)
             && (forall o | o in others :: o.now <= t) && NeverEvicted(cfg, refused, others, c.key)
    ensures var later := After(cfg, AcquireSpec(cfg, buckets, c.key, c.now).buckets, others);
            var tokens := Level(cfg, buckets, c.key, c.now);
            && Level(cfg, later, c.key, t) == Refill(cfg, Bucket(c.key, tokens, c.now), t)
            && AcquireSpec(cfg, later, c.key, t).wait == WaitFor(cfg, Level(cfg, later, c.key, t))
  {
    var first := AcquireSpec(cfg, buckets, c.key, c.now).buckets;
    AcquireKeepsInv(cfg, buckets, before, c);
    CallerSpends(cfg, buckets, c, t);
    OthersUndisturbedRun(cfg, first, c.now, others, c.key, t);
    RunKeepsInv(cfg, first, c.now, others);
    if others != [] { assert others[|others| - 1] in others; }
    CallerSpends(cfg, After(cfg, first, others), Call(c.key, t), t);
  }

  /** A refused client told to wait `w` seconds is admitted on a retry after `v` whole seconds,
      other clients calling meanwhile, exactly when `w <= v`. */
  lemma RetryAfterWait(
    cfg: Config, buckets: seq<Bucket>, before: real, c: Call, others: seq<Call>, v: int)
    requires cfg.Valid() && Inv(cfg, buckets, before) && before <= c.now && 1 <= v
    requires AcquireSpec(cfg, buckets, c.key, c.now).wait != 0
    requires var refused := AcquireSpec(cfg, buckets, c.key, c.now).buckets;
             && Clocked(c.now, others) && OnlyOthers(others, c.key)
             && (forall o | o in others :: o.now <= c.now + v as real)
             && NeverEvicted(cfg, refused, others, c.key)
    ensures var first := AcquireSpec(cfg, buckets, c.key, c.now);
            var later := After(cfg, first.buckets, others);
            && first.wait >= 1
            && (AcquireSpec(cfg, later, c.key, c.now + v as real).wait == 0 <==> first.wait <= v)
  {
    var tokens := Level(cfg, buckets, c.key, c.now);
    RefusalMeans(cfg, buckets, c);
    RefusedLevel(cfg, buckets, before, c, others, c.now + v as real);
    RefilledWait(cfg, c.key, tokens, c.now, v);
  }

  lemma RefusalMeans(cfg: Config, buckets: seq<Bucket>, c: Call)
    requires cfg.Valid() && Ordered(cfg, buckets, c.now)
    ensures var tokens := Level(cfg, buckets, c.key, c.now);
            var wait := AcquireSpec(cfg, buckets, c.key, c.now).wait;
            && wait == WaitFor(cfg, tokens) && 0 <= wait && (wait != 0 <==> tokens < 1.0)
  {
    CallerSpends(cfg, buckets, c, c.now);
    WaitSign(cfg, Level(cfg, buckets, c.key, c.now));
  }

  lemma RefilledWait(cfg: Config, key: string, tokens: real, now: real, v: int)
    requires cfg.Valid() && tokens < 1.0 && 1 <= v
    ensures WaitFor(cfg, Refill(cfg, Bucket(key, tokens, now), now + v as real)) == 0
       <==> WaitFor(cfg, tokens) <= v
  {
    var later := Refill(cfg, Bucket(key, tokens, now), now + v as real);
    RefillLater(cfg, Bucket(key, tokens, now), now + v as real, v as real);
    WaitIsLeast(cfg, tokens, v);
    WaitSign(cfg, later);
  }
}
