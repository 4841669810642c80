/**
 * The token-bucket limiter and its per-source registry.  A bucket holds up to
 * `capacity` tokens; it refills lazily, adding `tokensPerInterval` tokens for
 * every whole `interval` (milliseconds) that has elapsed, but only once
 * strictly more than one interval has passed; `take` spends one token when
 * one is available.  Clock readings are explicit `now` parameters.
 */
module RateController {
  import opened Wrappers

  /** The observable state of a bucket. */
  datatype BucketState = BucketState(
    capacity: int,
    tokensPerInterval: int,
    interval: int,
    tokens: int,
    lastRefill: int)

  function Min(a: int, b: int): int { if a <= b then a else b }

  /** A new bucket at time `now`. */
  function Fresh(capacity: int, tokensPerInterval: int, interval: int, now: int): (s: BucketState)
    ensures s.tokens == s.capacity == capacity && s.lastRefill == now
  {
    BucketState(capacity, tokensPerInterval, interval, capacity, now)
  }

  /**
   * `refill()` at time `now`: the configuration is kept, and in a bucket
   * within bounds a refill never removes tokens nor goes past the capacity.
   */
  function RefillState(s: BucketState, now: int): (r: BucketState)
    requires s.interval > 0
    ensures r.capacity == s.capacity && r.interval == s.interval && r.tokensPerInterval == s.tokensPerInterval
    ensures r.lastRefill == s.lastRefill || r.lastRefill == now
    ensures InBounds(s) ==> s.tokens <= r.tokens <= s.capacity
  {
    var elapsed := now - s.lastRefill;
    if elapsed > s.interval then
      var quanta := elapsed / s.interval;
      assert quanta >= 1 by {
        assert elapsed >= s.interval * 1;
      }
      NonNegativeProduct(quanta, s.tokensPerInterval);
      s.(tokens := Min(s.capacity, s.tokens + quanta * s.tokensPerInterval), lastRefill := now)
    else s
  }

  lemma NonNegativeProduct(a: int, b: int)
    ensures a >= 0 && b >= 0 ==> a * b >= 0
  {
  }

  /** `take()` at time `now`: the state afterwards and whether a token was granted. */
  function TakeState(s: BucketState, now: int): (r: (BucketState, bool))
    requires s.interval > 0
    ensures r.0.capacity == s.capacity && r.0.interval == s.interval
    ensures r.0.tokensPerInterval == s.tokensPerInterval
  {
    var r := RefillState(s, now);
    if r.tokens > 0 then (r.(tokens := r.tokens - 1), true) else (r, false)
  }

  // ------------------------------------------------------------- refill

  /** Refill changes nothing unless strictly more than one interval has elapsed. */
  lemma RefillQuiet(s: BucketState, now: int)
    requires s.interval > 0
    ensures RefillState(s, now) != s ==> now - s.lastRefill > s.interval
    ensures now - s.lastRefill <= s.interval ==> RefillState(s, now) == s
  {
  }

  /** Waiting exactly one interval adds nothing. */
  lemma ExactIntervalAddsNothing(s: BucketState)
    requires s.interval > 0
    ensures RefillState(s, s.lastRefill + s.interval) == s
  {
  }

  lemma MulCancelLess(x: int, y: int, b: int)
    requires b > 0 && x * b < y * b
    ensures x < y
  {
    assert y * b - x * b == (y - x) * b;
  }

  lemma QuotientUnique(a: int, b: int, k: int)
    requires b > 0 && k * b <= a < (k + 1) * b
    ensures a / b == k
  {
    var q := a / b;
    assert q * b <= a < (q + 1) * b;
    MulCancelLess(k, q + 1, b);
    MulCancelLess(q, k + 1, b);
  }

  /**
   * When `k` whole intervals (and a remainder shorter than one) have elapsed,
   * with `k >= 1` and more than one interval in all, refill adds `k` quanta,
   * capped at the capacity, and restarts the clock at `now`.
   */
  lemma RefillWholeIntervals(s: BucketState, now: int, k: int)
    requires s.interval > 0
    requires k * s.interval <= now - s.lastRefill < (k + 1) * s.interval
    requires now - s.lastRefill > s.interval
    ensures RefillState(s, now).tokens == Min(s.capacity, s.tokens + k * s.tokensPerInterval)
    ensures RefillState(s, now).lastRefill == now
    ensures RefillState(s, now).capacity == s.capacity
  {
    QuotientUnique(now - s.lastRefill, s.interval, k);
  }

  /** Between one and two intervals after the last refill, exactly one quantum is added (capped). */
  lemma OneIntervalRefill(s: BucketState, now: int)
    requires s.interval > 0
    requires s.interval < now - s.lastRefill < 2 * s.interval
    ensures RefillState(s, now).tokens == Min(s.capacity, s.tokens + s.tokensPerInterval)
  {
    RefillWholeIntervals(s, now, 1);
  }

  /**
   * Because refill restarts the clock at `now`, the unused part of an interval
   * is discarded: two refills 15 ms apart on a 10 ms interval yield one token
   * less than a single refill after 30 ms.
   */
  lemma RefillDiscardsFraction()
    ensures var s := BucketState(100, 1, 10, 0, 0);
            RefillState(RefillState(s, 15), 30).tokens == 2 && RefillState(s, 30).tokens == 3
  {
    var s := BucketState(100, 1, 10, 0, 0);
    RefillWholeIntervals(s, 15, 1);
    RefillWholeIntervals(RefillState(s, 15), 30, 1);
    RefillWholeIntervals(s, 30, 3);
  }

  // --------------------------------------------------------------- take

  /** `take` grants iff the refilled bucket has a token, and then spends exactly one; a refusal spends none. */
  lemma TakeSpends(s: BucketState, now: int)
    requires s.interval > 0
    ensures var (t, ok) := TakeState(s, now);
            && (ok <==> RefillState(s, now).tokens > 0)
            && t.tokens == (if ok then RefillState(s, now).tokens - 1 else RefillState(s, now).tokens)
            && t.lastRefill == RefillState(s, now).lastRefill
            && t.capacity == s.capacity && t.interval == s.interval && t.tokensPerInterval == s.tokensPerInterval
  {
  }

  /** The bucket invariant, for a non-negative capacity and quantum. */
  predicate InBounds(s: BucketState) {
    0 <= s.capacity && 0 <= s.tokensPerInterval && 0 < s.interval && 0 <= s.tokens <= s.capacity
  }

  /** Every `take` keeps `0 <= tokens <= capacity`. */
  lemma TakeInBounds(s: BucketState, now: int)
    requires InBounds(s)
    ensures InBounds(TakeState(s, now).0)
  {
    var r := RefillState(s, now);
    if now - s.lastRefill > s.interval {
      var k := (now - s.lastRefill) / s.interval;
      assert k >= 0;
      assert k * s.tokensPerInterval >= 0;
    }
    assert InBounds(r);
  }

  /** The grants of `n` consecutive `take` calls at the same time `now`, and the state after them. */
  function Takes(s: BucketState, now: int, n: nat): (r: (BucketState, seq<bool>))
    requires s.interval > 0
    ensures |r.1| == n && r.0.interval == s.interval
    decreases n
  {
    if n == 0 then (s, [])
    else
      var (t, ok) := TakeState(s, now);
      var (u, rest) := Takes(t, now, n - 1);
      (u, [ok] + rest)
  }

  /** With the clock standing still, the first `n` takes succeed as long as tokens remain. */
  lemma {:induction false} TakesDrain(s: BucketState, now: int, n: nat)
    requires s.interval > 0 && s.lastRefill == now && n <= s.tokens
    ensures Takes(s, now, n).1 == seq(n, _ => true)
    ensures Takes(s, now, n).0 == s.(tokens := s.tokens - n)
    decreases n
  {
    if n > 0 {
      var t := s.(tokens := s.tokens - 1);
      assert TakeState(s, now) == (t, true);
      TakesDrain(t, now, n - 1);
      assert [true] + seq(n - 1, _ => true) == seq(n, _ => true);
    }
  }

  /** From a fresh bucket, with no time elapsing, exactly `capacity` takes succeed and the next one fails. */
  lemma FreshBucketGrantsCapacity(capacity: nat, tokensPerInterval: int, interval: int, now: int)
    requires interval > 0
    ensures var s := Fresh(capacity, tokensPerInterval, interval, now);
            Takes(s, now, capacity + 1).1 == seq(capacity, _ => true) + [false]
  {
    var s := Fresh(capacity, tokensPerInterval, interval, now);
    TakesSplit(s, now, capacity);
    TakesDrain(s, now, capacity);
    var e := s.(tokens := 0);
    assert TakeState(e, now) == (e, false);
  }

  /** `n + 1` takes are `n` takes followed by one more. */
  lemma {:induction false} TakesSplit(s: BucketState, now: int, n: nat)
    requires s.interval > 0
    ensures var (u, grants) := Takes(s, now, n);
            Takes(s, now, n + 1) == (TakeState(u, now).0, grants + [TakeState(u, now).1])
    decreases n
  {
    if n > 0 {
      var (t, ok) := TakeState(s, now);
      TakesSplit(t, now, n - 1);
      var (u, g) := Takes(t, now, n - 1);
      var last := TakeState(u, now);
      assert Takes(s, now, n) == (u, [ok] + g);
      assert Takes(t, now, n) == (last.0, g + [last.1]);
      assert Takes(s, now, n + 1) == (last.0, [ok] + (g + [last.1]));
      assert [ok] + (g + [last.1]) == ([ok] + g) + [last.1];
    } else {
      var (t, ok) := TakeState(s, now);
      assert Takes(t, now, 0) == (t, []);
      assert [ok] + [] == [ok];
      assert Takes(s, now, 1) == (t, [ok]);
      assert [] + [ok] == [ok];
    }
  }

  // ------------------------------------------------------------ classes

  /** `TokenBucket`: the configuration is fixed at construction; `tokens` and `lastRefill` change in place. */
  class TokenBucket {
    const capacity: int
    const tokensPerInterval: int
    const interval: int
    var tokens: int
    var lastRefill: int

    function State(): (s: BucketState)
      reads this
      ensures s.capacity == capacity && s.interval == interval && s.tokensPerInterval == tokensPerInterval
    {
      BucketState(capacity, tokensPerInterval, interval, tokens, lastRefill)
    }

    /** A new bucket starts full, timed from `now`. */
    constructor(capacity: int, tokensPerInterval: int, interval: int, now: int)
      requires interval > 0
      ensures State() == Fresh(capacity, tokensPerInterval, interval, now)
    {
      this.capacity := capacity;
      this.tokensPerInterval := tokensPerInterval;
      this.interval := interval;
      this.tokens := capacity;
      this.lastRefill := now;
    }

    method Refill(now: int)
      requires interval > 0
      modifies this
      ensures State() == RefillState(old(State()), now)
    {
      var elapsed := now - lastRefill;
      if elapsed > interval {
        var tokensToAdd := (elapsed / interval) * tokensPerInterval;
        tokens := Min(capacity, tokens + tokensToAdd);
        lastRefill := now;
      }
    }

    method Take(now: int) returns (ok: bool)
      requires interval > 0
      modifies this
      ensures (State(), ok) == TakeState(old(State()), now)
      ensures InBounds(old(State())) ==> InBounds(State())
    {
      ghost var before := State();
      Refill(now);
      if tokens > 0 {
        tokens := tokens - 1;
        ok := true;
      } else {
        ok := false;
      }
      if InBounds(before) {
        TakeInBounds(before, now);
      }
    }
  }

  /**
   * The names a plain JavaScript object `{}` answers from its prototype:
   * `buckets[name]` is a (truthy) function for each of them.
   */
  const InheritedNames: set<string> := {
    "constructor", "hasOwnProperty", "isPrototypeOf", "propertyIsEnumerable",
    "toLocaleString", "toString", "valueOf", "__proto__",
    "__defineGetter__", "__defineSetter__", "__lookupGetter__", "__lookupSetter__"}

  /** What `buckets[source]` evaluates to. */
  datatype Lookup = OwnBucket | InheritedMember | Undefined

  function LookupAsWritten(own: set<string>, source: string): (r: Lookup)
    ensures r == OwnBucket <==> source in own
    ensures r == InheritedMember <==> source !in own && source in InheritedNames
  {
    if source in own then OwnBucket else if source in InheritedNames then InheritedMember else Undefined
  }

  /** On a fresh registry, `rateController("toString", ...)` finds a truthy inherited member and creates no bucket. */
  lemma InheritedNameShadowsBucket()
    ensures LookupAsWritten({}, "toString") == InheritedMember
  {
  }

  /** What `rateController` hands back as written: a bucket, or an inherited prototype member. */
  datatype Handed = Bucket(bucket: TokenBucket) | PrototypeMember(name: string)

  /** The module-level `buckets` dictionary and `rateController`. */
  class RateRegistry {
    var buckets: map<string, TokenBucket>

    constructor()
      ensures buckets == map[]
    {
      buckets := map[];
    }

    /**
     * `rateController` with the lookup the code performs on a plain object:
     * a source named like an `Object.prototype` member is answered by that
     * member, so no bucket is created and a non-bucket is returned.
     */
    method RateControllerAsWritten(source: string, capacity: int, tokensPerInterval: int, interval: int, now: int)
      returns (h: Handed)
      requires source !in buckets ==> interval > 0
      modifies this
      ensures LookupAsWritten(old(buckets).Keys, source) == InheritedMember ==> h == PrototypeMember(source) && buckets == old(buckets)
      ensures source in old(buckets) ==> h == Bucket(old(buckets)[source]) && buckets == old(buckets)
      ensures LookupAsWritten(old(buckets).Keys, source) == Undefined ==>
                h.Bucket? && fresh(h.bucket) && buckets == old(buckets)[source := h.bucket]
                && h.bucket.State() == Fresh(capacity, tokensPerInterval, interval, now)
    {
      match LookupAsWritten(buckets.Keys, source)
      case OwnBucket =>
        h := Bucket(buckets[source]);
      case InheritedMember =>
        h := PrototypeMember(source);
      case Undefined =>
        var b := new TokenBucket(capacity, tokensPerInterval, interval, now);
        buckets := buckets[source := b];
        h := Bucket(b);
    }

    /**
     * `rateController` as intended: one bucket per source key, created on the
     * first request with that request's configuration; later configuration
     * arguments are ignored and no other key is touched.
     */
    method RateController(source: string, capacity: int, tokensPerInterval: int, interval: int, now: int)
      returns (b: TokenBucket)
      requires source !in buckets ==> interval > 0
      modifies this
      ensures source in old(buckets) ==> b == old(buckets)[source] && buckets == old(buckets)
      ensures source !in old(buckets) ==>
                fresh(b) && buckets == old(buckets)[source := b]
                && b.State() == Fresh(capacity, tokensPerInterval, interval, now)
      ensures forall k :: k in old(buckets) ==> k in buckets && buckets[k] == old(buckets)[k]
    {
      if source !in buckets {
        var created := new TokenBucket(capacity, tokensPerInterval, interval, now);
        buckets := buckets[source := created];
      }
      b := buckets[source];
    }
  }
}
