/** `TokenBucket` of src/core/rate-limiter.ts, on an integer clock. */
module TokenBuckets {
  datatype Config = Config(capacity: int, refillRate: int, refillIntervalMs: int)

  ghost predicate Sane(c: Config) {
    c.capacity >= 0 && c.refillRate >= 0 && c.refillIntervalMs >= 1
  }

  datatype Bucket = Bucket(tokens: int, lastRefillTime: int)

  /** `Math.floor(elapsed / interval) * rate` */
  function RefillCount(c: Config, elapsed: int): int
    requires c.refillIntervalMs >= 1
  {
    (elapsed / c.refillIntervalMs) * c.refillRate
  }

  function Min(a: int, b: int): int {
    if a < b then a else b
  }

  function Refilled(c: Config, b: Bucket, now: int): Bucket
    requires c.refillIntervalMs >= 1
  {
    var count := RefillCount(c, now - b.lastRefillTime);
    if count > 0 then Bucket(Min(c.capacity, b.tokens + count), now) else b
  }

  /** A request for `tokens` at time `now`. */
  datatype Request = Request(now: int, tokens: nat)

  predicate Grants(c: Config, b: Bucket, r: Request)
    requires c.refillIntervalMs >= 1
  {
    Refilled(c, b, r.now).tokens >= r.tokens
  }

  function Served(c: Config, b: Bucket, r: Request): Bucket
    requires c.refillIntervalMs >= 1
  {
    var f := Refilled(c, b, r.now);
    if f.tokens >= r.tokens then f.(tokens := f.tokens - r.tokens) else f
  }

  function Run(c: Config, b: Bucket, rs: seq<Request>): Bucket
    requires c.refillIntervalMs >= 1
  {
    if rs == [] then b else Served(c, Run(c, b, rs[..|rs| - 1]), rs[|rs| - 1])
  }

  function Consumed(c: Config, b: Bucket, rs: seq<Request>): nat
    requires c.refillIntervalMs >= 1
  {
    if rs == [] then 0
    else
      var n := |rs| - 1;
      Consumed(c, b, rs[..n]) + if Grants(c, Run(c, b, rs[..n]), rs[n]) then rs[n].tokens else 0
  }

  /** The clock of the requests does not go back, and starts at or after the bucket's. */
  ghost predicate Timely(b: Bucket, rs: seq<Request>) {
    && (forall i :: 0 <= i < |rs| ==> b.lastRefillTime <= rs[i].now)
    && (forall i, j :: 0 <= i < j < |rs| ==> rs[i].now <= rs[j].now)
  }

  // ----------------------------------------------------------------- division

  /** Whole intervals of two stretches never exceed those of the sum. */
  lemma FloorsAdd(a: int, b: int, m: int)
    requires m >= 1
    ensures a / m + b / m <= (a + b) / m
  {
    var q := a / m + b / m;
    assert a == m * (a / m) + a % m && b == m * (b / m) + b % m;
    assert a + b == m * q + (a % m + b % m);
    DivAtLeast(a + b, m, q);
  }

  lemma MulCancel(a: int, b: int, m: int)
    requires m >= 1 && a * m < b * m
    ensures a < b
  {
    if b <= a {
      MulMonotone(b, a, m);
    }
  }

  lemma DivAtLeast(x: int, m: int, q: int)
    requires m >= 1 && x >= m * q
    ensures x / m >= q
  {
    assert x == m * (x / m) + x % m;
    assert q * m < (x / m + 1) * m;
    MulCancel(q, x / m + 1, m);
  }

  lemma DivMonotone(a: int, b: int, m: int)
    requires m >= 1 && a <= b
    ensures a / m <= b / m
  {
    assert a == m * (a / m) + a % m;
    DivAtLeast(b, m, a / m);
  }

  lemma DivPlusOne(a: int, m: int)
    requires m >= 1
    ensures (a + m) / m == a / m + 1
  {
    assert a == m * (a / m) + a % m;
    assert a + m == m * ((a + m) / m) + (a + m) % m;
    assert (a / m + 1) * m < ((a + m) / m + 1) * m;
    assert ((a + m) / m) * m < (a / m + 2) * m;
    MulCancel(a / m + 1, (a + m) / m + 1, m);
    MulCancel((a + m) / m, a / m + 2, m);
  }

  lemma MulMonotone(a: int, b: int, k: int)
    requires a <= b && k >= 0
    ensures a * k <= b * k
  {
  }

  // ------------------------------------------------------------ the invariant

  ghost predicate InRange(c: Config, b: Bucket) {
    0 <= b.tokens <= c.capacity
  }

  function Max(a: int, b: int): int {
    if a < b then b else a
  }

  /** Tokens stay between what they start with, or 0, and what they start with, or the
      capacity. */
  lemma {:induction false} TokensBounded(c: Config, b: Bucket, rs: seq<Request>)
    requires Sane(c)
    ensures Min(0, b.tokens) <= Run(c, b, rs).tokens <= Max(c.capacity, b.tokens)
  {
    if rs != [] {
      TokensBounded(c, b, rs[..|rs| - 1]);
    }
  }

  /** The constructor does not look at the initial tokens. They stay between 0 and the
      capacity in every run if and only if they start there. */
  lemma TokensInRangeIff(c: Config, b: Bucket)
    requires Sane(c)
    ensures AlwaysInRange(c, b) <==> InRange(c, b)
  {
    if InRange(c, b) {
      forall rs
        ensures InRangeAfter(c, b, rs)
      {
        TokensBounded(c, b, rs);
      }
    }
    if AlwaysInRange(c, b) {
      assert InRangeAfter(c, b, []);
    }
  }

  ghost predicate AlwaysInRange(c: Config, b: Bucket)
    requires c.refillIntervalMs >= 1
  {
    forall rs :: InRangeAfter(c, b, rs)
  }

  ghost predicate InRangeAfter(c: Config, b: Bucket, rs: seq<Request>)
    requires c.refillIntervalMs >= 1
  {
    InRange(c, Run(c, b, rs))
  }

  /** A refill credits the rate for each whole interval that has elapsed, and nothing for less
      than one; what was left of an interval is lost. */
  lemma RefillIsByInterval(c: Config, elapsed: int, n: nat)
    requires c.refillIntervalMs >= 1
    requires n * c.refillIntervalMs <= elapsed < (n + 1) * c.refillIntervalMs
    ensures RefillCount(c, elapsed) == n * c.refillRate
  {
    var m := c.refillIntervalMs;
    DivAtLeast(elapsed, m, n);
    assert elapsed == m * (elapsed / m) + elapsed % m;
    assert (elapsed / m) * m < (n + 1) * m;
    MulCancel(elapsed / m, n + 1, m);
  }

  /** Rounding down loses less than half: a refill credits at least half of what the
      elapsed time is worth at the given rate. */
  lemma RefillKeepsHalf(c: Config, elapsed: int)
    requires Sane(c) && RefillCount(c, elapsed) > 0
    ensures 2 * RefillCount(c, elapsed) * c.refillIntervalMs >= elapsed * c.refillRate
  {
    var m, k := c.refillIntervalMs, elapsed / c.refillIntervalMs;
    if k <= 0 {
      MulMonotone(k, 0, c.refillRate);
    }
    assert elapsed == m * k + elapsed % m;
    MulMonotone(1, k, m);
    MulMonotone(elapsed, 2 * (k * m), c.refillRate);
    Rearrange(k, m, c.refillRate);
  }

  lemma Rearrange(k: int, m: int, rate: int)
    ensures (2 * (k * m)) * rate == 2 * (k * rate) * m
  {
    assert (k * m) * rate == (k * rate) * m;
  }

  // -------------------------------------------------------- the rate of a window

  /** After serving a request, less than one interval is unaccounted for, unless
      nothing is ever refilled. */
  ghost predicate Current(c: Config, b: Bucket, now: int) {
    c.refillRate == 0 || (b.lastRefillTime <= now && now - b.lastRefillTime < c.refillIntervalMs)
  }

  lemma ServedIsCurrent(c: Config, b: Bucket, r: Request)
    requires Sane(c) && b.lastRefillTime <= r.now
    ensures Current(c, Served(c, b, r), r.now)
  {
    var elapsed, m := r.now - b.lastRefillTime, c.refillIntervalMs;
    if c.refillRate > 0 && RefillCount(c, elapsed) <= 0 {
      if elapsed >= m {
        DivAtLeast(elapsed, m, 1);
        MulMonotone(1, elapsed / m, c.refillRate);
      }
    }
  }

  /** What has been consumed since `from`, with what is left, is paid for by what there was
      (or could be) at first and the whole intervals between the refills. */
  ghost predicate Funded(c: Config, first: int, consumed: int, b: Bucket, from: int)
    requires c.refillIntervalMs >= 1
  {
    && b.lastRefillTime >= from && consumed >= 0 && (consumed > 0 ==> b.tokens >= 0)
    && consumed + b.tokens <= first + ((b.lastRefillTime - from) / c.refillIntervalMs) * c.refillRate
  }

  lemma ServedIsFunded(c: Config, first: int, consumed: int, b: Bucket, from: int, r: Request)
    requires Sane(c) && Funded(c, first, consumed, b, from) && b.lastRefillTime <= r.now
    ensures Funded(c, first, consumed + (if Grants(c, b, r) then r.tokens else 0), Served(c, b, r), from)
  {
    var m := c.refillIntervalMs;
    var elapsed := r.now - b.lastRefillTime;
    if RefillCount(c, elapsed) > 0 {
      var done := b.lastRefillTime - from;
      FloorsAdd(done, elapsed, m);
      MulMonotone(done / m + elapsed / m, (done + elapsed) / m, c.refillRate);
      assert (done / m + elapsed / m) * c.refillRate == (done / m) * c.refillRate + (elapsed / m) * c.refillRate;
    }
  }

  /** Over the requests of a window, starting with the state its first one leaves. */
  lemma {:induction false} WindowIsFunded(c: Config, b: Bucket, rs: seq<Request>)
    requires Sane(c) && Timely(b, rs) && rs != []
    ensures Funded(c, Max(c.capacity, b.tokens), Consumed(c, b, rs), Run(c, b, rs), Served(c, b, rs[0]).lastRefillTime)
    ensures Run(c, b, rs).lastRefillTime <= rs[|rs| - 1].now
  {
    var n := |rs| - 1;
    if n == 0 {
      assert Run(c, b, []) == b;
      assert Run(c, b, rs) == Served(c, b, rs[0]);
    } else {
      WindowIsFunded(c, b, rs[..n]);
      ServedIsFunded(c, Max(c.capacity, b.tokens), Consumed(c, b, rs[..n]), Run(c, b, rs[..n]),
                     Served(c, b, rs[0]).lastRefillTime, rs[n]);
    }
  }

  /** What a window may take beyond what there is at first. */
  function Credit(c: Config, window: int): int
    requires c.refillIntervalMs >= 1
  {
    (window / c.refillIntervalMs + 1) * c.refillRate
  }

  /** The rate limit: over the requests of any window, from whatever state earlier use has
      left the bucket in, at most the capacity (or what the bucket holds, if that is more)
      plus the refills of the window's whole intervals and of one more are consumed. */
  lemma RateLimit(c: Config, b: Bucket, rs: seq<Request>)
    requires Sane(c) && Timely(b, rs) && rs != []
    ensures Consumed(c, b, rs) <= Max(c.capacity, b.tokens) + Credit(c, rs[|rs| - 1].now - rs[0].now)
  {
    var from, window := Served(c, b, rs[0]).lastRefillTime, rs[|rs| - 1].now - rs[0].now;
    WindowIsFunded(c, b, rs);
    FirstIsRecent(c, b, rs[0]);
    WindowCredit(c, Max(c.capacity, b.tokens), Consumed(c, b, rs), Run(c, b, rs), from, window);
  }

  lemma FirstIsRecent(c: Config, b: Bucket, r: Request)
    requires Sane(c) && b.lastRefillTime <= r.now
    ensures Served(c, b, r).lastRefillTime <= r.now
    ensures c.refillRate == 0 || r.now - Served(c, b, r).lastRefillTime <= c.refillIntervalMs
  {
    ServedIsCurrent(c, b, r);
  }

  lemma WindowCredit(c: Config, first: int, consumed: int, b: Bucket, from: int, window: int)
    requires Sane(c) && first >= 0 && window >= 0 && Funded(c, first, consumed, b, from)
    requires c.refillRate == 0 || b.lastRefillTime - from <= window + c.refillIntervalMs
    ensures consumed <= first + Credit(c, window)
  {
    CreditGrows(c, b.lastRefillTime - from, window);
    if consumed == 0 {
      MulMonotone(0, window / c.refillIntervalMs + 1, c.refillRate);
    }
  }

  lemma CreditGrows(c: Config, between: int, window: int)
    requires Sane(c) && window >= 0
    requires c.refillRate == 0 || between <= window + c.refillIntervalMs
    ensures (between / c.refillIntervalMs) * c.refillRate <= (window / c.refillIntervalMs + 1) * c.refillRate
  {
    if c.refillRate > 0 {
      DivMonotone(between, window + c.refillIntervalMs, c.refillIntervalMs);
      DivPlusOne(window, c.refillIntervalMs);
      MulMonotone(between / c.refillIntervalMs, window / c.refillIntervalMs + 1, c.refillRate);
    }
  }

  /** A bucket that starts with 50 tokens and a capacity of 10 lets 50 go at once, more than
      the capacity and one refill. */
  lemma OverfullBucketExceeds()
    ensures
      var c, b, rs := Config(10, 1, 1000), Bucket(50, 0), [Request(0, 50)];
      Timely(b, rs) && Consumed(c, b, rs) == 50 > c.capacity + Credit(c, rs[|rs| - 1].now - rs[0].now)
  {
    var c, b, rs := Config(10, 1, 1000), Bucket(50, 0), [Request(0, 50)];
    assert rs[..0] == [] && Run(c, b, rs[..0]) == b;
    assert Grants(c, b, rs[0]);
  }

  /** A request can be granted at some later time if and only if the tokens are
      there already, or they are refilled at all and fit into the bucket. */
  lemma EventuallyGrantedIff(c: Config, b: Bucket, tokens: nat)
    requires Sane(c)
    ensures (exists now :: now >= b.lastRefillTime && Grants(c, b, Request(now, tokens)))
       <==> tokens <= b.tokens || (c.refillRate >= 1 && tokens <= c.capacity)
  {
    var m := c.refillIntervalMs;
    if tokens <= b.tokens {
      assert Grants(c, b, Request(b.lastRefillTime, tokens));
    } else if c.refillRate >= 1 && tokens <= c.capacity {
      var missing := tokens - b.tokens;
      var now := b.lastRefillTime + m * missing;
      assert (m * missing) / m >= missing by {
        DivAtLeast(m * missing, m, missing);
      }
      MulMonotone(0, missing, m);
      MulMonotone(missing, (m * missing) / m, c.refillRate);
      MulMonotone(1, c.refillRate, missing);
      assert RefillCount(c, now - b.lastRefillTime) >= missing;
      assert Grants(c, b, Request(now, tokens));
    }
  }

  // ------------------------------------------------------------------ the class

  class TokenBucket {
    const config: Config
    var tokens: int
    var lastRefillTime: int

    function Value(): Bucket
      reads this
    {
      Bucket(tokens, lastRefillTime)
    }

    constructor (config: Config, initialTokens: int, now: int)
      ensures this.config == config && Value() == Bucket(initialTokens, now)
    {
      this.config, tokens, lastRefillTime := config, initialTokens, now;
    }

    method Refill(now: int)
      requires config.refillIntervalMs >= 1
      modifies this
      ensures Value() == Refilled(config, old(Value()), now)
    {
      var elapsed := now - lastRefillTime;
      var refillCount := (elapsed / config.refillIntervalMs) * config.refillRate;
      if refillCount > 0 {
        tokens := Min(config.capacity, tokens + refillCount);
        lastRefillTime := now;
      }
    }

    method TryConsume(n: nat, now: int) returns (ok: bool)
      requires config.refillIntervalMs >= 1
      modifies this
      ensures Value() == Served(config, old(Value()), Request(now, n))
      ensures ok <==> Grants(config, old(Value()), Request(now, n))
    {
      Refill(now);
      if tokens >= n {
        tokens := tokens - n;
        return true;
      }
      return false;
    }

    /** Uncontended waiting for no more than the capacity ends, since every wait of at least
        one interval refills. What it does to the bucket is what the requests `rs` for `n`
        tokens do, made in time order, the last of which alone is granted. */
    method WaitAndConsume(n: nat, start: int) returns (finished: int, ghost rs: seq<Request>)
      requires Sane(config) && lastRefillTime <= start
      requires config.refillRate >= 1 && n <= config.capacity
      modifies this
      ensures finished >= start && lastRefillTime <= finished
      ensures Min(0, old(tokens)) <= tokens <= Max(config.capacity, old(tokens))
      ensures rs != [] && rs[0].now == start && rs[|rs| - 1].now == finished && Timely(old(Value()), rs)
      ensures forall i :: 0 <= i < |rs| ==> rs[i].tokens == n
      ensures Value() == Run(config, old(Value()), rs) && Consumed(config, old(Value()), rs) == n
    {
      var now := start;
      ghost var before := Value();
      rs := [Request(now, n)];
      OneRequest(config, before, rs[0]);
      ServedIsCurrent(config, before, Request(now, n));
      var ok := TryConsume(n, now);
      while !ok
        invariant Min(0, old(tokens)) <= tokens <= Max(config.capacity, old(tokens))
        invariant start <= now && lastRefillTime <= now
        invariant !ok ==> Current(config, Value(), now) && tokens < n
        invariant rs != [] && rs[0].now == start && rs[|rs| - 1].now == now && Timely(old(Value()), rs)
        invariant forall i :: 0 <= i < |rs| ==> rs[i].tokens == n
        invariant Value() == Run(config, old(Value()), rs)
        invariant Consumed(config, old(Value()), rs) == if ok then n else 0
        decreases !ok, config.capacity - tokens
      {
        var delay := Sleep(config.refillIntervalMs);
        before := Value();
        now := now + delay;
        WaitRefills(config, before, now);
        OneMoreRequest(config, old(Value()), rs, Request(now, n));
        rs := rs + [Request(now, n)];
        ServedIsCurrent(config, before, Request(now, n));
        ok := TryConsume(n, now);
      }
      finished := now;
    }

    /** `setTimeout` waits at least as long as it is asked to. */
    method Sleep(atLeast: int) returns (delay: int)
      requires atLeast >= 0
      ensures delay >= atLeast
    {
      delay :| delay >= atLeast;
    }
  }

  lemma OneRequest(c: Config, b: Bucket, r: Request)
    requires c.refillIntervalMs >= 1
    ensures Run(c, b, [r]) == Served(c, b, r)
    ensures Consumed(c, b, [r]) == if Grants(c, b, r) then r.tokens else 0
  {
    assert [r][..0] == [];
  }

  lemma OneMoreRequest(c: Config, b: Bucket, rs: seq<Request>, r: Request)
    requires c.refillIntervalMs >= 1
    ensures Run(c, b, rs + [r]) == Served(c, Run(c, b, rs), r)
    ensures Consumed(c, b, rs + [r]) == Consumed(c, b, rs) + if Grants(c, Run(c, b, rs), r) then r.tokens else 0
  {
    assert (rs + [r])[..|rs|] == rs;
  }

  lemma WaitRefills(c: Config, b: Bucket, now: int)
    requires Sane(c) && c.refillRate >= 1 && now - b.lastRefillTime >= c.refillIntervalMs
    ensures Refilled(c, b, now).tokens >= Min(c.capacity, b.tokens + 1)
  {
    DivAtLeast(now - b.lastRefillTime, c.refillIntervalMs, 1);
    MulMonotone(1, (now - b.lastRefillTime) / c.refillIntervalMs, c.refillRate);
  }
}
