/**
 The per-key token-bucket rate limiter (`internal/transport/http/ratelimit.go`).

 Time is counted in nanoseconds (`int`), tokens are `real`.  `Limiter` is the limiter as the
 program runs it; the functions above it give one call its meaning, and the lemmas below it speak
 about whole runs: how much a key can be given (envelope), that nothing admissible is refused for
 good (greedy optimality) and when `Cleanup` cannot be noticed.
 */
module RateLimiter {

  // ---------- one bucket ----------

  datatype Config = Config(rate: real, capacity: int)

  datatype Bucket = Bucket(tokens: real, lastCheck: int)

  function Min(a: real, b: real): real { if a < b then a else b }

  function Seconds(nanos: int): real { nanos as real / 1_000_000_000.0 }

  /** Tokens earned over a span of time. */
  function Earned(cfg: Config, nanos: int): real { Seconds(nanos) * cfg.rate }

  function Refilled(cfg: Config, b: Bucket, now: int): real {
    Min(cfg.capacity as real, b.tokens + Earned(cfg, now - b.lastCheck))
  }

  predicate Admits(cfg: Config, b: Bucket, now: int) { Refilled(cfg, b, now) >= 1.0 }

  function Charged(cfg: Config, b: Bucket, now: int): Bucket {
    Bucket(Refilled(cfg, b, now) - (if Admits(cfg, b, now) then 1.0 else 0.0), now)
  }

  function Fresh(cfg: Config, created: int): Bucket { Bucket(cfg.capacity as real, created) }

  // ---------- the table of buckets ----------

  type Buckets = map<string, Bucket>

  function Lookup(cfg: Config, m: Buckets, key: string, created: int): Bucket {
    if key in m then m[key] else Fresh(cfg, created)
  }

  predicate Stale(b: Bucket, maxAge: int, now: int) { now - b.lastCheck > maxAge }

  function Purged(m: Buckets, maxAge: int, now: int): Buckets {
    map k | k in m && !Stale(m[k], maxAge, now) :: m[k]
  }

  class Limiter {
    const cfg: Config
    var buckets: Buckets

    constructor (rate: real, capacity: int)
      ensures cfg == Config(rate, capacity) && buckets == map[]
    {
      cfg, buckets := Config(rate, capacity), map[];
    }

    /** `created` and `now` are the two clock readings; the first is taken only for a new key. */
    method Allow(key: string, created: int, now: int) returns (ok: bool)
      modifies this`buckets
      ensures [ok] == AnswerTo(cfg, old(buckets), Op.Allow(key, created, now))
      ensures buckets == Apply(cfg, old(buckets), Op.Allow(key, created, now))
    {
      if key !in buckets {
        buckets := buckets[key := Bucket(cfg.capacity as real, created)];
      }
      var b := buckets[key];
      var tokens := Min(cfg.capacity as real, b.tokens + Seconds(now - b.lastCheck) * cfg.rate);
      ok := tokens >= 1.0;
      if ok {
        tokens := tokens - 1.0;
      }
      buckets := buckets[key := Bucket(tokens, now)];
      assert Bucket(tokens, now) == Charged(cfg, Lookup(cfg, old(buckets), key, created), now);
    }

    method Cleanup(maxAge: int, now: int)
      modifies this`buckets
      ensures buckets == Apply(cfg, old(buckets), Op.Cleanup(maxAge, now))
    {
      var todo := buckets.Keys;
      while todo != {}
        invariant todo <= old(buckets).Keys
        invariant forall k :: k in buckets <==>
                                k in old(buckets) && (k in todo || !Stale(old(buckets)[k], maxAge, now))
        invariant forall k :: k in buckets ==> buckets[k] == old(buckets)[k]
        decreases todo
      {
        var k :| k in todo;
        if now - buckets[k].lastCheck > maxAge {
          buckets := buckets - {k};
        }
        todo := todo - {k};
      }
    }
  }

  // ---------- runs ----------

  datatype Op =
    | Allow(key: string, created: int, now: int)
    | Cleanup(maxAge: int, now: int)

  function Apply(cfg: Config, m: Buckets, op: Op): Buckets {
    match op
    case Allow(key, created, now) => m[key := Charged(cfg, Lookup(cfg, m, key, created), now)]
    case Cleanup(maxAge, now) => Purged(m, maxAge, now)
  }

  function Final(cfg: Config, m: Buckets, ops: seq<Op>): Buckets
    decreases ops
  {
    if ops == [] then m else Final(cfg, Apply(cfg, m, ops[0]), ops[1..])
  }

  /** The answers of the `Allow` calls of a run, in order. */
  function Answers(cfg: Config, m: Buckets, ops: seq<Op>): seq<bool>
    decreases ops
  {
    if ops == [] then [] else AnswerTo(cfg, m, ops[0]) + Answers(cfg, Apply(cfg, m, ops[0]), ops[1..])
  }

  function AnswerTo(cfg: Config, m: Buckets, op: Op): seq<bool> {
    match op
    case Allow(key, created, now) => [Admits(cfg, Lookup(cfg, m, key, created), now)]
    case Cleanup(_, _) => []
  }

  /** The clock never runs backwards. */
  predicate Timely(clock: int, ops: seq<Op>)
    decreases ops
  {
    ops != [] ==>
      && clock <= ops[0].now
      && (ops[0].Allow? ==> clock <= ops[0].created <= ops[0].now)
      && Timely(ops[0].now, ops[1..])
  }

  /** Every bucket holds between 0 and `capacity` tokens and was last touched in the past. */
  ghost predicate Sound(cfg: Config, m: Buckets, clock: int) {
    forall k :: k in m ==> 0.0 <= m[k].tokens <= cfg.capacity as real && m[k].lastCheck <= clock
  }

  ghost predicate Sensible(cfg: Config) { cfg.rate >= 0.0 && cfg.capacity >= 0 }

  function EndTime(clock: int, ops: seq<Op>): int {
    if ops == [] then clock else ops[|ops| - 1].now
  }

  lemma EarnedAdds(cfg: Config, a: int, b: int)
    ensures Earned(cfg, a + b) == Earned(cfg, a) + Earned(cfg, b)
  {
    assert Seconds(a + b) == Seconds(a) + Seconds(b);
  }

  lemma EarnedGrows(cfg: Config, a: int, b: int)
    requires cfg.rate >= 0.0 && a <= b
    ensures Earned(cfg, a) <= Earned(cfg, b)
    ensures 0 <= a ==> 0.0 <= Earned(cfg, a)
  {
    assert Seconds(b) - Seconds(a) >= 0.0;
    assert Earned(cfg, b) - Earned(cfg, a) == (Seconds(b) - Seconds(a)) * cfg.rate;
  }

  lemma ChargedBounds(cfg: Config, b: Bucket, now: int)
    requires Sensible(cfg) && 0.0 <= b.tokens <= cfg.capacity as real && b.lastCheck <= now
    ensures 0.0 <= Charged(cfg, b, now).tokens <= cfg.capacity as real
  {
    EarnedGrows(cfg, 0, now - b.lastCheck);
  }

  /** Tokens stay within [0, capacity] over every run, whatever is cleaned up in between. */
  lemma {:induction false} TokensStayInRange(cfg: Config, m: Buckets, clock: int, ops: seq<Op>)
    requires Sensible(cfg) && Sound(cfg, m, clock) && Timely(clock, ops)
    ensures Sound(cfg, Final(cfg, m, ops), EndTime(clock, ops))
    decreases ops
  {
    if ops != [] {
      var op := ops[0];
      if op.Allow? {
        ChargedBounds(cfg, Lookup(cfg, m, op.key, op.created), op.now);
      }
      TokensStayInRange(cfg, Apply(cfg, m, op), op.now, ops[1..]);
    }
  }

  // ---------- one bucket over many arrivals ----------

  function Count(s: seq<bool>): nat {
    if s == [] then 0 else (if s[0] then 1 else 0) + Count(s[1..])
  }

  function Grants(cfg: Config, b: Bucket, times: seq<int>): (g: seq<bool>)
    ensures |g| == |times|
    decreases times
  {
    if times == [] then [] else
    [Admits(cfg, b, times[0])] + Grants(cfg, Charged(cfg, b, times[0]), times[1..])
  }

  predicate Ascending(from: int, times: seq<int>)
    decreases times
  {
    times != [] ==> from <= times[0] && Ascending(times[0], times[1..])
  }

  /** `n` calls over `nanos` nanoseconds stay within capacity + rate per second * length; both sides are in token-nanoseconds. */
  predicate Within(cfg: Config, n: nat, nanos: int) {
    n as real * 1_000_000_000.0 <= cfg.capacity as real * 1_000_000_000.0 + cfg.rate * nanos as real
  }

  /** Every window of arrivals holds at most capacity + rate * length picked ones. */
  ghost predicate Paced(cfg: Config, times: seq<int>, pick: seq<bool>)
    requires |pick| == |times|
  {
    forall i, j :: 0 <= i <= j < |times| ==> Within(cfg, Count(pick[i..j + 1]), times[j] - times[i])
  }

  /** The same in tokens. */
  ghost predicate Conforms(cfg: Config, times: seq<int>, pick: seq<bool>)
    requires |pick| == |times|
  {
    forall i, j :: 0 <= i <= j < |times| ==>
      Count(pick[i..j + 1]) as real <= cfg.capacity as real + Earned(cfg, times[j] - times[i])
  }

  /** The rate is per second. */
  lemma EarnedPerSecond(cfg: Config, nanos: int)
    ensures Earned(cfg, nanos) * 1_000_000_000.0 == cfg.rate * nanos as real
  {
    assert Seconds(nanos) * 1_000_000_000.0 == nanos as real;
  }

  lemma WithinIsEarned(cfg: Config, n: nat, nanos: int)
    ensures Within(cfg, n, nanos) <==> n as real <= cfg.capacity as real + Earned(cfg, nanos)
  {
    EarnedPerSecond(cfg, nanos);
  }

  lemma PacedIsConforming(cfg: Config, times: seq<int>, pick: seq<bool>)
    requires |pick| == |times|
    ensures Paced(cfg, times, pick) <==> Conforms(cfg, times, pick)
  {
    forall i, j | 0 <= i <= j < |times|
      ensures Within(cfg, Count(pick[i..j + 1]), times[j] - times[i]) <==>
              Count(pick[i..j + 1]) as real <= cfg.capacity as real + Earned(cfg, times[j] - times[i])
    {
      WithinIsEarned(cfg, Count(pick[i..j + 1]), times[j] - times[i]);
    }
  }

  lemma {:induction false} AscendingOrder(from: int, times: seq<int>, i: nat, j: nat)
    requires Ascending(from, times) && i <= j < |times|
    ensures from <= times[i] <= times[j]
    decreases times
  {
    if i > 0 {
      AscendingOrder(times[0], times[1..], i - 1, j - 1);
    } else if j > 0 {
      AscendingOrder(times[0], times[1..], 0, j - 1);
    }
  }

  /** What a bucket grants by its last arrival is covered by what it held and what it earned. */
  lemma {:induction false} GrantsWithinTokens(cfg: Config, b: Bucket, times: seq<int>, n: nat)
    requires Sensible(cfg) && 0.0 <= b.tokens <= cfg.capacity as real
    requires Ascending(b.lastCheck, times) && n < |times|
    ensures Count(Grants(cfg, b, times)[..n + 1]) as real <= b.tokens + Earned(cfg, times[n] - b.lastCheck)
    ensures Count(Grants(cfg, b, times)[..n + 1]) as real <= cfg.capacity as real + Earned(cfg, times[n] - times[0])
    decreases times
  {
    var g, t, c := Grants(cfg, b, times), times[0], Charged(cfg, b, times[0]);
    ChargedBounds(cfg, b, t);
    assert g[..n + 1][1..] == Grants(cfg, c, times[1..])[..n];
    EarnedAdds(cfg, t - b.lastCheck, times[n] - t);
    AscendingOrder(b.lastCheck, times, 0, n);
    if n > 0 {
      GrantsWithinTokens(cfg, c, times[1..], n - 1);
    } else {
      EarnedGrows(cfg, 0, 0);
    }
  }

  lemma {:induction false} GrantsConformFrom(cfg: Config, b: Bucket, times: seq<int>, i: nat, j: nat)
    requires Sensible(cfg) && 0.0 <= b.tokens <= cfg.capacity as real
    requires Ascending(b.lastCheck, times) && i <= j < |times|
    ensures Count(Grants(cfg, b, times)[i..j + 1]) as real <= cfg.capacity as real + Earned(cfg, times[j] - times[i])
    decreases times
  {
    if i == 0 {
      GrantsWithinTokens(cfg, b, times, j);
    } else {
      var c := Charged(cfg, b, times[0]);
      ChargedBounds(cfg, b, times[0]);
      GrantsConformFrom(cfg, c, times[1..], i - 1, j - 1);
      assert Grants(cfg, b, times)[i..j + 1] == Grants(cfg, c, times[1..])[i - 1..j];
    }
  }

  /** A schedule served from a private bucket that starts with `level` tokens never overdraws it. */
  ghost predicate Affordable(cfg: Config, level: real, last: int, times: seq<int>, pick: seq<bool>)
    requires |pick| == |times|
    decreases times
  {
    times != [] ==>
      var refilled := Min(cfg.capacity as real, level + Earned(cfg, times[0] - last));
      && (pick[0] ==> refilled >= 1.0)
      && Affordable(cfg, refilled - (if pick[0] then 1.0 else 0.0), times[0], times[1..], pick[1..])
  }

  lemma CountSplit(s: seq<bool>, n: nat)
    requires 0 < n <= |s|
    ensures Count(s[..n]) == (if s[0] then 1 else 0) + Count(s[1..][..n - 1])
  {
    assert s[..n][1..] == s[1..][..n - 1];
  }

  lemma ConformsTail(cfg: Config, times: seq<int>, pick: seq<bool>)
    requires |pick| == |times| > 0 && Conforms(cfg, times, pick)
    ensures Conforms(cfg, times[1..], pick[1..])
  {
    forall i, j | 0 <= i <= j < |times[1..]|
      ensures Count(pick[1..][i..j + 1]) as real
           <= cfg.capacity as real + Earned(cfg, times[1..][j] - times[1..][i])
    {
      assert pick[1..][i..j + 1] == pick[i + 1..j + 2];
    }
  }

  /** What is picked after the first arrival is covered by what the first refill left. */
  lemma RestWithinLevel(cfg: Config, level: real, last: int, times: seq<int>, pick: seq<bool>, j: nat)
    requires |pick| == |times| && 0 < j < |times| && Conforms(cfg, times, pick)
    requires Count(pick[..j + 1]) as real <= level + Earned(cfg, times[j] - last)
    ensures Count(pick[1..][..j]) as real
         <= Min(cfg.capacity as real, level + Earned(cfg, times[0] - last))
            - (if pick[0] then 1.0 else 0.0) + Earned(cfg, times[j] - times[0])
  {
    CountSplit(pick, j + 1);
    EarnedAdds(cfg, times[0] - last, times[j] - times[0]);
    assert pick[..j + 1] == pick[0..j + 1];
  }

  lemma {:induction false} ConformingIsAffordable(
      cfg: Config, level: real, last: int, times: seq<int>, pick: seq<bool>)
    requires |pick| == |times| && Conforms(cfg, times, pick)
    requires forall j :: 0 <= j < |times| ==>
               Count(pick[..j + 1]) as real <= level + Earned(cfg, times[j] - last)
    ensures Affordable(cfg, level, last, times, pick)
    decreases times
  {
    if times != [] {
      var t, p := times[0], if pick[0] then 1.0 else 0.0;
      var refilled := Min(cfg.capacity as real, level + Earned(cfg, t - last));
      ConformsTail(cfg, times, pick);
      EarnedAdds(cfg, 0, 0);
      assert pick[..1] == [pick[0]] && pick[0..0 + 1] == [pick[0]];
      assert Count(pick[..0 + 1]) as real <= level + Earned(cfg, times[0] - last);
      forall j | 0 <= j < |times[1..]|
        ensures Count(pick[1..][..j + 1]) as real <= refilled - p + Earned(cfg, times[1..][j] - t)
      {
        RestWithinLevel(cfg, level, last, times, pick, j + 1);
      }
      ConformingIsAffordable(cfg, refilled - p, t, times[1..], pick[1..]);
    }
  }

  /**
   The exchange argument: a rival schedule can only be `lead` grants behind in tokens spent, so it
   never gets further ahead than that.
   */
  lemma {:induction false} GreedyDominates(
      cfg: Config, b: Bucket, level: real, lead: nat, times: seq<int>, pick: seq<bool>, n: nat)
    requires cfg.rate >= 0.0 && |pick| == |times| && n <= |times| && Ascending(b.lastCheck, times)
    requires Affordable(cfg, level, b.lastCheck, times, pick)
    requires level - b.tokens <= lead as real
    ensures Count(pick[..n]) <= Count(Grants(cfg, b, times)[..n]) + lead
    decreases times
  {
    if n > 0 {
      var t, g := times[0], Grants(cfg, b, times);
      var c := Charged(cfg, b, t);
      var refilled := Min(cfg.capacity as real, level + Earned(cfg, t - b.lastCheck));
      var rest := refilled - (if pick[0] then 1.0 else 0.0);
      CountSplit(pick, n);
      CountSplit(g, n);
      assert g[1..] == Grants(cfg, c, times[1..]);
      var lead' := lead + (if g[0] then 1 else 0) - (if pick[0] then 1 else 0);
      GreedyDominates(cfg, c, rest, lead', times[1..], pick[1..], n - 1);
    }
  }

  // ---------- projecting a run onto one key ----------

  predicate NoCleanup(ops: seq<Op>) { forall i :: 0 <= i < |ops| ==> ops[i].Allow? }

  function TimesOf(key: string, ops: seq<Op>): seq<int> {
    if ops == [] then [] else
    (if ops[0].Allow? && ops[0].key == key then [ops[0].now] else []) + TimesOf(key, ops[1..])
  }

  function AnswersOf(cfg: Config, m: Buckets, key: string, ops: seq<Op>): seq<bool>
    decreases ops
  {
    if ops == [] then [] else
    (if ops[0].Allow? && ops[0].key == key
     then [Admits(cfg, Lookup(cfg, m, key, ops[0].created), ops[0].now)] else [])
    + AnswersOf(cfg, Apply(cfg, m, ops[0]), key, ops[1..])
  }

  /** Other keys do not matter: a key's answers are those of its own bucket on its own arrivals. */
  lemma {:induction false} RunProjectsToBucket(cfg: Config, m: Buckets, clock: int, key: string, ops: seq<Op>)
    requires Sensible(cfg) && NoCleanup(ops) && Timely(clock, ops)
    ensures AnswersOf(cfg, m, key, ops) == Grants(cfg, Lookup(cfg, m, key, clock), TimesOf(key, ops))
    decreases ops
  {
    if ops != [] {
      var op, rest := ops[0], ops[1..];
      var m' := Apply(cfg, m, op);
      RunProjectsToBucket(cfg, m', op.now, key, rest);
      if op.key == key {
        var b, b' := Lookup(cfg, m, key, clock), Lookup(cfg, m, key, op.created);
        SameRefill(cfg, m, key, clock, op.created, op.now);
        GrantsStep(cfg, b, op.now, TimesOf(key, rest));
        assert Charged(cfg, b, op.now) == Charged(cfg, b', op.now) == m'[key];
      } else {
        assert TimesOf(key, ops) == TimesOf(key, rest);
        assert AnswersOf(cfg, m, key, ops) == AnswersOf(cfg, m', key, rest);
        if key !in m {
          KeyTimesAscend(op.now, key, rest);
          FreshAnyTime(cfg, clock, op.now, TimesOf(key, rest));
        }
      }
    }
  }

  lemma SameRefill(cfg: Config, m: Buckets, key: string, a: int, b: int, now: int)
    requires Sensible(cfg) && a <= b <= now
    ensures Refilled(cfg, Lookup(cfg, m, key, a), now) == Refilled(cfg, Lookup(cfg, m, key, b), now)
  {
    EarnedGrows(cfg, 0, now - a);
    EarnedGrows(cfg, 0, now - b);
  }

  lemma GrantsStep(cfg: Config, b: Bucket, t: int, times: seq<int>)
    ensures Grants(cfg, b, [t] + times) == [Admits(cfg, b, t)] + Grants(cfg, Charged(cfg, b, t), times)
  {
    assert ([t] + times)[1..] == times;
  }

  lemma FreshAnyTime(cfg: Config, a: int, b: int, times: seq<int>)
    requires Sensible(cfg) && a <= b && Ascending(b, times)
    ensures Grants(cfg, Fresh(cfg, a), times) == Grants(cfg, Fresh(cfg, b), times)
  {
    if times != [] {
      EarnedGrows(cfg, 0, times[0] - a);
      EarnedGrows(cfg, 0, times[0] - b);
    }
  }

  lemma {:induction false} KeyTimesAscend(clock: int, key: string, ops: seq<Op>)
    requires Timely(clock, ops)
    ensures Ascending(clock, TimesOf(key, ops))
    decreases ops
  {
    if ops != [] {
      KeyTimesAscend(ops[0].now, key, ops[1..]);
      if ops[0].Allow? && ops[0].key == key {
        assert TimesOf(key, ops)[1..] == TimesOf(key, ops[1..]);
      } else {
        assert TimesOf(key, ops) == TimesOf(key, ops[1..]);
      }
      AscendingFromEarlier(clock, ops[0].now, TimesOf(key, ops[1..]));
    }
  }

  lemma AscendingFromEarlier(a: int, b: int, times: seq<int>)
    requires a <= b && Ascending(b, times)
    ensures Ascending(a, times)
  {}

  // ---------- main results ----------

  /**
   Envelope bound.  In any Cleanup-free stretch of any run, and whatever other keys do, any window
   of a key's calls sees at most capacity + rate * elapsed of them admitted, the rate being per
   second and time in nanoseconds.
   */
  lemma EnvelopeBound(cfg: Config, before: seq<Op>, stretch: seq<Op>, key: string, start: int, i: nat, j: nat)
    requires Sensible(cfg) && Timely(start, before) && Timely(EndTime(start, before), stretch)
    requires NoCleanup(stretch) && i <= j < |TimesOf(key, stretch)|
    ensures var m := Final(cfg, map[], before);
            var times := TimesOf(key, stretch);
            var given := AnswersOf(cfg, m, key, stretch);
            && |given| == |times|
            && Within(cfg, Count(given[i..j + 1]), times[j] - times[i])
  {
    var m, clock := Final(cfg, map[], before), EndTime(start, before);
    TokensStayInRange(cfg, map[], start, before);
    RunProjectsToBucket(cfg, m, clock, key, stretch);
    var b := Lookup(cfg, m, key, clock);
    KeyTimesAscend(clock, key, stretch);
    AscendingFromEarlier(b.lastCheck, clock, TimesOf(key, stretch));
    var times := TimesOf(key, stretch);
    GrantsConformFrom(cfg, b, times, i, j);
    WithinIsEarned(cfg, Count(Grants(cfg, b, times)[i..j + 1]), times[j] - times[i]);
  }

  /**
   Greedy optimality.  Among all ways of choosing which of a key's arrivals to serve so that every
   window respects the envelope, `Allow` has served the most after every single arrival.
   */
  lemma GreedyIsOptimal(cfg: Config, ops: seq<Op>, start: int, key: string, pick: seq<bool>, n: nat)
    requires Sensible(cfg) && Timely(start, ops) && NoCleanup(ops)
    requires |pick| == |TimesOf(key, ops)| && Paced(cfg, TimesOf(key, ops), pick)
    requires n <= |pick|
    ensures |AnswersOf(cfg, map[], key, ops)| == |pick|
    ensures Paced(cfg, TimesOf(key, ops), AnswersOf(cfg, map[], key, ops))
    ensures Count(pick[..n]) <= Count(AnswersOf(cfg, map[], key, ops)[..n])
  {
    RunProjectsToBucket(cfg, map[], start, key, ops);
    KeyTimesAscend(start, key, ops);
    GrantsConform(cfg, Fresh(cfg, start), TimesOf(key, ops));
    PacedIsConforming(cfg, TimesOf(key, ops), pick);
    PacedIsConforming(cfg, TimesOf(key, ops), AnswersOf(cfg, map[], key, ops));
    ConformingNeverAhead(cfg, start, TimesOf(key, ops), pick, n);
  }

  lemma GrantsConform(cfg: Config, b: Bucket, times: seq<int>)
    requires Sensible(cfg) && 0.0 <= b.tokens <= cfg.capacity as real && Ascending(b.lastCheck, times)
    ensures Conforms(cfg, times, Grants(cfg, b, times))
  {
    var g := Grants(cfg, b, times);
    forall i, j | 0 <= i <= j < |times|
      ensures Count(g[i..j + 1]) as real <= cfg.capacity as real + Earned(cfg, times[j] - times[i])
    {
      GrantsConformFrom(cfg, b, times, i, j);
    }
  }

  lemma ConformingNeverAhead(cfg: Config, start: int, times: seq<int>, pick: seq<bool>, n: nat)
    requires Sensible(cfg) && Ascending(start, times)
    requires |pick| == |times| && Conforms(cfg, times, pick) && n <= |pick|
    ensures Count(pick[..n]) <= Count(Grants(cfg, Fresh(cfg, start), times)[..n])
  {
    forall j | 0 <= j < |times|
      ensures Count(pick[..j + 1]) as real <= cfg.capacity as real + Earned(cfg, times[j] - start)
    {
      assert pick[..j + 1] == pick[0..j + 1];
      AscendingOrder(start, times, 0, j);
      EarnedGrows(cfg, times[j] - times[0], times[j] - start);
    }
    ConformingIsAffordable(cfg, cfg.capacity as real, start, times, pick);
    GreedyDominates(cfg, Fresh(cfg, start), cfg.capacity as real, 0, times, pick, n);
  }

  // ---------- when Cleanup cannot be noticed ----------

  function WithoutCleanups(ops: seq<Op>): seq<Op> {
    if ops == [] then [] else
    (if ops[0].Allow? then [ops[0]] else []) + WithoutCleanups(ops[1..])
  }

  /** The youngest bucket that `Cleanup(maxAge)` can delete has had time to fill up. */
  predicate SafeAge(cfg: Config, maxAge: int) {
    || cfg.capacity <= 0
    || cfg.rate * (if maxAge < 0 then 0 else maxAge + 1) as real >= cfg.capacity as real * 1_000_000_000.0
  }

  ghost predicate CleanupsSafe(cfg: Config, ops: seq<Op>) {
    forall i :: 0 <= i < |ops| && ops[i].Cleanup? ==> SafeAge(cfg, ops[i].maxAge)
  }

  /** `lean` is `full` with some buckets missing, each of which would be full by `clock`. */
  ghost predicate Thinned(cfg: Config, lean: Buckets, full: Buckets, clock: int) {
    && lean.Keys <= full.Keys
    && forall k :: k in full ==>
         if k in lean then lean[k] == full[k]
         else full[k].tokens + Earned(cfg, clock - full[k].lastCheck) >= cfg.capacity as real
  }

  lemma ThinnedLater(cfg: Config, lean: Buckets, full: Buckets, clock: int, now: int)
    requires cfg.rate >= 0.0 && clock <= now && Thinned(cfg, lean, full, clock)
    ensures Thinned(cfg, lean, full, now)
  {
    forall k | k in full && k !in lean
      ensures full[k].tokens + Earned(cfg, now - full[k].lastCheck) >= cfg.capacity as real
    {
      EarnedGrows(cfg, clock - full[k].lastCheck, now - full[k].lastCheck);
    }
  }

  lemma AllowKeepsThinned(cfg: Config, lean: Buckets, full: Buckets, op: Op)
    requires Sensible(cfg) && op.Allow? && op.created <= op.now && Thinned(cfg, lean, full, op.now)
    ensures Thinned(cfg, Apply(cfg, lean, op), Apply(cfg, full, op), op.now)
    ensures Admits(cfg, Lookup(cfg, lean, op.key, op.created), op.now)
        <==> Admits(cfg, Lookup(cfg, full, op.key, op.created), op.now)
  {
    EarnedGrows(cfg, 0, op.now - op.created);
    assert Refilled(cfg, Lookup(cfg, lean, op.key, op.created), op.now)
        == Refilled(cfg, Lookup(cfg, full, op.key, op.created), op.now);
  }

  lemma CleanupKeepsThinned(cfg: Config, lean: Buckets, full: Buckets, op: Op)
    requires Sensible(cfg) && cfg.capacity > 0 && op.Cleanup? && SafeAge(cfg, op.maxAge)
    requires Thinned(cfg, lean, full, op.now) && Sound(cfg, full, op.now)
    ensures Thinned(cfg, Apply(cfg, lean, op), full, op.now)
  {
    forall k | k in lean && Stale(lean[k], op.maxAge, op.now)
      ensures full[k].tokens + Earned(cfg, op.now - full[k].lastCheck) >= cfg.capacity as real
    {
      var youngest := if op.maxAge < 0 then 0 else op.maxAge + 1;
      EarnedPerSecond(cfg, youngest);
      EarnedGrows(cfg, youngest, op.now - full[k].lastCheck);
    }
  }

  lemma {:induction false} SafeCleanupsUnnoticed(cfg: Config, lean: Buckets, full: Buckets, clock: int, ops: seq<Op>)
    requires Sensible(cfg) && cfg.capacity > 0 && Timely(clock, ops) && CleanupsSafe(cfg, ops)
    requires Thinned(cfg, lean, full, clock) && Sound(cfg, full, clock)
    ensures Answers(cfg, lean, ops) == Answers(cfg, full, WithoutCleanups(ops))
    decreases ops
  {
    if ops != [] {
      var op, rest := ops[0], ops[1..];
      ThinnedLater(cfg, lean, full, clock, op.now);
      assert CleanupsSafe(cfg, rest) by {
        assert forall i :: 0 <= i < |rest| ==> rest[i] == ops[i + 1];
      }
      if op.Allow? {
        AllowKeepsThinned(cfg, lean, full, op);
        ChargedBounds(cfg, Lookup(cfg, full, op.key, op.created), op.now);
        SafeCleanupsUnnoticed(cfg, Apply(cfg, lean, op), Apply(cfg, full, op), op.now, rest);
        assert WithoutCleanups(ops)[1..] == WithoutCleanups(rest);
      } else {
        CleanupKeepsThinned(cfg, lean, full, op);
        SafeCleanupsUnnoticed(cfg, Apply(cfg, lean, op), full, op.now, rest);
        assert WithoutCleanups(ops) == WithoutCleanups(rest);
      }
    }
  }

  /** With no burst capacity every answer is "no", so nothing can be noticed either. */
  lemma {:induction false} NoCapacityNoGrants(cfg: Config, m: Buckets, m': Buckets, ops: seq<Op>)
    requires cfg.capacity <= 0
    ensures Answers(cfg, m, ops) == Answers(cfg, m', WithoutCleanups(ops))
    decreases ops
  {
    if ops != [] {
      var op, rest := ops[0], ops[1..];
      if op.Allow? {
        NoCapacityNoGrants(cfg, Apply(cfg, m, op), Apply(cfg, m', op), rest);
        assert WithoutCleanups(ops)[1..] == WithoutCleanups(rest);
      } else {
        NoCapacityNoGrants(cfg, Apply(cfg, m, op), m', rest);
        assert WithoutCleanups(ops) == WithoutCleanups(rest);
      }
    }
  }

  lemma CleanupInvisible(cfg: Config, start: int, ops: seq<Op>)
    requires Sensible(cfg) && Timely(start, ops) && CleanupsSafe(cfg, ops)
    ensures Answers(cfg, map[], ops) == Answers(cfg, map[], WithoutCleanups(ops))
  {
    if cfg.capacity > 0 {
      SafeCleanupsUnnoticed(cfg, map[], map[], start, ops);
    } else {
      NoCapacityNoGrants(cfg, map[], map[], ops);
    }
  }

  // The converse: an unsafe age is noticed by a client that drains, waits just long enough to be
  // collected, and drains again.

  function Burst(key: string, at: int, n: nat): seq<Op> {
    seq(n, i => Allow(key, at, at))
  }

  function DrainTwice(cfg: Config, key: string, maxAge: int): seq<Op>
    requires cfg.capacity >= 0
  {
    var wait := if maxAge < 0 then 0 else maxAge + 1;
    Burst(key, 0, cfg.capacity) + [Cleanup(maxAge, wait)] + Burst(key, wait, cfg.capacity)
  }

  lemma {:induction false} TimelyConcat(clock: int, a: seq<Op>, b: seq<Op>)
    requires Timely(clock, a) && Timely(EndTime(clock, a), b)
    ensures Timely(clock, a + b) && EndTime(clock, a + b) == EndTime(EndTime(clock, a), b)
    decreases a
  {
    if a == [] {
      assert a + b == b;
    } else {
      TimelyConcat(a[0].now, a[1..], b);
      assert (a + b)[1..] == a[1..] + b;
      assert a[1..] != [] ==> a[1..][|a[1..]| - 1] == a[|a| - 1];
    }
  }

  lemma {:induction false} AnswersConcat(cfg: Config, m: Buckets, a: seq<Op>, b: seq<Op>)
    ensures Answers(cfg, m, a + b) == Answers(cfg, m, a) + Answers(cfg, Final(cfg, m, a), b)
    decreases a
  {
    if a == [] {
      assert a + b == b;
    } else {
      var m' := Apply(cfg, m, a[0]);
      AnswersConcat(cfg, m', a[1..], b);
      assert (a + b)[1..] == a[1..] + b && (a + b)[0] == a[0];
      Associative(AnswerTo(cfg, m, a[0]), Answers(cfg, m', a[1..]), Answers(cfg, Final(cfg, m, a), b));
    }
  }

  lemma Associative<T>(a: seq<T>, b: seq<T>, c: seq<T>)
    ensures a + (b + c) == a + b + c
  {}

  lemma {:induction false} FinalConcat(cfg: Config, m: Buckets, a: seq<Op>, b: seq<Op>)
    ensures Final(cfg, m, a + b) == Final(cfg, Final(cfg, m, a), b)
    decreases a
  {
    if a == [] {
      assert a + b == b;
    } else {
      FinalConcat(cfg, Apply(cfg, m, a[0]), a[1..], b);
      assert (a + b)[1..] == a[1..] + b;
    }
  }

  lemma {:induction false} SoleCleanupDropped(a: seq<Op>, op: Op, b: seq<Op>)
    requires NoCleanup(a) && op.Cleanup? && NoCleanup(b)
    ensures WithoutCleanups(a + [op] + b) == a + b
    decreases a
  {
    var all := a + [op] + b;
    if a == [] {
      assert all[0] == op && all[1..] == b;
      NothingToDrop(b);
    } else {
      SoleCleanupDropped(a[1..], op, b);
      assert all[1..] == a[1..] + [op] + b && all[0] == a[0];
      assert [a[0]] + (a[1..] + b) == a + b;
    }
  }

  lemma {:induction false} NothingToDrop(ops: seq<Op>)
    requires NoCleanup(ops)
    ensures WithoutCleanups(ops) == ops
    decreases ops
  {
    if ops != [] {
      NothingToDrop(ops[1..]);
    }
  }

  lemma {:induction false} CountConcat(a: seq<bool>, b: seq<bool>)
    ensures Count(a + b) == Count(a) + Count(b)
    decreases a
  {
    if a == [] {
      assert a + b == b;
    } else {
      CountConcat(a[1..], b);
      assert (a + b)[1..] == a[1..] + b;
    }
  }

  /** A burst against a bucket holding exactly `n` tokens is granted in full and leaves it empty. */
  lemma {:induction false} BurstGranted(cfg: Config, m: Buckets, key: string, at: int, n: nat)
    requires 0 <= n <= cfg.capacity && Refilled(cfg, Lookup(cfg, m, key, at), at) == n as real
    ensures Count(Answers(cfg, m, Burst(key, at, n))) == n
    ensures n > 0 ==> Final(cfg, m, Burst(key, at, n)) == m[key := Bucket(0.0, at)]
    decreases n
  {
    var ops := Burst(key, at, n);
    if n > 0 {
      var m' := Apply(cfg, m, ops[0]);
      assert ops[1..] == Burst(key, at, n - 1);
      EarnedAdds(cfg, 0, 0);
      BurstGranted(cfg, m', key, at, n - 1);
      assert m'[key := Bucket(0.0, at)] == m[key := Bucket(0.0, at)];
    }
  }

  lemma {:induction false} BurstShape(key: string, at: int, n: nat)
    ensures Timely(at, Burst(key, at, n)) && EndTime(at, Burst(key, at, n)) == at
    decreases n
  {
    if n > 0 {
      assert Burst(key, at, n)[1..] == Burst(key, at, n - 1);
      BurstShape(key, at, n - 1);
    }
  }

  lemma {:induction false} SoleKey(cfg: Config, m: Buckets, key: string, ops: seq<Op>)
    requires NoCleanup(ops) && forall i :: 0 <= i < |ops| ==> ops[i].key == key
    ensures AnswersOf(cfg, m, key, ops) == Answers(cfg, m, ops)
    ensures |TimesOf(key, ops)| == |ops| && forall i :: 0 <= i < |ops| ==> TimesOf(key, ops)[i] == ops[i].now
    decreases ops
  {
    if ops != [] {
      SoleKey(cfg, Apply(cfg, m, ops[0]), key, ops[1..]);
    }
  }

  lemma DrainTwiceGranted(cfg: Config, key: string, maxAge: int)
    requires cfg.capacity > 0
    ensures Count(Answers(cfg, map[], DrainTwice(cfg, key, maxAge))) == 2 * cfg.capacity
    ensures Timely(0, DrainTwice(cfg, key, maxAge))
  {
    var c, wait := cfg.capacity, if maxAge < 0 then 0 else maxAge + 1;
    var first, second := Burst(key, 0, c), Burst(key, wait, c);
    var purge := [Cleanup(maxAge, wait)];
    BurstGranted(cfg, map[], key, 0, c);
    BurstGranted(cfg, map[], key, wait, c);
    BurstShape(key, 0, c);
    BurstShape(key, wait, c);
    var drained := Final(cfg, map[], first);
    assert Final(cfg, drained, purge) == map[] && Answers(cfg, drained, purge) == [] by {
      assert Final(cfg, drained, purge) == Apply(cfg, drained, purge[0]);
    }
    AnswersConcat(cfg, map[], first, purge);
    AnswersConcat(cfg, map[], first + purge, second);
    FinalConcat(cfg, map[], first, purge);
    CountConcat(Answers(cfg, map[], first), Answers(cfg, map[], second));
    assert DrainTwice(cfg, key, maxAge) == first + purge + second;
    assert Answers(cfg, map[], first) + [] == Answers(cfg, map[], first);
    TimelyConcat(0, first, purge);
    TimelyConcat(0, first + purge, second);
  }

  lemma DrainTwicePlain(cfg: Config, key: string, maxAge: int, wait: int) returns (plain: seq<Op>)
    requires cfg.capacity > 0 && wait == if maxAge < 0 then 0 else maxAge + 1
    ensures WithoutCleanups(DrainTwice(cfg, key, maxAge)) == plain
    ensures |plain| == 2 * cfg.capacity && plain[0].now == 0 && plain[|plain| - 1].now == wait
    ensures Timely(0, plain) && NoCleanup(plain) && forall i :: 0 <= i < |plain| ==> plain[i].key == key
  {
    var first, second := Burst(key, 0, cfg.capacity), Burst(key, wait, cfg.capacity);
    var purge := [Cleanup(maxAge, wait)];
    plain := first + second;
    SoleCleanupDropped(first, purge[0], second);
    BurstsTimely(key, 0, wait, cfg.capacity);
  }

  lemma BurstsTimely(key: string, first: int, second: int, n: nat)
    requires first <= second
    ensures Timely(first, Burst(key, first, n) + Burst(key, second, n))
  {
    BurstShape(key, first, n);
    BurstShape(key, second, n);
    TimelyLater(first, second, Burst(key, second, n));
    TimelyConcat(first, Burst(key, first, n), Burst(key, second, n));
  }

  lemma UnsafeEarnsLess(cfg: Config, maxAge: int, youngest: int)
    requires !SafeAge(cfg, maxAge) && youngest == if maxAge < 0 then 0 else maxAge + 1
    ensures cfg.capacity > 0 && Earned(cfg, youngest) < cfg.capacity as real
  {
    EarnedPerSecond(cfg, youngest);
  }

  lemma DrainTwiceUncollected(cfg: Config, key: string, maxAge: int)
    requires Sensible(cfg) && !SafeAge(cfg, maxAge)
    ensures Count(Answers(cfg, map[], WithoutCleanups(DrainTwice(cfg, key, maxAge)))) < 2 * cfg.capacity
  {
    var youngest := if maxAge < 0 then 0 else maxAge + 1;
    var plain := DrainTwicePlain(cfg, key, maxAge, youngest);
    SoleKeyEnvelope(cfg, key, plain);
    UnsafeEarnsLess(cfg, maxAge, youngest);
  }

  lemma SoleKeyEnvelope(cfg: Config, key: string, ops: seq<Op>)
    requires Sensible(cfg) && Timely(0, ops) && ops != []
    requires NoCleanup(ops) && forall i :: 0 <= i < |ops| ==> ops[i].key == key
    ensures Count(Answers(cfg, map[], ops)) as real
         <= cfg.capacity as real + Earned(cfg, ops[|ops| - 1].now - ops[0].now)
  {
    SoleKey(cfg, map[], key, ops);
    EnvelopeBound(cfg, [], ops, key, 0, 0, |ops| - 1);
    var given := AnswersOf(cfg, map[], key, ops);
    assert given[0..(|ops| - 1) + 1] == given;
    WithinIsEarned(cfg, Count(given), ops[|ops| - 1].now - ops[0].now);
  }

  lemma UnsafeAgeNoticed(cfg: Config, key: string, maxAge: int)
    requires Sensible(cfg) && !SafeAge(cfg, maxAge)
    ensures var ops := DrainTwice(cfg, key, maxAge);
            && Timely(0, ops)
            && Answers(cfg, map[], ops) != Answers(cfg, map[], WithoutCleanups(ops))
  {
    DrainTwiceGranted(cfg, key, maxAge);
    DrainTwiceUncollected(cfg, key, maxAge);
  }

  lemma TimelyLater(a: int, b: int, ops: seq<Op>)
    requires a <= b && Timely(b, ops)
    ensures Timely(a, ops)
  {}

  predicate UsesAge(ops: seq<Op>, maxAge: int) {
    forall i :: 0 <= i < |ops| && ops[i].Cleanup? ==> ops[i].maxAge == maxAge
  }

  predicate InTimeOrder(start: int, ops: seq<Op>) { Timely(start, ops) }

  predicate Unnoticed(cfg: Config, ops: seq<Op>) {
    Answers(cfg, map[], ops) == Answers(cfg, map[], WithoutCleanups(ops))
  }

  /** Exactly when a cleanup age can never be noticed by any client. */
  lemma CleanupInvisibleIffSafe(cfg: Config, maxAge: int)
    requires Sensible(cfg)
    ensures SafeAge(cfg, maxAge) <==>
            forall start, ops :: InTimeOrder(start, ops) && UsesAge(ops, maxAge) ==> Unnoticed(cfg, ops)
  {
    if SafeAge(cfg, maxAge) {
      forall start, ops | InTimeOrder(start, ops) && UsesAge(ops, maxAge)
        ensures Unnoticed(cfg, ops)
      {
        CleanupInvisible(cfg, start, ops);
      }
    } else {
      var ops := DrainTwice(cfg, "k", maxAge);
      UnsafeAgeNoticed(cfg, "k", maxAge);
      assert InTimeOrder(0, ops) && UsesAge(ops, maxAge) && !Unnoticed(cfg, ops);
    }
  }

  // ---------- how long a drained key waits ----------

  /** At `rate` tokens per second this many nanoseconds make a token. */
  predicate MakesToken(cfg: Config, nanos: int) { nanos as real * cfg.rate >= 1_000_000_000.0 }

  lemma WholeTokenEarned(cfg: Config, nanos: int)
    ensures MakesToken(cfg, nanos) <==> Earned(cfg, nanos) >= 1.0
  {
    EarnedPerSecond(cfg, nanos);
  }

  /** A bucket that was empty at `t` grants nothing until a whole token has been earned since. */
  lemma {:induction false} EmptyBucketWaits(cfg: Config, t: int, b: Bucket, times: seq<int>, k: nat)
    requires cfg.capacity >= 1 && b.tokens == Earned(cfg, b.lastCheck - t) && k < |times|
    requires forall i :: 0 <= i < k ==> Earned(cfg, times[i] - t) < 1.0
    ensures forall i :: 0 <= i < k ==> !Grants(cfg, b, times)[i]
    ensures Grants(cfg, b, times)[k] <==> Earned(cfg, times[k] - t) >= 1.0
    decreases times
  {
    EarnedAdds(cfg, b.lastCheck - t, times[0] - b.lastCheck);
    if k > 0 {
      var later := Charged(cfg, b, times[0]);
      EmptyBucketWaits(cfg, t, later, times[1..], k - 1);
      assert Grants(cfg, b, times)[1..] == Grants(cfg, later, times[1..]);
    }
  }

  /**
   A new key gets its whole burst at once.  After that, whatever other keys do, it is refused for as
   long as the time since then, at `rate` tokens per second, has not made one whole token, and its
   first call after that is granted.
   */
  lemma DrainedKeyWaits(cfg: Config, m: Buckets, key: string, t: int, ops: seq<Op>, k: nat)
    requires Sensible(cfg) && cfg.capacity >= 1 && key !in m
    requires Timely(t, ops) && NoCleanup(ops) && k < |TimesOf(key, ops)|
    requires forall i :: 0 <= i < k ==> !MakesToken(cfg, TimesOf(key, ops)[i] - t)
    ensures var burst := Burst(key, t, cfg.capacity);
            var given := AnswersOf(cfg, Final(cfg, m, burst), key, ops);
            && Count(Answers(cfg, m, burst)) == cfg.capacity && |given| == |TimesOf(key, ops)|
            && (forall i :: 0 <= i < k ==> !given[i])
            && (given[k] <==> MakesToken(cfg, TimesOf(key, ops)[k] - t))
  {
    var times, drained := TimesOf(key, ops), m[key := Bucket(0.0, t)];
    EarnedAdds(cfg, 0, 0);
    BurstGranted(cfg, m, key, t, cfg.capacity);
    RunProjectsToBucket(cfg, drained, t, key, ops);
    forall i | 0 <= i < |times|
      ensures MakesToken(cfg, times[i] - t) <==> Earned(cfg, times[i] - t) >= 1.0
    {
      WholeTokenEarned(cfg, times[i] - t);
    }
    EmptyBucketWaits(cfg, t, Bucket(0.0, t), times, k);
  }
}
