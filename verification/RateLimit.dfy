/** internal/middleware/ratelimit.go: a Redis counter per tenant and minute, for one tenant.
    Times are nanoseconds of one clock. */
module RateLimit {
  import opened Wrappers

  const SECOND: int := 1_000_000_000
  const MINUTE: int := 60 * SECOND
  /** EXPIRE ... 90*time.Second */
  const TTL: int := 90 * SECOND
  /** What the expiry leaves over after the minute. */
  const SLACK: int := TTL - MINUTE

  /** expires is None while no EXPIRE was carried out. */
  datatype Counter = Counter(count: nat, expires: Option<int>)

  type Counters = map<int, Counter>

  /** Lost: the pipeline returned an error; either command may have been carried out. */
  datatype Redis = Answered | Lost(incr: bool, expire: bool)

  /** The interceptor reads the clock at `now`; Redis carries the pipeline out at `at`. */
  datatype Call = Call(now: nat, at: int, redis: Redis)

  function Bucket(now: nat): int {
    now / SECOND / 60
  }

  predicate Alive(c: Counter, at: int) {
    c.expires.None? || at < c.expires.value
  }

  /** The value Redis holds for a bucket; an expired key is gone. */
  function Held(cs: Counters, b: int, at: int): nat {
    if b in cs && Alive(cs[b], at) then cs[b].count else 0
  }

  function Incr(cs: Counters, b: int, at: int): Counters {
    cs[b := Counter(Held(cs, b, at) + 1, if b in cs && Alive(cs[b], at) then cs[b].expires else None)]
  }

  function Expire(cs: Counters, b: int, at: int): Counters {
    if b in cs && Alive(cs[b], at) then cs[b := cs[b].(expires := Some(at + TTL))] else cs
  }

  function Piped(cs: Counters, c: Call): Counters {
    var b := Bucket(c.now);
    var cs1 := if c.redis.Lost? && !c.redis.incr then cs else Incr(cs, b, c.at);
    if c.redis.Lost? && !c.redis.expire then cs1 else Expire(cs1, b, c.at)
  }

  /** A request is let through unless Redis answered with a count above the limit. */
  predicate LetThrough(rpm: int, cs: Counters, c: Call) {
    c.redis.Lost? || Held(cs, Bucket(c.now), c.at) + 1 <= rpm
  }

  class RateLimiter {
    var counters: Counters

    constructor ()
      ensures counters == map[]
    {
      counters := map[];
    }

    method SlidingWindowAllow(c: Call, rpm: int) returns (allowed: bool, remaining: int, err: bool)
      modifies this
      ensures counters == Piped(old(counters), c)
      ensures allowed == LetThrough(rpm, old(counters), c) && err == c.redis.Lost?
      ensures allowed && !err ==> remaining == rpm - Held(counters, Bucket(c.now), c.at) >= 0
    {
      var window := Bucket(c.now);
      if c.redis.Answered? || c.redis.incr {
        counters := Incr(counters, window, c.at);
      }
      if c.redis.Answered? || c.redis.expire {
        counters := Expire(counters, window, c.at);
      }
      if c.redis.Lost? {
        return true, rpm, true;
      }
      var count := counters[window].count;
      if count > rpm {
        return false, 0, false;
      }
      return true, rpm - count, false;
    }

    /** Whether the handler runs; on a Redis failure it does. */
    method RateLimitInterceptor(c: Call, rpm: int) returns (handled: bool)
      modifies this
      ensures counters == Piped(old(counters), c)
      ensures handled == LetThrough(rpm, old(counters), c)
      ensures c.redis.Lost? ==> handled
      ensures c.redis.Answered? ==> (handled <==> Held(counters, Bucket(c.now), c.at) <= rpm)
    {
      var allowed, remaining, err := SlidingWindowAllow(c, rpm);
      if err {
        return true;
      }
      return allowed;
    }
  }

  // ── Whole runs, in the order Redis carries the pipelines out ──

  function After(calls: seq<Call>): Counters {
    if calls == [] then map[] else Piped(After(calls[..|calls| - 1]), calls[|calls| - 1])
  }

  predicate In(c: Call, b: int) {
    Bucket(c.now) == b
  }

  /** Calls of a bucket that Redis answered, and those it did not. */
  function AnsweredIn(calls: seq<Call>, b: int): nat {
    if calls == [] then 0
    else
      var c := calls[|calls| - 1];
      AnsweredIn(calls[..|calls| - 1], b) + if In(c, b) && c.redis.Answered? then 1 else 0
  }

  function LostIn(calls: seq<Call>, b: int): nat {
    if calls == [] then 0
    else
      var c := calls[|calls| - 1];
      LostIn(calls[..|calls| - 1], b) + if In(c, b) && c.redis.Lost? then 1 else 0
  }

  /** Requests of a bucket that were let through. */
  function AdmittedIn(rpm: int, calls: seq<Call>, b: int): nat {
    if calls == [] then 0
    else
      var before, c := calls[..|calls| - 1], calls[|calls| - 1];
      AdmittedIn(rpm, before, b) + if In(c, b) && LetThrough(rpm, After(before), c) then 1 else 0
  }

  /** The clock does not run backwards and no pipeline takes more than 30 seconds. */
  predicate Prompt(calls: seq<Call>) {
    && (forall i :: 0 <= i < |calls| ==> calls[i].now <= calls[i].at <= calls[i].now + SLACK)
    && (forall i, j :: 0 <= i < j < |calls| ==> calls[i].at <= calls[j].at)
  }

  lemma PromptPrefix(calls: seq<Call>)
    requires Prompt(calls) && calls != []
    ensures Prompt(calls[..|calls| - 1])
  {
  }

  /** A pipeline of bucket b is carried out between the start of its minute and 30 seconds after
      its end. */
  lemma WithinItsMinute(c: Call)
    requires c.now <= c.at <= c.now + SLACK
    ensures Bucket(c.now) * MINUTE <= c.at < Bucket(c.now) * MINUTE + TTL
  {
    var s := c.now / SECOND;
    assert s * SECOND <= c.now < s * SECOND + SECOND;
    assert s / 60 * 60 <= s <= s / 60 * 60 + 59;
  }

  /** The expiry never takes a counter away while calls of its own minute still arrive. */
  predicate Lasts(cs: Counters, b: int) {
    b in cs ==> cs[b].expires.None? || cs[b].expires.value >= b * MINUTE + TTL
  }

  lemma PipedLasts(cs: Counters, c: Call, b: int)
    requires c.now <= c.at <= c.now + SLACK && Lasts(cs, b)
    ensures Lasts(Piped(cs, c), b)
    ensures In(c, b) && b in cs ==> Alive(cs[b], c.at)
  {
    WithinItsMinute(c);
  }

  lemma {:induction false} ExpirySpares(calls: seq<Call>, b: int)
    requires Prompt(calls)
    ensures Lasts(After(calls), b)
  {
    if calls != [] {
      PromptPrefix(calls);
      ExpirySpares(calls[..|calls| - 1], b);
      PipedLasts(After(calls[..|calls| - 1]), calls[|calls| - 1], b);
    }
  }

  /** The calls of the bucket came while its key was alive, and none of them carried EXPIRE out. */
  predicate OnlyCounted(calls: seq<Call>, b: int, until: int) {
    forall i :: 0 <= i < |calls| && In(calls[i], b) ==>
      calls[i].at < until && calls[i].redis.Lost? && !calls[i].redis.expire
  }

  /** An answered call makes the key last 90 s from then; counting alone does not prolong or lift that, so
      the key is gone afterwards. */
  lemma {:induction false} KeyGoes(calls: seq<Call>, c: Call, more: seq<Call>, at: int)
    requires c.redis.Answered? && OnlyCounted(more, Bucket(c.now), c.at + TTL) && at >= c.at + TTL
    ensures
      var cs, b := After(calls + [c] + more), Bucket(c.now);
      b in cs && cs[b].expires == Some(c.at + TTL) && Held(cs, b, at) == 0
  {
    if more == [] {
      assert calls + [c] + [] == calls + [c] && (calls + [c])[..|calls|] == calls;
    } else {
      var q, last := more[..|more| - 1], more[|more| - 1];
      KeyGoes(calls, c, q, at);
      assert (calls + [c] + more)[..|calls + [c] + more| - 1] == calls + [c] + q;
      assert (calls + [c] + more)[|calls + [c] + more| - 1] == last;
    }
  }

  function CountOf(cs: Counters, b: int): nat {
    if b in cs then cs[b].count else 0
  }

  lemma PipedCounts(cs: Counters, c: Call, b: int)
    requires b in cs && In(c, b) ==> Alive(cs[b], c.at)
    ensures CountOf(Piped(cs, c), b) ==
      CountOf(cs, b) + if In(c, b) && (c.redis.Answered? || c.redis.incr) then 1 else 0
  {
  }

  /** The counter of a minute is the number of its answered calls, and at most the lost ones more. */
  lemma {:induction false} CounterCounts(calls: seq<Call>, b: int)
    requires Prompt(calls)
    ensures AnsweredIn(calls, b) <= CountOf(After(calls), b) <= AnsweredIn(calls, b) + LostIn(calls, b)
  {
    if calls != [] {
      var before, c := calls[..|calls| - 1], calls[|calls| - 1];
      PromptPrefix(calls);
      CounterCounts(before, b);
      ExpirySpares(before, b);
      PipedLasts(After(before), c, b);
      PipedCounts(After(before), c, b);
    }
  }

  lemma HeldIsCount(calls: seq<Call>, c: Call)
    requires Prompt(calls + [c])
    ensures Held(After(calls), Bucket(c.now), c.at) == CountOf(After(calls), Bucket(c.now))
  {
    var all := calls + [c];
    assert all[|calls|] == c && all[..|all| - 1] == calls;
    PromptPrefix(all);
    ExpirySpares(calls, Bucket(c.now));
    PipedLasts(After(calls), c, Bucket(c.now));
  }

  /** With no lost call in its minute, a request is let through exactly when fewer than rpm were
      counted before it in that minute. */
  lemma FirstRpmAreLetThrough(rpm: int, calls: seq<Call>, c: Call)
    requires Prompt(calls + [c]) && c.redis.Answered? && LostIn(calls, Bucket(c.now)) == 0
    ensures LetThrough(rpm, After(calls), c) <==> AnsweredIn(calls, Bucket(c.now)) < rpm
  {
    var all := calls + [c];
    assert all[..|all| - 1] == calls;
    PromptPrefix(all);
    HeldIsCount(calls, c);
    CounterCounts(calls, Bucket(c.now));
  }

  /** Requests let through whose clock reading lies in a span. */
  function AdmittedWithin(rpm: int, calls: seq<Call>, from: int, until: int): nat {
    if calls == [] then 0
    else
      var before, c := calls[..|calls| - 1], calls[|calls| - 1];
      AdmittedWithin(rpm, before, from, until)
      + if from <= c.now <= until && LetThrough(rpm, After(before), c) then 1 else 0
  }

  lemma TwoBuckets(now: nat, from: nat)
    requires from <= now <= from + MINUTE
    ensures Bucket(now) == Bucket(from) || Bucket(now) == Bucket(from) + 1
  {
    var a, n := from / SECOND, now / SECOND;
    assert a <= n <= a + 60;
  }

  /** Calls Redis answered and let through, of a bucket. */
  function AnsweredAndAdmitted(rpm: int, calls: seq<Call>, b: int): nat {
    if calls == [] then 0
    else
      var before, c := calls[..|calls| - 1], calls[|calls| - 1];
      AnsweredAndAdmitted(rpm, before, b)
      + if In(c, b) && c.redis.Answered? && LetThrough(rpm, After(before), c) then 1 else 0
  }

  lemma {:induction false} AtMostRpmAnswered(rpm: int, calls: seq<Call>, b: int)
    requires Prompt(calls)
    ensures AnsweredAndAdmitted(rpm, calls, b) <= AnsweredIn(calls, b)
    ensures AnsweredAndAdmitted(rpm, calls, b) <= if rpm > 0 then rpm else 0
  {
    if calls != [] {
      var before, c := calls[..|calls| - 1], calls[|calls| - 1];
      PromptPrefix(calls);
      AtMostRpmAnswered(rpm, before, b);
      assert before + [c] == calls;
      HeldIsCount(before, c);
      CounterCounts(before, b);
    }
  }

  /** Redis failures let everything through: what a minute admits is what was answered and let through, and
      all that was lost. */
  lemma {:induction false} AdmittedSplits(rpm: int, calls: seq<Call>, b: int)
    ensures AdmittedIn(rpm, calls, b) == AnsweredAndAdmitted(rpm, calls, b) + LostIn(calls, b)
  {
    if calls != [] {
      AdmittedSplits(rpm, calls[..|calls| - 1], b);
    }
  }

  /** In a minute at most the limit, and one more for every call lost in it. */
  lemma AdmittedBounds(rpm: int, calls: seq<Call>, b: int)
    requires Prompt(calls)
    ensures AdmittedIn(rpm, calls, b) <= LostIn(calls, b) + if rpm > 0 then rpm else 0
  {
    AdmittedSplits(rpm, calls, b);
    AtMostRpmAnswered(rpm, calls, b);
  }

  /** Lost calls whose clock reading lies in a span. */
  function LostWithin(calls: seq<Call>, from: int, until: int): nat {
    if calls == [] then 0
    else
      var c := calls[|calls| - 1];
      LostWithin(calls[..|calls| - 1], from, until) + if from <= c.now <= until && c.redis.Lost? then 1 else 0
  }

  lemma {:induction false} SpanInTwoBuckets(rpm: int, calls: seq<Call>, from: nat)
    ensures AdmittedWithin(rpm, calls, from, from + MINUTE) <=
      AnsweredAndAdmitted(rpm, calls, Bucket(from)) + AnsweredAndAdmitted(rpm, calls, Bucket(from) + 1)
      + LostWithin(calls, from, from + MINUTE)
  {
    if calls != [] {
      var c := calls[|calls| - 1];
      SpanInTwoBuckets(rpm, calls[..|calls| - 1], from);
      if from <= c.now <= from + MINUTE {
        TwoBuckets(c.now, from);
      }
    }
  }

  /** In any 60 seconds at most twice the limit, and one more for every call lost in them. */
  lemma AtMostTwice(rpm: nat, calls: seq<Call>, from: nat)
    requires Prompt(calls)
    ensures AdmittedWithin(rpm, calls, from, from + MINUTE) <= 2 * rpm + LostWithin(calls, from, from + MINUTE)
  {
    SpanInTwoBuckets(rpm, calls, from);
    AtMostRpmAnswered(rpm, calls, Bucket(from));
    AtMostRpmAnswered(rpm, calls, Bucket(from) + 1);
  }

  // ── The bound is met ──

  /** n requests in the last second of the first minute, then m in the first of the second. */
  function Burst(n: nat, m: nat): seq<Call> {
    if m > 0 then Burst(n, m - 1) + [Call(60 * SECOND, 60 * SECOND, Answered)]
    else if n > 0 then Burst(n - 1, 0) + [Call(59 * SECOND, 59 * SECOND, Answered)]
    else []
  }

  lemma {:induction false} BurstShape(n: nat, m: nat)
    ensures |Burst(n, m)| == n + m
    ensures forall i :: 0 <= i < n + m ==>
      Burst(n, m)[i] == var t := if i < n then 59 * SECOND else 60 * SECOND; Call(t, t, Answered)
    ensures Prompt(Burst(n, m))
  {
    if m > 0 {
      BurstShape(n, m - 1);
    } else if n > 0 {
      BurstShape(n - 1, 0);
    }
  }

  lemma {:induction false} BurstCounts(n: nat, m: nat)
    ensures AnsweredIn(Burst(n, m), 0) == n && AnsweredIn(Burst(n, m), 1) == m
    ensures LostIn(Burst(n, m), 0) == LostIn(Burst(n, m), 1) == 0
  {
    assert Bucket(59 * SECOND) == 0 && Bucket(60 * SECOND) == 1;
    if m > 0 {
      BurstCounts(n, m - 1);
      assert Burst(n, m)[..|Burst(n, m)| - 1] == Burst(n, m - 1);
    } else if n > 0 {
      BurstCounts(n - 1, 0);
      assert Burst(n, 0)[..|Burst(n, 0)| - 1] == Burst(n - 1, 0);
    }
  }

  lemma AdmittedOneMore(rpm: nat, calls: seq<Call>, c: Call)
    requires Prompt(calls + [c]) && c.redis.Answered? && 59 * SECOND <= c.now <= 60 * SECOND
    requires LostIn(calls, Bucket(c.now)) == 0 && AnsweredIn(calls, Bucket(c.now)) < rpm
    ensures AdmittedWithin(rpm, calls + [c], 59 * SECOND, 60 * SECOND) ==
      AdmittedWithin(rpm, calls, 59 * SECOND, 60 * SECOND) + 1
  {
    FirstRpmAreLetThrough(rpm, calls, c);
    assert (calls + [c])[..|calls|] == calls;
  }

  lemma SecondMinuteGrows(rpm: nat, n: nat, m: nat)
    requires 1 <= m <= rpm
    ensures AdmittedWithin(rpm, Burst(n, m), 59 * SECOND, 60 * SECOND) ==
      AdmittedWithin(rpm, Burst(n, m - 1), 59 * SECOND, 60 * SECOND) + 1
  {
    BurstShape(n, m);
    BurstCounts(n, m - 1);
    assert Bucket(60 * SECOND) == 1;
    AdmittedOneMore(rpm, Burst(n, m - 1), Call(60 * SECOND, 60 * SECOND, Answered));
  }

  lemma FirstMinuteGrows(rpm: nat, n: nat)
    requires 1 <= n <= rpm
    ensures AdmittedWithin(rpm, Burst(n, 0), 59 * SECOND, 60 * SECOND) ==
      AdmittedWithin(rpm, Burst(n - 1, 0), 59 * SECOND, 60 * SECOND) + 1
  {
    BurstShape(n, 0);
    BurstCounts(n - 1, 0);
    assert Bucket(59 * SECOND) == 0;
    AdmittedOneMore(rpm, Burst(n - 1, 0), Call(59 * SECOND, 59 * SECOND, Answered));
  }

  /** Twice the limit really is let through within one second. */
  lemma {:induction false} TwiceInOneSecond(rpm: nat, n: nat, m: nat)
    requires n <= rpm && m <= rpm
    ensures AdmittedWithin(rpm, Burst(n, m), 59 * SECOND, 60 * SECOND) == n + m
  {
    if m > 0 {
      TwiceInOneSecond(rpm, n, m - 1);
      SecondMinuteGrows(rpm, n, m);
    } else if n > 0 {
      TwiceInOneSecond(rpm, n - 1, 0);
      FirstMinuteGrows(rpm, n);
    }
  }

  /** A pipeline that takes one nanosecond more than 30 seconds can find the counter gone. */
  lemma SlackIsNeeded()
    ensures
      var first, late := Call(0, 0, Answered), Call(MINUTE - 1, MINUTE - 1 + SLACK + 1, Answered);
      Bucket(first.now) == Bucket(late.now) && LetThrough(1, After([first]), late)
  {
    var first := Call(0, 0, Answered);
    assert [first][..0] == [];
    assert After([first]) == Piped(map[], first);
  }
}
