/**
 The gateway's token-bucket limiter. Tokens are counted in millionths and time in
 milliseconds, so that a rate printed with six decimals per millisecond is a whole
 number of millionths per millisecond and all arithmetic is exact.
 */
module TokenBucket {
  import opened Common

  const UNIT := 1_000_000

  // A policy refills `num / den` tokens per second.
  datatype Policy = Policy(capacity: nat, num: nat, den: nat)

  predicate Limits(p: Policy) { p.capacity > 0 && p.num > 0 && p.den > 0 }

  function DivUp(a: nat, b: nat): (q: nat)
    requires b > 0
    ensures b * q >= a && (q > 0 ==> b * (q - 1) < a)
  {
    var q := (a + b - 1) / b;
    DivUpBounds(a, b, q);
    q
  }

  lemma DivUpBounds(a: nat, b: nat, q: nat)
    requires b > 0 && q == (a + b - 1) / b
    ensures b * q >= a && (q > 0 ==> b * (q - 1) < a)
  {
    var r := (a + b - 1) % b;
    assert a + b - 1 == b * q + r;
    assert q > 0 ==> b * (q - 1) == b * q - b;
  }

  // Round half to even, as the decimal printer does.
  function RoundDiv(a: nat, b: nat): (q: nat)
    requires b > 0
    ensures 2 * a - b <= 2 * (b * q) <= 2 * a + b
  {
    var q, r := a / b, a % b;
    NextMultiple(a, b);
    if 2 * r < b || (2 * r == b && q % 2 == 0) then q else q + 1
  }

  lemma NextMultiple(a: nat, b: nat)
    requires b > 0
    ensures a == b * (a / b) + a % b && b * (a / b + 1) == b * (a / b) + b
  {
  }

  // The refill rate as sent to the script: tokens per millisecond with six decimals.
  function Rate(p: Policy): (rate: nat)
    requires p.den > 0
    ensures 2000 * p.num - p.den <= 2 * (p.den * rate) <= 2000 * p.num + p.den
  {
    RoundDiv(1000 * p.num, p.den)
  }

  // The key's time to live in milliseconds: twice the time to fill, at least five seconds.
  function Ttl(p: Policy): (ttl: nat)
    requires Limits(p)
    ensures ttl >= 5000 && p.num * ttl >= 2000 * p.capacity * p.den
    ensures ttl > 5000 ==> p.num * (ttl - 1) < 2000 * p.capacity * p.den
  {
    var fill := DivUp(2000 * p.capacity * p.den, p.num);
    MoreTime(p.num, fill, 5000);
    if fill < 5000 then 5000 else fill
  }

  lemma MoreTime(num: nat, fill: nat, ttl: nat)
    ensures fill <= ttl ==> num * fill <= num * ttl
  {
  }

  // ---------------------------------------------------------------- one call

  datatype Bucket = Bucket(tokens: nat, ts: int)

  datatype Decision = Decision(allowed: bool, retryAfter: nat)

  function Min(a: int, b: int): int { if a < b then a else b }

  function Refilled(capacity: nat, rate: nat, stored: Option<Bucket>, now: int): (tokens: nat)
    ensures tokens <= capacity * UNIT || (stored.Some? && tokens <= stored.value.tokens)
  {
    match stored
    case None => capacity * UNIT
    case Some(b) =>
      var delta := if now < b.ts then 0 else now - b.ts;
      assert delta * rate >= 0;
      Min(capacity * UNIT, b.tokens + delta * rate)
  }

  function Decide(rate: nat, tokens: nat): Decision {
    if tokens >= UNIT then Decision(true, 0)
    else Decision(false, if rate > 0 then DivUp(UNIT - tokens, rate) else 0)
  }

  function After(tokens: nat, now: int): Bucket {
    Bucket(if tokens >= UNIT then tokens - UNIT else tokens, now)
  }

  // The stored hash of one key, updated by each run of the script. A policy without limits never reaches the script.
  class Limiter {
    const policy: Policy
    var stored: Option<Bucket>

    constructor (policy: Policy)
      ensures this.policy == policy && stored == None
    {
      this.policy := policy;
      stored := None;
    }

    method Allow(now: int) returns (decision: Decision)
      modifies this
      ensures !Limits(policy) ==> decision == Decision(true, 0) && stored == old(stored)
      ensures Limits(policy) ==>
                var tokens := Refilled(policy.capacity, Rate(policy), old(stored), now);
                decision == Decide(Rate(policy), tokens) && stored == Some(After(tokens, now))
    {
      if !Limits(policy) {
        return Decision(true, 0);
      }
      var capacity, rate := policy.capacity, Rate(policy);
      var tokens, ts := capacity * UNIT, now;
      if stored.Some? {
        tokens, ts := stored.value.tokens, stored.value.ts;
      }
      var delta := now - ts;
      if delta < 0 {
        delta := 0;
      }
      assert delta * rate >= 0;
      tokens := Min(capacity * UNIT, tokens + delta * rate);
      decision := Decision(false, 0);
      if tokens >= UNIT {
        tokens := tokens - UNIT;
        decision := Decision(true, 0);
      } else if rate > 0 {
        decision := Decision(false, DivUp(UNIT - tokens, rate));
      }
      stored := Some(Bucket(tokens, now));
    }
  }

  // ---------------------------------------------------------------- runs of calls on one key

  ghost predicate Monotone(times: seq<int>) {
    forall i, j :: 0 <= i < j < |times| ==> times[i] <= times[j]
  }

  function StoredAfter(capacity: nat, rate: nat, stored: Option<Bucket>, times: seq<int>): Option<Bucket> {
    if times == [] then stored
    else
      var last := |times| - 1;
      var before := StoredAfter(capacity, rate, stored, times[..last]);
      Some(After(Refilled(capacity, rate, before, times[last]), times[last]))
  }

  function DecisionAt(capacity: nat, rate: nat, stored: Option<Bucket>, times: seq<int>, i: nat): Decision
    requires i < |times|
  {
    Decide(rate, Refilled(capacity, rate, StoredAfter(capacity, rate, stored, times[..i]), times[i]))
  }

  // How many of the calls i..j, both included, are allowed.
  function AllowedIn(capacity: nat, rate: nat, stored: Option<Bucket>, times: seq<int>, i: nat, j: nat): nat
    requires i <= j < |times|
    decreases j - i
  {
    (if DecisionAt(capacity, rate, stored, times, j).allowed then 1 else 0)
    + if i == j then 0 else AllowedIn(capacity, rate, stored, times, i, j - 1)
  }

  predicate Sound(capacity: nat, stored: Option<Bucket>) {
    stored.Some? ==> stored.value.tokens <= capacity * UNIT
  }

  lemma {:induction false} TokensInRange(capacity: nat, rate: nat, stored: Option<Bucket>, times: seq<int>)
    requires Sound(capacity, stored)
    ensures Sound(capacity, StoredAfter(capacity, rate, stored, times))
    ensures times != [] ==> StoredAfter(capacity, rate, stored, times).Some?
                            && StoredAfter(capacity, rate, stored, times).value.ts == times[|times| - 1]
  {
    if times != [] {
      TokensInRange(capacity, rate, stored, times[..|times| - 1]);
    }
  }

  function Spent(capacity: nat, rate: nat, stored: Option<Bucket>, times: seq<int>, i: nat): nat
    requires i < |times|
  {
    if DecisionAt(capacity, rate, stored, times, i).allowed then UNIT else 0
  }

  function BalanceAt(capacity: nat, rate: nat, stored: Option<Bucket>, times: seq<int>, i: nat): nat
    requires i < |times|
  {
    Refilled(capacity, rate, StoredAfter(capacity, rate, stored, times[..i]), times[i])
  }

  // A call spends a token or none; what it does not spend stays in the bucket.
  lemma CallConserves(capacity: nat, rate: nat, stored: Option<Bucket>, times: seq<int>, i: nat)
    requires i < |times|
    ensures var left := StoredAfter(capacity, rate, stored, times[..i + 1]);
            && left.Some? && left.value.ts == times[i]
            && Spent(capacity, rate, stored, times, i) + left.value.tokens
               == BalanceAt(capacity, rate, stored, times, i)
  {
    assert times[..i + 1][..i] == times[..i];
  }

  lemma BalanceBounded(capacity: nat, rate: nat, stored: Option<Bucket>, times: seq<int>, i: nat)
    requires i < |times| && Sound(capacity, stored)
    ensures BalanceAt(capacity, rate, stored, times, i) <= capacity * UNIT
  {
    TokensInRange(capacity, rate, stored, times[..i]);
  }

  lemma BalanceGrows(capacity: nat, rate: nat, stored: Option<Bucket>, times: seq<int>, i: nat)
    requires 0 < i < |times| && times[i - 1] <= times[i]
    ensures var before := StoredAfter(capacity, rate, stored, times[..i]);
            && before.Some?
            && BalanceAt(capacity, rate, stored, times, i)
               <= before.value.tokens + Earned(rate, times, i - 1, i)
  {
    CallConserves(capacity, rate, stored, times, i - 1);
    RefillAdds(capacity, rate, StoredAfter(capacity, rate, stored, times[..i]).value, times[i]);
  }

  function SpentIn(capacity: nat, rate: nat, stored: Option<Bucket>, times: seq<int>, i: nat, j: nat): nat
    requires i <= j < |times|
    decreases j - i
  {
    Spent(capacity, rate, stored, times, j)
    + if i == j then 0 else SpentIn(capacity, rate, stored, times, i, j - 1)
  }

  // Refill over a window, step by step.
  function Earned(rate: nat, times: seq<int>, i: nat, j: nat): int
    requires i <= j < |times|
    decreases j - i
  {
    if i == j then 0 else Earned(rate, times, i, j - 1) + rate * (times[j] - times[j - 1])
  }

  lemma {:induction false} EarnedTelescopes(rate: nat, times: seq<int>, i: nat, j: nat)
    requires i <= j < |times|
    ensures Earned(rate, times, i, j) == rate * (times[j] - times[i])
    decreases j - i
  {
    if i < j {
      EarnedTelescopes(rate, times, i, j - 1);
      assert rate * (times[j] - times[i]) == rate * (times[j - 1] - times[i]) + rate * (times[j] - times[j - 1]);
    }
  }

  lemma EarnedStep(rate: nat, times: seq<int>, i: nat, j: nat)
    requires i < j < |times|
    ensures Earned(rate, times, i, j) == Earned(rate, times, i, j - 1) + Earned(rate, times, j - 1, j)
  {
  }

  // Tokens spent in a window, plus those left, never exceed a full bucket plus the refill over the window.
  lemma {:induction false} WindowBudget(
      capacity: nat, rate: nat, stored: Option<Bucket>, times: seq<int>, i: nat, j: nat)
    requires Sound(capacity, stored) && Monotone(times) && i <= j < |times|
    ensures var left := StoredAfter(capacity, rate, stored, times[..j + 1]);
            && left.Some?
            && SpentIn(capacity, rate, stored, times, i, j) + left.value.tokens
               <= capacity * UNIT + Earned(rate, times, i, j)
    decreases j - i
  {
    CallConserves(capacity, rate, stored, times, j);
    if i == j {
      BalanceBounded(capacity, rate, stored, times, j);
    } else {
      WindowBudget(capacity, rate, stored, times, i, j - 1);
      BalanceGrows(capacity, rate, stored, times, j);
      EarnedStep(rate, times, i, j);
    }
  }

  lemma RefillAdds(capacity: nat, rate: nat, b: Bucket, now: int)
    requires b.ts <= now
    ensures Refilled(capacity, rate, Some(b), now) <= b.tokens + rate * (now - b.ts)
  {
  }

  lemma {:induction false} AllowedTimesUnit(
      capacity: nat, rate: nat, stored: Option<Bucket>, times: seq<int>, i: nat, j: nat)
    requires i <= j < |times|
    ensures AllowedIn(capacity, rate, stored, times, i, j) * UNIT == SpentIn(capacity, rate, stored, times, i, j)
    decreases j - i
  {
    if i < j {
      AllowedTimesUnit(capacity, rate, stored, times, i, j - 1);
    }
  }

  lemma WindowBound(capacity: nat, rate: nat, stored: Option<Bucket>, times: seq<int>, i: nat, j: nat)
    requires Sound(capacity, stored) && Monotone(times) && i <= j < |times|
    ensures AllowedIn(capacity, rate, stored, times, i, j) * UNIT <= capacity * UNIT + rate * (times[j] - times[i])
  {
    WindowBudget(capacity, rate, stored, times, i, j);
    EarnedTelescopes(rate, times, i, j);
    AllowedTimesUnit(capacity, rate, stored, times, i, j);
  }

  // ---------------------------------------------------------------- in the policy's own terms

  lemma RateTimes(p: Policy, time: nat)
    requires p.den > 0
    ensures 2 * p.den * (Rate(p) * time) <= (2000 * p.num + p.den) * time
    ensures 2 * p.den * (Rate(p) * time) >= (2000 * p.num - p.den) * time
  {
    var rate := Rate(p);
    assert 2 * p.den * (rate * time) == 2 * (p.den * rate) * time;
    Ordered(2 * (p.den * rate), 2000 * p.num + p.den, time);
    Ordered(2000 * p.num - p.den, 2 * (p.den * rate), time);
  }

  lemma Ordered(a: int, b: int, time: nat)
    requires a <= b
    ensures a * time <= b * time
  {
  }

  // A policy of num / den tokens per second lets through its capacity and what it refills in the window; the
  // six decimals of the printed rate add at most half a millionth of a token per millisecond.
  lemma PolicyWindow(p: Policy, times: seq<int>, i: nat, j: nat)
    requires Limits(p) && Monotone(times) && i <= j < |times|
    ensures var allowed, time := AllowedIn(p.capacity, Rate(p), None, times, i, j), times[j] - times[i];
            2 * p.den * (allowed * UNIT) <= 2 * p.den * (p.capacity * UNIT) + (2000 * p.num + p.den) * time
  {
    var allowed, time := AllowedIn(p.capacity, Rate(p), None, times, i, j), times[j] - times[i];
    WindowBound(p.capacity, Rate(p), None, times, i, j);
    RateTimes(p, time);
    Ordered(allowed * UNIT, p.capacity * UNIT + Rate(p) * time, 2 * p.den);
    Spread(2 * p.den, p.capacity * UNIT, Rate(p) * time);
  }

  lemma Spread(k: int, a: int, b: int)
    ensures (a + b) * k == k * a + k * b
  {
  }

  // The refill between two calls, in the policy's own terms: what num / den tokens per second bring, to within
  // half a millionth per millisecond, up to the capacity.
  lemma PolicyRefill(p: Policy, b: Bucket, now: int)
    requires Limits(p) && now >= b.ts && b.tokens <= p.capacity * UNIT
    ensures var tokens, time := Refilled(p.capacity, Rate(p), Some(b), now), now - b.ts;
            && b.tokens <= tokens <= p.capacity * UNIT
            && 2 * p.den * (tokens - b.tokens) <= (2000 * p.num + p.den) * time
            && (tokens < p.capacity * UNIT ==> 2 * p.den * (tokens - b.tokens) >= (2000 * p.num - p.den) * time)
  {
    var tokens, time := Refilled(p.capacity, Rate(p), Some(b), now), now - b.ts;
    RateTimes(p, time);
    assert tokens - b.tokens <= time * Rate(p);
    Ordered(tokens - b.tokens, Rate(p) * time, 2 * p.den);
  }

  // A denied caller is told the time in which num / den tokens per second make up what is missing of one token,
  // to within the same rounding: that long suffices at the highest rate it can mean, and no less at the lowest.
  lemma PolicyRetryAfter(p: Policy, stored: Option<Bucket>, now: int)
    requires Limits(p) && Rate(p) > 0
    requires Refilled(p.capacity, Rate(p), stored, now) < UNIT
    ensures var missing := UNIT - Refilled(p.capacity, Rate(p), stored, now);
            var wait := Decide(Rate(p), UNIT - missing).retryAfter;
            && wait > 0
            && (2000 * p.num + p.den) * wait >= 2 * p.den * missing
            && (2000 * p.num - p.den) * (wait - 1) < 2 * p.den * missing
  {
    var missing := UNIT - Refilled(p.capacity, Rate(p), stored, now);
    var wait := DivUp(missing, Rate(p));
    NotZero(missing, Rate(p), wait);
    RateTimes(p, wait);
    RateTimes(p, wait - 1);
    Ordered(missing, Rate(p) * wait, 2 * p.den);
    Ordered(Rate(p) * (wait - 1), missing - 1, 2 * p.den);
    Fewer(p.den, missing);
  }

  lemma NotZero(missing: nat, rate: nat, wait: nat)
    requires missing > 0 && rate * wait >= missing
    ensures wait > 0
  {
  }

  lemma Fewer(den: nat, missing: nat)
    requires den > 0 && missing > 0
    ensures 2 * den * (missing - 1) < 2 * den * missing
  {
  }

  // ---------------------------------------------------------------- retry-after

  // Denied polls only add refill: the balance stays on the line through the first denial.
  lemma {:induction false} PollsBeforeRetry(capacity: nat, rate: nat, denied: Bucket, polls: seq<int>)
    requires capacity > 0 && rate > 0 && denied.tokens < UNIT
    requires Monotone([denied.ts] + polls)
    requires forall i :: 0 <= i < |polls| ==> polls[i] - denied.ts < DivUp(UNIT - denied.tokens, rate)
    ensures var left := StoredAfter(capacity, rate, Some(denied), polls);
            && left.Some?
            && left.value.ts == (if polls == [] then denied.ts else polls[|polls| - 1])
            && left.value.ts >= denied.ts
            && left.value.tokens == denied.tokens + (left.value.ts - denied.ts) * rate < UNIT
    ensures polls != [] ==> !DecisionAt(capacity, rate, Some(denied), polls, |polls| - 1).allowed
  {
    if polls != [] {
      var front, now := polls[..|polls| - 1], polls[|polls| - 1];
      forall i, j | 0 <= i < j < |[denied.ts] + front| ensures ([denied.ts] + front)[i] <= ([denied.ts] + front)[j] {
        assert ([denied.ts] + polls)[i] <= ([denied.ts] + polls)[j];
      }
      PollsBeforeRetry(capacity, rate, denied, front);
      var last := if front == [] then denied.ts else front[|front| - 1];
      assert last <= now by {
        assert ([denied.ts] + polls)[|polls| - 1] == last && ([denied.ts] + polls)[|polls|] == now;
      }
      Accrues(rate, denied.tokens, last - denied.ts, now - last);
      NotYet(rate, denied.tokens, now - denied.ts);
    }
  }

  lemma Accrues(rate: nat, tokens: nat, a: int, b: int)
    ensures tokens + a * rate + b * rate == tokens + (a + b) * rate
  {
  }

  lemma NotYet(rate: nat, tokens: nat, wait: int)
    requires rate > 0 && tokens < UNIT && 0 <= wait < DivUp(UNIT - tokens, rate)
    ensures tokens + wait * rate < UNIT
  {
    var q := DivUp(UNIT - tokens, rate);
    assert wait <= q - 1;
    assert wait * rate <= (q - 1) * rate;
  }

  lemma Ready(rate: nat, tokens: nat, wait: int)
    requires rate > 0 && tokens < UNIT && wait >= DivUp(UNIT - tokens, rate)
    ensures tokens + wait * rate >= UNIT
  {
    var q := DivUp(UNIT - tokens, rate);
    assert wait * rate >= q * rate;
  }

  // A caller denied with `retryAfter` is denied at every poll before it and allowed at the first call after it.
  lemma RetryAfterIsExact(capacity: nat, rate: nat, stored: Option<Bucket>, now: int, polls: seq<int>, next: int)
    requires capacity > 0 && rate > 0
    requires var d := Decide(rate, Refilled(capacity, rate, stored, now));
             && !d.allowed
             && Monotone([now] + polls + [next])
             && (forall i :: 0 <= i < |polls| ==> polls[i] < now + d.retryAfter)
    ensures var tokens := Refilled(capacity, rate, stored, now);
            var d, denied := Decide(rate, tokens), Some(After(tokens, now));
            && (forall i :: 0 <= i < |polls| ==> !DecisionAt(capacity, rate, denied, polls, i).allowed)
            && (DecisionAt(capacity, rate, denied, polls + [next], |polls|).allowed <==> next >= now + d.retryAfter)
  {
    var tokens := Refilled(capacity, rate, stored, now);
    var denied := After(tokens, now);
    var all := [now] + polls + [next];
    forall n: nat | n <= |polls|
      ensures Monotone([now] + polls[..n])
    {
      forall i, j | 0 <= i < j < n + 1 ensures ([now] + polls[..n])[i] <= ([now] + polls[..n])[j] {
        assert all[i] <= all[j];
      }
    }
    forall i | 0 <= i < |polls| ensures !DecisionAt(capacity, rate, Some(denied), polls, i).allowed {
      PollsBeforeRetry(capacity, rate, denied, polls[..i + 1]);
      assert polls[..i + 1][..i] == polls[..i];
    }
    assert polls[..|polls|] == polls;
    PollsBeforeRetry(capacity, rate, denied, polls);
    assert (polls + [next])[..|polls|] == polls;
    var last := if polls == [] then now else polls[|polls| - 1];
    assert all[|polls|] == last && all[|polls| + 1] == next;
    Accrues(rate, tokens, last - now, next - last);
    if next >= now + DivUp(UNIT - tokens, rate) {
      Ready(rate, tokens, next - now);
    } else {
      NotYet(rate, tokens, next - now);
    }
  }

  // The Retry-After header: whole seconds, at least one (section 10.2.3 of RFC 9110).
  function RetryAfterHeader(d: Decision): (seconds: nat)
    ensures seconds >= 1 && 1000 * seconds >= d.retryAfter
    ensures seconds > 1 ==> 1000 * (seconds - 1) < d.retryAfter
  {
    var seconds := DivUp(d.retryAfter, 1000);
    if seconds == 0 then 1 else seconds
  }

  // ---------------------------------------------------------------- key expiry

  // The rounded rate is at least half the exact one, unless it is zero.
  lemma RoundedRateIsHalf(p: Policy)
    requires p.den > 0 && Rate(p) > 0
    ensures p.den * Rate(p) >= 500 * p.num
  {
    var product := p.den * Rate(p);
    AtLeastOnce(p.den, Rate(p));
    RateBounds(p, product);
  }

  lemma AtLeastOnce(a: nat, n: nat)
    requires n > 0
    ensures a * n >= a
  {
  }

  lemma RateBounds(p: Policy, product: int)
    requires p.den > 0 && product == p.den * Rate(p)
    ensures 2000 * p.num - p.den <= 2 * product
  {
  }

  // The time to live refills the whole bucket exactly when the printed rate is not zero.
  lemma TtlRefillsIff(p: Policy)
    requires Limits(p)
    ensures Ttl(p) * Rate(p) >= p.capacity * UNIT <==> Rate(p) > 0
  {
    if Rate(p) > 0 {
      var fill := DivUp(2000 * p.capacity * p.den, p.num);
      RoundedRateIsHalf(p);
      HalfRateSuffices(p.num, p.den, p.capacity, fill, Rate(p));
      LongerWait(fill, Ttl(p), Rate(p));
    }
  }

  lemma LongerWait(fill: nat, ttl: nat, rate: nat)
    requires fill <= ttl
    ensures fill * rate <= ttl * rate
  {
  }

  lemma HalfRateSuffices(num: nat, den: nat, capacity: nat, fill: nat, rate: nat)
    requires num > 0 && den > 0
    requires den * rate >= 500 * num && num * fill >= 2000 * capacity * den
    ensures fill * rate >= capacity * UNIT
  {
    // num * den * (fill * rate) >= (2000 * capacity * den) * (500 * num)
    BothGrow(2000 * capacity * den, num * fill, 500 * num, den * rate);
    Exchange(num, fill, den, rate);
    Exchange(2000 * capacity, den, 500, num);
    Exchange(num, capacity, den, UNIT);
    FullBucket(num, den, capacity);
    Positive(num, den);
    Cancel(num * den, fill * rate, capacity * UNIT);
  }

  lemma BothGrow(a: nat, b: nat, c: nat, d: nat)
    requires a <= b && c <= d
    ensures a * c <= b * d
  {
    assert a * c <= b * c;
    assert b * c <= b * d;
  }

  lemma Exchange(a: nat, b: nat, c: nat, d: nat)
    ensures (a * b) * (c * d) == (a * c) * (b * d)
  {
    assert (a * b) * (c * d) == a * (b * c) * d;
  }

  lemma FullBucket(num: nat, den: nat, capacity: nat)
    ensures (2000 * capacity * den) * (500 * num) == (num * den) * (capacity * UNIT)
  {
    Exchange(2000 * capacity, den, 500, num);
    assert (2000 * capacity) * 500 == capacity * UNIT;
    Commute(capacity * UNIT, den * num);
    Commute(den, num);
  }

  lemma Commute(a: nat, b: nat)
    ensures a * b == b * a
  {
  }

  lemma Positive(a: nat, b: nat)
    requires a > 0 && b > 0
    ensures a * b > 0
  {
  }

  lemma Cancel(k: int, a: int, b: int)
    requires k > 0 && k * a >= k * b
    ensures a >= b
  {
  }

  function Stale(stored: Option<Bucket>, now: int, ttl: nat): bool {
    stored.Some? && now - stored.value.ts >= ttl
  }

  // Once the time to live has passed, a missing key and the stored one refill to the same full bucket.
  lemma ExpiryIsInvisible(p: Policy, stored: Option<Bucket>, now: int)
    requires Limits(p) && Rate(p) > 0 && Sound(p.capacity, stored) && Stale(stored, now, Ttl(p))
    ensures Refilled(p.capacity, Rate(p), stored, now) == Refilled(p.capacity, Rate(p), None, now)
  {
    TtlRefillsIff(p);
    var delta := now - stored.value.ts;
    assert delta * Rate(p) >= Ttl(p) * Rate(p);
  }

  // A run in which stale keys may vanish before any call, at the store's discretion.
  function ExpiringAfter(p: Policy, stored: Option<Bucket>, times: seq<int>, evict: seq<bool>): Option<Bucket>
    requires Limits(p) && |evict| == |times|
  {
    if times == [] then stored
    else
      var last := |times| - 1;
      var kept := Survivor(p, ExpiringAfter(p, stored, times[..last], evict[..last]), times[last], evict[last]);
      Some(After(Refilled(p.capacity, Rate(p), kept, times[last]), times[last]))
  }

  function Survivor(p: Policy, stored: Option<Bucket>, now: int, evict: bool): Option<Bucket>
    requires Limits(p)
  {
    if evict && Stale(stored, now, Ttl(p)) then None else stored
  }

  lemma {:induction false} ExpiryChangesNothing(p: Policy, times: seq<int>, evict: seq<bool>)
    requires Limits(p) && Rate(p) > 0 && |evict| == |times|
    ensures ExpiringAfter(p, None, times, evict) == StoredAfter(p.capacity, Rate(p), None, times)
  {
    if times != [] {
      var last := |times| - 1;
      ExpiryChangesNothing(p, times[..last], evict[..last]);
      TokensInRange(p.capacity, Rate(p), None, times[..last]);
      var before := StoredAfter(p.capacity, Rate(p), None, times[..last]);
      if evict[last] && Stale(before, times[last], Ttl(p)) {
        ExpiryIsInvisible(p, before, times[last]);
      }
    }
  }

  // Every decision of a run is the same with and without key expiry.
  lemma ExpiryChangesNoDecision(p: Policy, times: seq<int>, evict: seq<bool>, i: nat)
    requires Limits(p) && Rate(p) > 0 && |evict| == |times| && i < |times|
    ensures var kept := Survivor(p, ExpiringAfter(p, None, times[..i], evict[..i]), times[i], evict[i]);
            Decide(Rate(p), Refilled(p.capacity, Rate(p), kept, times[i]))
            == DecisionAt(p.capacity, Rate(p), None, times, i)
  {
    ExpiryChangesNothing(p, times[..i], evict[..i]);
    TokensInRange(p.capacity, Rate(p), None, times[..i]);
    var before := StoredAfter(p.capacity, Rate(p), None, times[..i]);
    if evict[i] && Stale(before, times[i], Ttl(p)) {
      ExpiryIsInvisible(p, before, times[i]);
    }
  }

  // A rate that prints as zero breaks this: an emptied key never refills, but an expired one starts full.
  lemma ZeroRateExpiryMatters(p: Policy, now: int)
    requires Limits(p) && Rate(p) == 0
    ensures !Decide(0, Refilled(p.capacity, 0, Some(Bucket(0, now - Ttl(p))), now)).allowed
    ensures Decide(0, Refilled(p.capacity, 0, Survivor(p, Some(Bucket(0, now - Ttl(p))), now, true), now)).allowed
  {
  }

  // ---------------------------------------------------------------- the declared policies

  const POLICIES: seq<Policy> := [
    Policy(30, 30, 60), Policy(5, 5, 60), Policy(5, 5, 60), Policy(3, 3, 3600), Policy(5, 5, 900),
    Policy(4, 2, 1), Policy(6, 3, 1), Policy(6, 3, 1), Policy(6, 3, 1), Policy(6, 3, 1), Policy(3, 1, 1),
    Policy(45, 15, 1), Policy(15, 5, 1), Policy(10, 10, 60), Policy(6, 6, 60), Policy(3, 3, 60), Policy(6, 6, 60)]

  lemma DeclaredPoliciesRefill(p: Policy)
    requires p in POLICIES
    ensures Limits(p) && Rate(p) > 0 && Ttl(p) * Rate(p) >= p.capacity * UNIT
  {
    assert Limits(p) && 2 * 1000 * p.num > p.den;
    assert Rate(p) > 0 by {
      assert 2 * (1000 * p.num) - p.den <= 2 * (p.den * Rate(p));
    }
    TtlRefillsIff(p);
  }
}
