/** The adaptive token bucket guarding a peer's quota (internal/ratelimit/ratelimit.go). Instants and
    durations are real numbers of seconds. */
module RateLimit {

  const RECOVER_AFTER: nat := 20

  datatype Bucket = Bucket(
    configured: real, rate: real, burst: real, tokens: real, last: real, blockedUntil: real, successes: nat)

  /** A caller may go ahead at `release`, having asked at `at`. */
  datatype Grant = Grant(at: real, release: real)

  function Min(a: real, b: real): real { if a <= b then a else b }

  function Max(a: real, b: real): real { if a >= b then a else b }

  /** Tokens earned since the last refill. */
  function Earned(b: Bucket, now: real): real { if now <= b.last then 0.0 else (now - b.last) * b.rate }

  function RefilledBy(b: Bucket, now: real, earned: real): Bucket
  {
    if now <= b.last then b else b.(last := now, tokens := Min(b.burst, b.tokens + earned))
  }

  function Refilled(b: Bucket, now: real): Bucket { RefilledBy(b, now, Earned(b, now)) }

  function SpentBy(b: Bucket, now: real, earned: real): Bucket
  {
    var r := RefilledBy(b, now, earned);
    r.(tokens := r.tokens - 1.0)
  }

  function Spent(b: Bucket, now: real): Bucket { SpentBy(b, now, Earned(b, now)) }

  /** How long a negative balance takes to earn back. */
  function Owed(b: Bucket, tokens: real): real
    requires b.rate > 0.0
  {
    if tokens < 0.0 then -tokens / b.rate else 0.0
  }

  /** The wait a reservation is told to take: out the block, and until its token is earned. */
  function WaitFor(b: Bucket, now: real): real
    requires b.rate > 0.0
  {
    Max(Max(0.0, b.blockedUntil - now), Owed(b, Spent(b, now).tokens))
  }

  predicate Allows(b: Bucket, now: real)
  {
    b.blockedUntil <= now && Refilled(b, now).tokens >= 1.0
  }

  function RejectedBy(b: Bucket, now: real, rate: real, wait: real): Bucket
  {
    b.(rate := rate, successes := 0, tokens := Min(b.tokens, 0.0), last := now,
       blockedUntil := Max(b.blockedUntil, now + wait))
  }

  function Rejected(b: Bucket, now: real, retryAfter: real): Bucket
    requires b.rate > 0.0 && b.configured > 0.0
  {
    var rate := Max(b.configured * 0.125, b.rate * 0.5);
    RejectedBy(b, now, rate, if retryAfter <= 0.0 then 1.0 / rate else retryAfter)
  }

  function Succeeded(b: Bucket): Bucket
  {
    if b.rate >= b.configured then b
    else if b.successes + 1 < RECOVER_AFTER then b.(successes := b.successes + 1)
    else b.(successes := 0, rate := Min(b.configured, b.rate * 1.25))
  }

  predicate Valid(b: Bucket)
  {
    && b.configured > 0.0 && b.burst >= 1.0 && b.tokens <= b.burst
    && b.configured * 0.125 <= b.rate <= b.configured
  }

  class Limiter {
    const configured: real
    const burst: real
    var rate: real
    var tokens: real
    var last: real
    var blockedUntil: real
    var successes: nat

    ghost function State(): Bucket
      reads this
    {
      Bucket(configured, rate, burst, tokens, last, blockedUntil, successes)
    }

    constructor (ratePerSec: real, burstSize: int, now: real)
      ensures Valid(State()) && last == now && blockedUntil == now && tokens == burst
      ensures rate == configured == (if ratePerSec > 0.0 then ratePerSec else 1.0) && successes == 0
      ensures burst == if burstSize >= 1 then burstSize as real else 1.0
    {
      var r := if ratePerSec <= 0.0 then 1.0 else ratePerSec;
      var n := if burstSize < 1 then 1 else burstSize;
      configured, burst := r, n as real;
      rate, tokens, last, blockedUntil, successes := r, n as real, now, now, 0;
    }

    method Refill(now: real)
      modifies this`tokens, this`last
      ensures State() == Refilled(old(State()), now)
    {
      var elapsed := now - last;
      if elapsed <= 0.0 { return; }
      last := now;
      tokens := Min(burst, tokens + elapsed * rate);
    }

    method Reserve(now: real) returns (wait: real)
      requires Valid(State())
      modifies this`tokens, this`last
      ensures wait == WaitFor(old(State()), now)
      ensures State() == Spent(old(State()), now)
    {
      Refill(now);
      wait := 0.0;
      if blockedUntil > now { wait := blockedUntil - now; }
      tokens := tokens - 1.0;
      if tokens < 0.0 {
        var owed := -tokens / rate;
        if owed > wait { wait := owed; }
      }
    }

    method Allow(now: real) returns (ok: bool)
      modifies this`tokens, this`last
      ensures ok == Allows(old(State()), now)
      ensures State() == if ok then Spent(old(State()), now) else Refilled(old(State()), now)
    {
      Refill(now);
      if blockedUntil > now || tokens < 1.0 { return false; }
      tokens := tokens - 1.0;
      ok := true;
    }

    method Reject(now: real, retryAfter: real)
      requires Valid(State())
      modifies this`rate, this`successes, this`tokens, this`last, this`blockedUntil
      ensures State() == Rejected(old(State()), now, retryAfter)
    {
      successes := 0;
      rate := Max(configured * 0.125, rate * 0.5);
      if tokens > 0.0 { tokens := 0.0; }
      last := now;
      var wait := retryAfter;
      if wait <= 0.0 { wait := 1.0 / rate; }
      var until := now + wait;
      if until > blockedUntil { blockedUntil := until; }
    }

    method Success()
      modifies this`rate, this`successes
      ensures State() == Succeeded(old(State()))
    {
      if rate >= configured { return; }
      successes := successes + 1;
      if successes < RECOVER_AFTER { return; }
      successes := 0;
      rate := Min(configured, rate * 1.25);
    }
  }

  // ---- runs ----------------------------------------------------------------------------------------

  datatype Call = Reserve | Allow | Reject(retryAfter: real) | Success

  datatype Timed = Timed(now: real, call: Call)

  datatype State = State(bucket: Bucket, grants: seq<Grant>)

  function Step(s: State, e: Timed): State
    requires Valid(s.bucket)
  {
    var b := s.bucket;
    match e.call
    case Reserve => State(Spent(b, e.now), s.grants + [Grant(e.now, e.now + WaitFor(b, e.now))])
    case Allow =>
      if Allows(b, e.now) then State(Spent(b, e.now), s.grants + [Grant(e.now, e.now)])
      else State(Refilled(b, e.now), s.grants)
    case Reject(retryAfter) => State(Rejected(b, e.now, retryAfter), s.grants)
    case Success => State(Succeeded(b), s.grants)
  }

  lemma StepValid(s: State, e: Timed)
    requires Valid(s.bucket)
    ensures Valid(Step(s, e).bucket)
    ensures Step(s, e).bucket.configured == s.bucket.configured && Step(s, e).bucket.burst == s.bucket.burst
    ensures Step(s, e).bucket.blockedUntil >= s.bucket.blockedUntil
  {}

  predicate Ordered(run: seq<Timed>, start: real)
  {
    |run| > 0 ==> start <= run[0].now && Ordered(run[1..], run[0].now)
  }

  ghost function Run(s: State, run: seq<Timed>): (end: State)
    requires Valid(s.bucket)
    ensures Valid(end.bucket)
    ensures end.bucket.configured == s.bucket.configured && end.bucket.burst == s.bucket.burst
    decreases run
  {
    if |run| == 0 then s
    else
      StepValid(s, run[0]);
      Run(Step(s, run[0]), run[1..])
  }

  // ---- the counting bound --------------------------------------------------------------------------

  /** Grants asked for from `from` on, released whenever. */
  function Since(grants: seq<Grant>, from: real): nat
  {
    if |grants| == 0 then 0
    else Since(grants[..|grants| - 1], from) + if grants[|grants| - 1].at >= from then 1 else 0
  }

  predicate Within(g: Grant, from: real, to: real) { g.at >= from && g.release <= to }

  /** Grants asked for from `from` on and released by `to`. */
  function InWindow(grants: seq<Grant>, from: real, to: real): nat
  {
    if |grants| == 0 then 0
    else InWindow(grants[..|grants| - 1], from, to) + if Within(grants[|grants| - 1], from, to) then 1 else 0
  }

  function Bound(b: Bucket, from: real, to: real): real { b.burst + b.configured * (to - from) }

  /** Tokens left plus grants given since `from` never exceed what is allowed up to the last refill. */
  predicate Budget(b: Bucket, grants: seq<Grant>, from: real, allowed: real)
  {
    && (b.last < from ==> Since(grants, from) == 0)
    && (b.last >= from ==> b.tokens + Since(grants, from) as real <= allowed)
  }

  predicate Fits(grants: seq<Grant>, from: real, to: real, allowed: real)
  {
    InWindow(grants, from, to) as real <= allowed
  }

  /** The bound holds of the log of grants, and the budget is what extends it to the next grant. */
  predicate Good(s: State, from: real, to: real)
  {
    && Budget(s.bucket, s.grants, from, Bound(s.bucket, from, s.bucket.last))
    && Fits(s.grants, from, to, Bound(s.bucket, from, to))
  }

  // How allowances relate: one product at a time.

  lemma MulMonotone(a: real, b: real, c: real)
    requires a <= b && c >= 0.0
    ensures a * c <= b * c
  {}

  lemma DivThenMul(a: real, r: real)
    requires r > 0.0
    ensures (a / r) * r == a
  {}

  /** The bound grows with the end of the window, by at least what any permitted rate earns. */
  lemma BoundGrows(b: Bucket, from: real, x: real, y: real)
    requires Valid(b) && x <= y
    ensures Bound(b, from, x) + (y - x) * b.rate <= Bound(b, from, y)
    ensures Bound(b, from, x) <= Bound(b, from, y)
  {
    MulMonotone(b.rate, b.configured, y - x);
    MulMonotone(0.0, b.configured, y - x);
    assert b.configured * (y - from) == b.configured * (x - from) + b.configured * (y - x);
  }

  lemma BoundAtStart(b: Bucket, from: real)
    ensures Bound(b, from, from) == b.burst
  {}

  lemma EarnedFits(b: Bucket, from: real, now: real)
    requires Valid(b) && b.last <= now
    ensures Bound(b, from, b.last) + Earned(b, now) <= Bound(b, from, now)
    ensures now >= from ==> Bound(b, from, now) >= b.burst
  {
    BoundGrows(b, from, b.last, now);
    if now >= from {
      BoundAtStart(b, from);
      BoundGrows(b, from, from, now);
    }
  }

  /** A debt waited out between `now` and `to` fits the growth of the bound. */
  lemma OwedFits(b: Bucket, from: real, now: real, to: real, tokens: real)
    requires Valid(b) && now <= to && Owed(b, tokens) <= to - now
    ensures Bound(b, from, now) - Min(tokens, 0.0) <= Bound(b, from, to)
  {
    BoundGrows(b, from, now, to);
    if tokens < 0.0 {
      DivThenMul(-tokens, b.rate);
      MulMonotone(-tokens / b.rate, to - now, b.rate);
    }
  }

  lemma SameBound(b: Bucket, b': Bucket, from: real, to: real)
    requires b.burst == b'.burst && b.configured == b'.configured
    ensures Bound(b, from, to) == Bound(b', from, to)
  {}

  // Counting, with the allowances as plain numbers.

  lemma SnocCounts(grants: seq<Grant>, g: Grant, from: real, to: real)
    ensures Since(grants + [g], from) == Since(grants, from) + if g.at >= from then 1 else 0
    ensures InWindow(grants + [g], from, to) == InWindow(grants, from, to) + if Within(g, from, to) then 1 else 0
  {
    assert (grants + [g])[..|grants + [g]| - 1] == grants;
  }

  lemma {:induction false} WindowWithinSince(grants: seq<Grant>, from: real, to: real)
    ensures InWindow(grants, from, to) <= Since(grants, from)
  {
    if |grants| > 0 { WindowWithinSince(grants[..|grants| - 1], from, to); }
  }

  lemma RefillBudget(b: Bucket, grants: seq<Grant>, now: real, earned: real, from: real, allowed: real, allowed': real)
    requires b.tokens <= b.burst && Budget(b, grants, from, allowed) && now >= b.last
    requires earned >= 0.0 && allowed + earned <= allowed' && (now >= from ==> allowed' >= b.burst)
    ensures Budget(RefilledBy(b, now, earned), grants, from, allowed')
    ensures RefilledBy(b, now, earned).last == now
  {}

  lemma RejectBudget(
    b: Bucket, grants: seq<Grant>, now: real, rate: real, wait: real, from: real, allowed: real, allowed': real)
    requires b.tokens <= b.burst && Budget(b, grants, from, allowed) && now >= b.last
    requires allowed <= allowed' && (now >= from ==> allowed' >= b.burst >= 0.0)
    ensures Budget(RejectedBy(b, now, rate, wait), grants, from, allowed')
  {}

  /** `tokens` is the balance after the grant; a release by `to` means its debt fits the allowance. */
  lemma GrantCounts(b: Bucket, grants: seq<Grant>, g: Grant, from: real, to: real, allowed: real, allowedTo: real)
    requires Budget(b, grants, from, allowed) && b.last == g.at && Fits(grants, from, to, allowedTo)
    requires Within(g, from, to) ==> allowed - Min(b.tokens - 1.0, 0.0) <= allowedTo && allowed <= allowedTo
    ensures Budget(b.(tokens := b.tokens - 1.0), grants + [g], from, allowed)
    ensures Fits(grants + [g], from, to, allowedTo)
  {
    SnocCounts(grants, g, from, to);
    WindowWithinSince(grants + [g], from, to);
  }

  lemma GrantGood(s: State, now: real, release: real, from: real, to: real)
    requires Valid(s.bucket) && Good(s, from, to) && now >= s.bucket.last
    requires release >= now + Owed(s.bucket, Spent(s.bucket, now).tokens)
    ensures Good(State(Spent(s.bucket, now), s.grants + [Grant(now, release)]), from, to)
  {
    var b, g := s.bucket, Grant(now, release);
    var aLast, aNow, aTo, earned := Bound(b, from, b.last), Bound(b, from, now), Bound(b, from, to), Earned(b, now);
    EarnedFits(b, from, now);
    EarnedNonNegative(b, now);
    RefillBudget(b, s.grants, now, earned, from, aLast, aNow);
    if Within(g, from, to) {
      OwedFits(b, from, now, to, Spent(b, now).tokens);
      BoundGrows(b, from, now, to);
    }
    GrantCounts(RefilledBy(b, now, earned), s.grants, g, from, to, aNow, aTo);
    SameBound(b, Spent(b, now), from, to);
    SameBound(b, Spent(b, now), from, now);
  }

  lemma EarnedNonNegative(b: Bucket, now: real)
    requires Valid(b)
    ensures Earned(b, now) >= 0.0
  {
    if now > b.last { MulMonotone(0.0, now - b.last, b.rate); }
  }

  lemma RefillGood(s: State, now: real, from: real, to: real)
    requires Valid(s.bucket) && Good(s, from, to) && now >= s.bucket.last
    ensures Good(State(Refilled(s.bucket, now), s.grants), from, to)
  {
    var b := s.bucket;
    EarnedFits(b, from, now);
    EarnedNonNegative(b, now);
    RefillBudget(b, s.grants, now, Earned(b, now), from, Bound(b, from, b.last), Bound(b, from, now));
    SameBound(b, Refilled(b, now), from, to);
    SameBound(b, Refilled(b, now), from, now);
  }

  lemma RejectGood(s: State, now: real, rate: real, wait: real, from: real, to: real)
    requires Valid(s.bucket) && Good(s, from, to) && now >= s.bucket.last
    ensures Good(State(RejectedBy(s.bucket, now, rate, wait), s.grants), from, to)
  {
    var b := s.bucket;
    EarnedFits(b, from, now);
    BoundGrows(b, from, b.last, now);
    RejectBudget(b, s.grants, now, rate, wait, from, Bound(b, from, b.last), Bound(b, from, now));
    SameBound(b, RejectedBy(b, now, rate, wait), from, to);
    SameBound(b, RejectedBy(b, now, rate, wait), from, now);
  }

  lemma SuccessGood(s: State, from: real, to: real)
    requires Good(s, from, to)
    ensures Good(State(Succeeded(s.bucket), s.grants), from, to)
  {
    SameBound(s.bucket, Succeeded(s.bucket), from, to);
    SameBound(s.bucket, Succeeded(s.bucket), from, s.bucket.last);
  }

  lemma ReserveGood(s: State, now: real, from: real, to: real)
    requires Valid(s.bucket) && Good(s, from, to) && now >= s.bucket.last
    ensures Good(Step(s, Timed(now, Reserve)), from, to)
  {
    GrantGood(s, now, now + WaitFor(s.bucket, now), from, to);
  }

  lemma AllowGood(s: State, now: real, from: real, to: real)
    requires Valid(s.bucket) && Good(s, from, to) && now >= s.bucket.last
    ensures Good(Step(s, Timed(now, Allow)), from, to)
  {
    if Allows(s.bucket, now) { GrantGood(s, now, now, from, to); } else { RefillGood(s, now, from, to); }
  }

  lemma StepLast(s: State, e: Timed)
    requires Valid(s.bucket) && e.now >= s.bucket.last
    ensures Step(s, e).bucket.last <= e.now
  {}

  lemma StepGood(s: State, e: Timed, from: real, to: real)
    requires Valid(s.bucket) && Good(s, from, to) && e.now >= s.bucket.last
    ensures Good(Step(s, e), from, to)
    ensures Step(s, e).bucket.last <= e.now
  {
    StepLast(s, e);
    match e.call
    case Reserve => ReserveGood(s, e.now, from, to);
    case Allow => AllowGood(s, e.now, from, to);
    case Reject(retryAfter) =>
      var rate := Max(s.bucket.configured * 0.125, s.bucket.rate * 0.5);
      RejectGood(s, e.now, rate, if retryAfter <= 0.0 then 1.0 / rate else retryAfter, from, to);
    case Success => SuccessGood(s, from, to);
  }

  lemma {:induction false} GrantsAreBounded(s: State, run: seq<Timed>, from: real, to: real)
    requires Valid(s.bucket) && Good(s, from, to) && Ordered(run, s.bucket.last)
    ensures InWindow(Run(s, run).grants, from, to) as real <= Bound(s.bucket, from, to)
    decreases run
  {
    if |run| > 0 {
      var s' := Step(s, run[0]);
      StepGood(s, run[0], from, to);
      StepValid(s, run[0]);
      SameBound(s.bucket, s'.bucket, from, to);
      OrderedFrom(run[1..], s'.bucket.last, run[0].now);
      GrantsAreBounded(s', run[1..], from, to);
    }
  }

  lemma OrderedFrom(run: seq<Timed>, earlier: real, start: real)
    requires Ordered(run, start) && earlier <= start
    ensures Ordered(run, earlier)
  {}

  lemma FreshBucketGood(b: Bucket, from: real, to: real)
    requires Valid(b) && from <= to
    ensures Good(State(b, []), from, to)
  {
    BoundAtStart(b, from);
    BoundGrows(b, from, from, to);
    if b.last >= from { BoundGrows(b, from, from, b.last); }
  }

  /** Rate-limit bound: in any run of reservations, immediate requests, rejections and successes under a
      clock that does not go back, the grants asked for from `from` on and released by `to` number at
      most the burst plus the configured rate times the length of the window. */
  lemma QuotaIsKept(b: Bucket, run: seq<Timed>, from: real, to: real)
    requires Valid(b) && Ordered(run, b.last) && from <= to
    ensures InWindow(Run(State(b, []), run).grants, from, to) as real <= Bound(b, from, to)
  {
    FreshBucketGood(b, from, to);
    GrantsAreBounded(State(b, []), run, from, to);
  }

  // ---- blocks are honoured ---------------------------------------------------------------------------

  /** Nothing granted in a run is released before the block in force when the run started. */
  lemma {:induction false} BlockIsHonoured(s: State, run: seq<Timed>, i: nat)
    requires Valid(s.bucket) && |s.grants| <= i < |Run(s, run).grants|
    ensures Run(s, run).grants[i].release >= s.bucket.blockedUntil
    decreases run
  {
    if |run| > 0 {
      var s' := Step(s, run[0]);
      StepValid(s, run[0]);
      if i < |s'.grants| {
        GrantsKept(s', run[1..]);
        assert s'.grants[i].release >= s.bucket.blockedUntil;
      } else {
        BlockIsHonoured(s', run[1..], i);
      }
    }
  }

  lemma {:induction false} GrantsKept(s: State, run: seq<Timed>)
    requires Valid(s.bucket)
    ensures s.grants <= Run(s, run).grants
    decreases run
  {
    if |run| > 0 {
      StepValid(s, run[0]);
      GrantsKept(Step(s, run[0]), run[1..]);
    }
  }

  /** Every grant given after a rejection is released no earlier than that rejection asked for, and the
      rejected rate never falls below an eighth of the configured one. */
  lemma RejectionIsHonoured(s: State, now: real, retryAfter: real, run: seq<Timed>, i: nat)
    requires Valid(s.bucket)
    requires
      var after := Step(s, Timed(now, Reject(retryAfter)));
      Valid(after.bucket) && |s.grants| <= i < |Run(after, run).grants|
    ensures
      var after := Step(s, Timed(now, Reject(retryAfter)));
      && Run(after, run).grants[i].release >= now + (if retryAfter > 0.0 then retryAfter else 1.0 / after.bucket.rate)
      && s.bucket.configured * 0.125 <= Run(after, run).bucket.rate <= s.bucket.configured
  {
    var after := Step(s, Timed(now, Reject(retryAfter)));
    BlockIsHonoured(after, run, i);
  }

  // ---- service is not withheld ---------------------------------------------------------------------------

  /** An immediate request is granted if and only if no block is in force and a whole token is there, counting
      what was earned since. */
  lemma AllowsIff(b: Bucket, now: real)
    requires Valid(b) && now >= b.last
    ensures Allows(b, now) <==> now >= b.blockedUntil && b.tokens + (now - b.last) * b.rate >= 1.0
  {}

  function HalvedRate(b: Bucket): real
  {
    if b.rate * 0.5 < b.configured * 0.125 then b.configured * 0.125 else b.rate * 0.5
  }

  lemma RejectedBucket(b: Bucket, at: real, retryAfter: real)
    requires Valid(b)
    ensures
      var b' := Rejected(b, at, retryAfter);
      && Valid(b') && b'.rate == HalvedRate(b) > 0.0 && b'.last == at
      && b'.tokens == (if b.tokens < 0.0 then b.tokens else 0.0)
      && b'.blockedUntil
         == Max(b.blockedUntil, at + if retryAfter > 0.0 then retryAfter else 1.0 / HalvedRate(b))
  {}

  /** A rejection takes away what was saved up: from then on an immediate request is granted if and only if the
      wait asked for is over, and a whole token has been earned at the halved rate. */
  lemma RejectionEmptiesTheBucket(b: Bucket, at: real, retryAfter: real, now: real)
    requires Valid(b) && at <= now
    ensures HalvedRate(b) > 0.0
    ensures Allows(Rejected(b, at, retryAfter), now) <==>
      && now >= b.blockedUntil && now >= at + (if retryAfter > 0.0 then retryAfter else 1.0 / HalvedRate(b))
      && (if b.tokens < 0.0 then b.tokens else 0.0) + (now - at) * HalvedRate(b) >= 1.0
  {
    RejectedBucket(b, at, retryAfter);
    AllowsIff(Rejected(b, at, retryAfter), now);
  }

  /** The wait for the `n`-th grant from here, when each token takes `1.0 / rate`. */
  function Delay(n: nat, tokens: real, rate: real): real
    requires rate > 0.0
  {
    if n as real <= tokens then 0.0 else (n as real - tokens) / rate
  }

  lemma DivMonotone(a: real, b: real, r: real, r': real)
    requires 0.0 <= a <= b && 0.0 < r <= r'
    ensures a / r' <= b / r
  {
    DivThenMul(a, r');
    DivThenMul(b, r);
    if a / r' > b / r {
      MulMonotone(b / r, a / r', r);
      MulMonotone(r, r', a / r');
    }
  }

  lemma DelayShrinks(n: nat, tokens: real, rate: real, n': nat, tokens': real, rate': real)
    requires 0.0 < rate <= rate' && n' as real - tokens' <= n as real - tokens
    ensures Delay(n', tokens', rate') <= Delay(n, tokens, rate)
  {
    if n' as real > tokens' {
      DivMonotone(n' as real - tokens', n as real - tokens, rate, rate');
    } else if n as real > tokens {
      DivMonotone(0.0, n as real - tokens, rate, rate);
    }
  }

  /** One call that is no rejection costs at most the token it grants, and never slows the bucket down. */
  lemma StepCosts(s: State, e: Timed)
    requires Valid(s.bucket) && !e.call.Reject?
    ensures
      var s' := Step(s, e);
      && s.grants <= s'.grants && |s'.grants| <= |s.grants| + 1 && s'.bucket.rate >= s.bucket.rate
      && s'.bucket.tokens >= s.bucket.tokens - (|s'.grants| - |s.grants|) as real
      && s'.bucket.blockedUntil == s.bucket.blockedUntil
      && (e.call.Reserve? ==> |s'.grants| == |s.grants| + 1)
  {
    EarnedNonNegative(s.bucket, e.now);
  }

  lemma GrantIsPrompt(s: State, e: Timed)
    requires Valid(s.bucket) && |Step(s, e).grants| > |s.grants|
    ensures
      var g := Step(s, e).grants[|s.grants|];
      && g.at == e.now
      && g.release <= Max(s.bucket.blockedUntil, g.at + Delay(1, s.bucket.tokens, s.bucket.rate))
  {
    var b := s.bucket;
    EarnedNonNegative(b, e.now);
    DelayShrinks(1, b.tokens, b.rate, 1, b.tokens, b.rate);
    if e.call.Reserve? && Spent(b, e.now).tokens < 0.0 {
      DivMonotone(-Spent(b, e.now).tokens, 1.0 - b.tokens, b.rate, b.rate);
    }
  }

  /** Nobody waits longer than he must: in any run without a rejection, the `n`-th grant from here is released as
      soon as the block is over and its token is earned, at the rate there was or a better one. */
  lemma {:induction false} NobodyWaitsLonger(s: State, run: seq<Timed>, n: nat)
    requires Valid(s.bucket) && forall i :: 0 <= i < |run| ==> !run[i].call.Reject?
    requires 0 < n <= |Run(s, run).grants| - |s.grants|
    ensures
      var g := Run(s, run).grants[|s.grants| + n - 1];
      g.release <= Max(s.bucket.blockedUntil, g.at + Delay(n, s.bucket.tokens, s.bucket.rate))
    decreases run
  {
    if |run| > 0 {
      var s' := Step(s, run[0]);
      StepValid(s, run[0]);
      StepCosts(s, run[0]);
      GrantsKept(s', run[1..]);
      var granted := |s'.grants| - |s.grants|;
      if granted == 1 && n == 1 {
        GrantIsPrompt(s, run[0]);
      } else {
        NobodyWaitsLonger(s', run[1..], n - granted);
        DelayShrinks(n, s.bucket.tokens, s.bucket.rate, n - granted, s'.bucket.tokens, s'.bucket.rate);
      }
    }
  }

  // ---- shrinking and recovering ---------------------------------------------------------------------

  function SucceededTimes(b: Bucket, n: nat): Bucket
    decreases n
  {
    if n == 0 then b else SucceededTimes(Succeeded(b), n - 1)
  }

  lemma {:induction false} CountingUp(b: Bucket, n: nat)
    requires b.rate < b.configured && b.successes + n < RECOVER_AFTER
    ensures SucceededTimes(b, n) == b.(successes := b.successes + n)
    decreases n
  {
    if n > 0 { CountingUp(Succeeded(b), n - 1); }
  }

  lemma {:induction false} TimesAdd(b: Bucket, m: nat, n: nat)
    ensures SucceededTimes(b, m + n) == SucceededTimes(SucceededTimes(b, m), n)
    decreases m
  {
    if m > 0 { TimesAdd(Succeeded(b), m - 1, n); }
  }

  /** Twenty successes in a row earn one step of a quarter, up to the configured rate. */
  lemma OneRecovery(b: Bucket, streak: nat)
    requires Valid(b) && b.successes == 0 && b.rate < b.configured && streak == 20
    ensures SucceededTimes(b, streak) == b.(rate := Min(b.configured, b.rate * 1.25))
  {
    var n: nat := streak - 1;
    CountingUp(b, n);
    TimesAdd(b, n, 1);
    LastSuccess(b.(successes := n));
  }

  lemma LastSuccess(b: Bucket)
    requires b.successes == RECOVER_AFTER - 1 && b.rate < b.configured
    ensures SucceededTimes(b, 1) == b.(successes := 0, rate := Min(b.configured, b.rate * 1.25))
  {
    assert SucceededTimes(b, 1) == SucceededTimes(Succeeded(b), 0);
  }

  lemma {:induction false} AtFullRate(b: Bucket, n: nat)
    requires b.rate >= b.configured
    ensures SucceededTimes(b, n) == b
    decreases n
  {
    if n > 0 { AtFullRate(b, n - 1); }
  }

  /** As many streaks of successes as it takes to grow `floor` to the configured rate restore it. */
  lemma {:induction false} Recovers(b: Bucket, rounds: nat, streak: nat, floor: real)
    requires Valid(b) && b.successes == 0 && streak == RECOVER_AFTER
    requires b.rate >= floor > 0.0 && Grown(floor, rounds) >= b.configured
    ensures SucceededTimes(b, rounds * streak).rate == b.configured
    decreases rounds
  {
    if b.rate >= b.configured {
      AtFullRate(b, rounds * streak);
    } else {
      OneRecovery(b, streak);
      var next := SucceededTimes(b, streak);
      var rest: nat := (rounds - 1) * streak;
      assert rounds * streak == streak + rest;
      TimesAdd(b, streak, rest);
      if next.rate >= b.configured {
        AtFullRate(next, rest);
      } else {
        Recovers(next, rounds - 1, streak, floor * 1.25);
      }
    }
  }

  function Grown(r: real, rounds: nat): real
    decreases rounds
  {
    if rounds == 0 then r else Grown(r * 1.25, rounds - 1)
  }

  lemma GrownTwice(r: real, rounds: nat)
    requires rounds >= 2
    ensures Grown(r, rounds) == Grown(r * 1.5625, rounds - 2)
  {
    assert Grown(r, rounds) == Grown(r * 1.25, rounds - 1) == Grown(r * 1.25 * 1.25, rounds - 2);
  }

  lemma TenStepsSuffice(f: real)
    requires f > 0.0
    ensures Grown(f, 10) >= f * 8.0
  {
    GrownTwice(f, 10);
    GrownTwice(f * 1.5625, 8);
    GrownTwice(f * 1.5625 * 1.5625, 6);
    GrownTwice(f * 1.5625 * 1.5625 * 1.5625, 4);
    GrownTwice(f * 1.5625 * 1.5625 * 1.5625 * 1.5625, 2);
    assert Grown(f, 10) == f * 1.5625 * 1.5625 * 1.5625 * 1.5625 * 1.5625;
  }

  /** A count already running brings the first step forward. */
  lemma FirstRecovery(b: Bucket, n: nat)
    requires Valid(b) && b.rate < b.configured && b.successes + n == RECOVER_AFTER && n > 0
    ensures SucceededTimes(b, n) == b.(successes := 0, rate := Min(b.configured, b.rate * 1.25))
  {
    var m: nat := n - 1;
    CountingUp(b, m);
    TimesAdd(b, m, 1);
    LastSuccess(b.(successes := b.successes + m));
  }

  /** From the floor, or anywhere above it, two hundred successes without a rejection restore the
      configured rate. */
  lemma RecoversWithinTwoHundred(b: Bucket, n: nat)
    requires Valid(b) && b.successes < 20 && n == 200
    ensures SucceededTimes(b, n).rate == b.configured
  {
    if b.rate >= b.configured {
      AtFullRate(b, n);
    } else {
      var f := b.configured * 0.125;
      TenStepsSuffice(f);
      var streak: nat :| streak == RECOVER_AFTER;
      var first: nat := streak - b.successes;
      FirstRecovery(b, first);
      var next := SucceededTimes(b, first);
      var rounds: nat := 9 * streak;
      AfterFirst(next, b.successes, rounds, streak, f * 1.25);
      TimesAdd(b, first, rounds + b.successes);
    }
  }

  lemma AfterFirst(b: Bucket, extra: nat, n: nat, streak: nat, floor: real)
    requires Valid(b) && b.successes == 0 && streak == RECOVER_AFTER && n == 9 * streak
    requires floor > 0.0 && (b.rate >= floor || b.rate >= b.configured) && Grown(floor, 9) >= b.configured
    ensures SucceededTimes(b, n + extra).rate == b.configured
  {
    if b.rate >= b.configured {
      AtFullRate(b, n);
    } else {
      Recovers(b, 9, streak, floor);
    }
    TimesAdd(b, n, extra);
    ConfiguredKept(b, n);
    AtFullRate(SucceededTimes(b, n), extra);
  }

  lemma {:induction false} ConfiguredKept(b: Bucket, n: nat)
    ensures SucceededTimes(b, n).configured == b.configured
    decreases n
  {
    if n > 0 { ConfiguredKept(Succeeded(b), n - 1); }
  }

  /** And three rejections bring any rate down to the floor, whatever wait they ask for. */
  lemma ThreeRejectionsReachTheFloor(b: Bucket, t0: real, t1: real, t2: real, wait0: real, wait1: real, wait2: real)
    requires Valid(b)
    ensures
      var b1 := Rejected(b, t0, wait0);
      var b2 := Rejected(b1, t1, wait1);
      Rejected(b2, t2, wait2).rate == b.configured * 0.125
  {
    var b1 := Rejected(b, t0, wait0);
    assert b1.rate <= b.configured * 0.5;
    var b2 := Rejected(b1, t1, wait1);
    assert b2.rate <= b.configured * 0.25;
  }
}
