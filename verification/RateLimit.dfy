/** The SEC client's politeness: a token bucket, an adaptive delay, and retries with backoff. */
module RateLimit {
  import opened Wrappers
  import Filings

  // ---- the bucket ----

  datatype Bucket = Bucket(interval: real, burst: nat, tokens: real, last: real)

  predicate Valid(b: Bucket) {
    b.interval > 0.0 && 0.0 <= b.tokens <= b.burst as real
  }

  function Capped(b: Bucket, tokens: real): real {
    if tokens > b.burst as real then b.burst as real else tokens
  }

  /** Tokens grow with the time that passed, never past the burst. */
  function Refilled(b: Bucket, now: real): Bucket
    requires b.interval > 0.0
  {
    if now - b.last > 0.0
    then b.(tokens := Capped(b, b.tokens + (now - b.last) / b.interval), last := now)
    else b
  }

  predicate Grants(b: Bucket, now: real)
    requires b.interval > 0.0
  {
    Refilled(b, now).tokens >= 1.0
  }

  /** One pass under the lock: a token is taken if there is one. */
  function Tried(b: Bucket, now: real): Bucket
    requires b.interval > 0.0
  {
    var r := Refilled(b, now);
    if r.tokens >= 1.0 then r.(tokens := r.tokens - 1.0) else r
  }

  function TriedAll(b: Bucket, times: seq<real>): (r: Bucket)
    requires b.interval > 0.0
    ensures r.interval == b.interval && r.burst == b.burst
    decreases |times|
  {
    if times == [] then b else TriedAll(Tried(b, times[0]), times[1..])
  }

  /** How many of a run of passes, by whatever callers, took a token. */
  function Granted(b: Bucket, times: seq<real>): nat
    requires b.interval > 0.0
    decreases |times|
  {
    if times == [] then 0
    else (if Grants(b, times[0]) then 1 else 0) + Granted(Tried(b, times[0]), times[1..])
  }

  predicate InWindow(times: seq<real>, from: real, until: real) {
    times == [] || (from <= times[0] <= until && InWindow(times[1..], times[0], until))
  }

  lemma Elapse(a: real, b: real, interval: real)
    requires interval > 0.0
    ensures (a + b) / interval == a / interval + b / interval
    ensures a >= 0.0 ==> a / interval >= 0.0
  {
  }

  lemma TriedValid(b: Bucket, now: real)
    requires Valid(b)
    ensures Valid(Tried(b, now)) && Tried(b, now).interval == b.interval && Tried(b, now).burst == b.burst
    ensures b.last <= now ==> Tried(b, now).last == now
  {
    if now > b.last {
      Elapse(now - b.last, 0.0, b.interval);
    }
  }

  /** Tokens stay within [0, burst] through any run, whatever the clock does. */
  lemma {:induction false} TokensBounded(b: Bucket, times: seq<real>)
    requires Valid(b)
    ensures Valid(TriedAll(b, times))
    decreases |times|
  {
    if times != [] {
      TriedValid(b, times[0]);
      TokensBounded(Tried(b, times[0]), times[1..]);
    }
  }

  /** The tokens a bucket would have at `at`. */
  function Level(b: Bucket, at: real): real
    requires b.interval > 0.0
  {
    Refilled(b, at).tokens
  }

  lemma LevelGrows(b: Bucket, from: real, now: real)
    requires Valid(b) && b.last <= from <= now
    ensures Level(b, now) <= Level(b, from) + (now - from) / b.interval
  {
    Elapse(from - b.last, now - from, b.interval);
    Elapse(now - from, 0.0, b.interval);
  }

  lemma {:induction false} GrantsFromLevel(b: Bucket, times: seq<real>, from: real, until: real)
    requires Valid(b) && b.last <= from <= until && InWindow(times, from, until)
    ensures Granted(b, times) as real <= Level(b, from) + (until - from) / b.interval
    decreases |times|
  {
    Elapse(until - from, 0.0, b.interval);
    if times != [] {
      var now := times[0];
      TriedValid(b, now);
      GrantsFromLevel(Tried(b, now), times[1..], now, until);
      LevelGrows(b, from, now);
      Elapse(now - from, until - now, b.interval);
    } else if from > b.last {
      Elapse(from - b.last, 0.0, b.interval);
    }
  }

  /** In any window of any run, at most the burst and one more per interval. The clock does not
      run backwards. */
  lemma WindowBound(b: Bucket, before: seq<real>, window: seq<real>, start: real, from: real, until: real)
    requires Valid(b) && b.last <= start <= from <= until
    requires InWindow(before, start, from) && InWindow(window, from, until)
    ensures Granted(TriedAll(b, before), window) as real <= b.burst as real + (until - from) / b.interval
  {
    TokensBounded(b, before);
    LastTried(b, before, start, from);
    GrantsFromLevel(TriedAll(b, before), window, from, until);
  }

  lemma {:induction false} LastTried(b: Bucket, times: seq<real>, from: real, until: real)
    requires Valid(b) && b.last <= from && InWindow(times, from, until) && from <= until
    ensures TriedAll(b, times).last <= until
    decreases |times|
  {
    if times != [] {
      TriedValid(b, times[0]);
      LastTried(Tried(b, times[0]), times[1..], times[0], until);
    }
  }

  /** What the bucket tells a caller to wait is exactly enough, when no one else comes first. */
  lemma WaitIsEnough(b: Bucket, now: real, later: real)
    requires Valid(b) && b.last <= now <= later && !Grants(b, now) && b.burst >= 1
    ensures Grants(Tried(b, now), later) <==> later - now >= (1.0 - Tried(b, now).tokens) * b.interval
  {
    var r := Tried(b, now);
    TriedValid(b, now);
    Scale(later - now, 1.0 - r.tokens, b.interval);
  }

  lemma Scale(x: real, y: real, interval: real)
    requires interval > 0.0
    ensures x / interval >= y <==> x >= y * interval
  {
    assert x / interval * interval == x;
    if x / interval >= y {
      assert (x / interval - y) * interval >= 0.0;
    } else {
      assert (y - x / interval) * interval > 0.0;
    }
  }

  /** `tokenBucket`. */
  class TokenBucket {
    const interval: real
    const burst: nat
    var tokens: real
    var last: real

    function State(): Bucket
      reads this
    {
      Bucket(interval, burst, tokens, last)
    }

    constructor (rps: real, burst: nat, now: real)
      requires rps > 0.0
      ensures Valid(State()) && State() == Bucket(1.0 / rps, burst, burst as real, now)
    {
      this.interval, this.burst, this.tokens, this.last := 1.0 / rps, burst, burst as real, now;
    }

    method TryTake(now: real) returns (granted: bool)
      requires Valid(State())
      modifies this
      ensures State() == Tried(old(State()), now) && granted == Grants(old(State()), now) && Valid(State())
    {
      TriedValid(State(), now);
      var elapsed := now - last;
      if elapsed > 0.0 {
        tokens := tokens + elapsed / interval;
        if tokens > burst as real {
          tokens := burst as real;
        }
        last := now;
      }
      granted := tokens >= 1.0;
      if granted {
        tokens := tokens - 1.0;
      }
    }

    /** `Wait`: pass after pass at the times the clock gives, until a token is had or the context
        ends, after `wakes` timers. `tries` are the passes made. */
    method Wait(clock: nat -> real, wakes: nat) returns (ok: bool, ghost tries: seq<real>)
      requires Valid(State())
      modifies this
      ensures Valid(State()) && State() == TriedAll(old(State()), tries)
      ensures |tries| <= wakes + 1 && forall k | 0 <= k < |tries| :: tries[k] == clock(k)
      ensures ok ==> Granted(old(State()), tries) == 1
      ensures !ok ==> Granted(old(State()), tries) == 0 && |tries| == wakes + 1
    {
      tries := [];
      for k := 0 to wakes + 1
        invariant Valid(State()) && State() == TriedAll(old(State()), tries)
        invariant |tries| == k && (forall i | 0 <= i < k :: tries[i] == clock(i)) && Granted(old(State()), tries) == 0
      {
        ghost var before := State();
        var granted := TryTake(clock(k));
        OneMoreTry(old(State()), tries, clock(k));
        tries := tries + [clock(k)];
        if granted {
          return true, tries;
        }
      }
      ok := false;
    }
  }

  lemma {:induction false} OneMoreTry(b: Bucket, times: seq<real>, now: real)
    requires Valid(b)
    ensures TriedAll(b, times + [now]) == Tried(TriedAll(b, times), now)
    ensures Granted(b, times + [now]) == Granted(b, times) + if Grants(TriedAll(b, times), now) then 1 else 0
    decreases |times|
  {
    if times == [] {
      assert times + [now] == [now] && [now][1..] == [];
    } else {
      TriedValid(b, times[0]);
      OneMoreTry(Tried(b, times[0]), times[1..], now);
      assert (times + [now])[1..] == times[1..] + [now];
    }
  }

  // ---- the adaptive delay ----

  const MILLISECOND := 1_000_000
  const SECOND := 1000 * MILLISECOND
  const MAX_DELAY := 12 * SECOND

  /** How a request ended: a body, a status outside 200 to 299, or any other failure. */
  datatype Answer = Body(text: string) | Status(code: int) | Broken

  predicate Retryable(a: Answer) {
    match a
    case Body(_) => false
    case Status(code) => code == 429 || code == 403 || 500 <= code <= 599
    case Broken => true
  }

  /** Asked again is what may pass: a connection that broke, a server error, and too many requests, to
      which the archive may answer 403 as well as 429. */
  lemma RetryableIff(a: Answer)
    ensures Retryable(a) <==> a.Broken? || (a.Status? && (a.code / 100 == 5 || a.code in {403, 429}))
  {
  }

  datatype Pace = Pace(extraDelay: int, consec5xx: nat)

  function Bumped(p: Pace, add: int): Pace {
    p.(extraDelay := if p.extraDelay + add > MAX_DELAY then MAX_DELAY else p.extraDelay + add)
  }

  function AfterSuccess(p: Pace): Pace {
    Pace(if p.extraDelay > 100 * MILLISECOND then p.extraDelay / 2 else p.extraDelay, 0)
  }

  function AfterFailure(p: Pace, a: Answer): Pace {
    if !a.Status? then p
    else if a.code == 403 || a.code == 429 then Bumped(p, 2 * SECOND).(consec5xx := 0)
    else if 500 <= a.code <= 599 then
      var q := p.(consec5xx := p.consec5xx + 1);
      if q.consec5xx >= 2 then Bumped(q, 1500 * MILLISECOND) else q
    else p.(consec5xx := 0)
  }

  function Noted(p: Pace, a: Answer): Pace {
    if a.Body? then AfterSuccess(p) else AfterFailure(p, a)
  }

  function NotedAll(p: Pace, answers: seq<Answer>): Pace
    decreases |answers|
  {
    if answers == [] then p else NotedAll(Noted(p, answers[0]), answers[1..])
  }

  predicate InRange(p: Pace) {
    0 <= p.extraDelay <= MAX_DELAY
  }

  /** Whatever is answered, to however many concurrent callers, the extra delay stays within
      [0, 12 s]. */
  lemma {:induction false} DelayInRange(p: Pace, answers: seq<Answer>)
    requires InRange(p)
    ensures InRange(NotedAll(p, answers))
    decreases |answers|
  {
    if answers != [] {
      DelayInRange(Noted(p, answers[0]), answers[1..]);
    }
  }

  /** Halved by each success, the delay is at most 100 ms after seven of them. */
  lemma DelayRecovers(p: Pace, answers: seq<Answer>)
    requires InRange(p) && |answers| == 7 && forall a | a in answers :: a.Body?
    ensures NotedAll(p, answers).extraDelay <= 100 * MILLISECOND
  {
    RecoversStep(p, answers, 7);
  }

  lemma {:induction false} RecoversStep(p: Pace, answers: seq<Answer>, n: nat)
    requires 0 <= n <= 7 && |answers| == n && forall a | a in answers :: a.Body?
    requires p.extraDelay <= [100, 200, 400, 800, 1600, 3200, 6400, 12800][n] * MILLISECOND
    ensures NotedAll(p, answers).extraDelay <= 100 * MILLISECOND
    decreases |answers|
  {
    if answers != [] {
      assert answers[0] in answers;
      RecoversStep(Noted(p, answers[0]), answers[1..], n - 1);
    }
  }

  // ---- backoff ----

  const TWO_TO_THE_63 := 0x8000_0000_0000_0000
  const TWO_TO_THE_64 := 0x1_0000_0000_0000_0000

  function Pow2(n: nat): int {
    if n == 0 then 1 else 2 * Pow2(n - 1)
  }

  /** A value in a 64-bit signed integer. */
  function Wrap64(x: int): int {
    (x + TWO_TO_THE_63) % TWO_TO_THE_64 - TWO_TO_THE_63
  }

  /** Division that rounds toward zero. */
  function Halve(x: int): int {
    if x >= 0 then x / 2 else -(-x / 2)
  }

  function BackoffBase(base: int, cap: int, attempt: nat): int {
    var shifted := Wrap64(base * Pow2(attempt));
    if shifted > cap then cap else shifted
  }

  /** `backoffFor`: None when the random draw panics. `draw(n)` is at least 0 and below n. */
  function BackoffFor(base: int, cap: int, attempt: nat, draw: int -> int): Option<int> {
    var b := BackoffBase(base, cap, attempt);
    if Halve(b) + 1 <= 0 then None else Some(Halve(b) + draw(Halve(b) + 1))
  }

  ghost predicate Draws(draw: int -> int) {
    forall n {:trigger draw(n)} | n > 0 :: 0 <= draw(n) < n
  }

  /** The backoff panics exactly when the shift wraps to less than -1; otherwise it is between
      nothing and the cap. */
  lemma BackoffBounded(base: int, cap: int, attempt: nat, draw: int -> int)
    requires cap > 0 && Draws(draw)
    ensures var b, r := Wrap64(base * Pow2(attempt)), BackoffFor(base, cap, attempt, draw);
            && (r == None <==> b <= -2)
            && (r.Some? ==> 0 <= r.value <= cap)
            && (0 <= b && r.Some? ==> Halve(if b > cap then cap else b) <= r.value)
  {
    var b := BackoffBase(base, cap, attempt);
    if Halve(b) + 1 > 0 {
      assert 0 <= draw(Halve(b) + 1) < Halve(b) + 1;
    }
  }

  /** With a shift that stays below 2^63, as with the defaults, the backoff never panics and is at
      least half of what it doubled to. */
  lemma BackoffDoubles(base: int, cap: int, attempt: nat, draw: int -> int)
    requires cap > 0 && Draws(draw) && base >= 0 && base * Pow2(attempt) < TWO_TO_THE_63
    ensures var full, r := base * Pow2(attempt), BackoffFor(base, cap, attempt, draw);
            r.Some? && (if full > cap then cap else full) / 2 <= r.value <= cap
  {
    Pow2Positive(attempt);
    assert base * Pow2(attempt) >= 0;
    BackoffBounded(base, cap, attempt, draw);
  }

  lemma {:induction false} Pow2Positive(n: nat)
    ensures Pow2(n) >= 1
  {
    if n > 0 {
      Pow2Positive(n - 1);
    }
  }

  // ---- the retry loop ----

  datatype FetchError = NoCik | Cancelled | Panicked | Gave(last: Answer)

  /** What other callers note in the n-th turn: before the delay is read, and between that and the
      caller's own note. Nothing else in a turn depends on when they do. */
  datatype Traffic = Traffic(before: nat -> seq<Answer>, during: nat -> seq<Answer>)

  /** All that is noted in the first n turns. */
  function Notes(answers: nat -> Answer, others: Traffic, n: nat): seq<Answer> {
    if n == 0 then []
    else Notes(answers, others, n - 1) + others.before(n - 1) + others.during(n - 1) + [answers(n - 1)]
  }

  lemma {:induction false} NotedConcat(p: Pace, xs: seq<Answer>, ys: seq<Answer>)
    ensures NotedAll(p, xs + ys) == NotedAll(NotedAll(p, xs), ys)
    decreases |xs|
  {
    if xs == [] {
      assert xs + ys == ys;
    } else {
      assert (xs + ys)[0] == xs[0] && (xs + ys)[1..] == xs[1..] + ys;
      NotedConcat(Noted(p, xs[0]), xs[1..], ys);
    }
  }

  /** The requests made: each but the last failed in a way that is retried. */
  ghost predicate Asked(asked: seq<Answer>, answers: nat -> Answer, retries: nat) {
    && |asked| <= retries + 1
    && (forall k | 0 <= k < |asked| :: asked[k] == answers(k))
    && forall k | 0 <= k < |asked| - 1 :: Retryable(asked[k])
  }

  /** The pace after some of the notes of n turns. */
  ghost predicate Paced(start: Pace, pace: Pace, notes: seq<Answer>, all: seq<Answer>) {
    InRange(pace) && pace == NotedAll(start, notes) && notes <= all
  }

  /** The most that n retries can sleep. */
  function Budget(cap: int, n: nat): int {
    if n == 0 then 0 else Budget(cap, n - 1) + cap + MAX_DELAY
  }

  lemma {:induction false} BudgetIs(cap: int, n: nat, m: nat)
    requires cap >= 0 && n <= m
    ensures Budget(cap, n) <= Budget(cap, m) == m * cap + m * MAX_DELAY
    decreases m
  {
    if n < m {
      BudgetIs(cap, n, m - 1);
    } else if n > 0 {
      BudgetIs(cap, n - 1, m - 1);
    }
    assert m > 0 ==> (m - 1) * cap + cap == m * cap;
  }

  /** Between two turns. */
  ghost predicate Retrying(start: Pace, pace: Pace, notes: seq<Answer>, asked: seq<Answer>, slept: int,
                           answers: nat -> Answer, others: Traffic, cap: int, n: nat) {
    && InRange(pace) && pace == NotedAll(start, notes) && notes == Notes(answers, others, n)
    && |asked| == n && (forall k | 0 <= k < n :: asked[k] == answers(k) && Retryable(asked[k]))
    && 0 <= slept <= Budget(cap, n)
  }

  lemma NotesGrow(answers: nat -> Answer, others: Traffic, n: nat)
    ensures Notes(answers, others, n) <= Notes(answers, others, n) + others.before(n) <= Notes(answers, others, n + 1)
    ensures Notes(answers, others, n) + others.before(n) + others.during(n) <= Notes(answers, others, n + 1)
    ensures Notes(answers, others, n) + others.before(n) + others.during(n) + [answers(n)] == Notes(answers, others, n + 1)
  {
  }

  /** What holds wherever the loop is left: the pace, the requests and the time slept so far. */
  ghost predicate SoFar(start: Pace, pace: Pace, notes: seq<Answer>, asked: seq<Answer>, slept: int,
                        answers: nat -> Answer, others: Traffic, cap: int, retries: nat) {
    && Paced(start, pace, notes, Notes(answers, others, |asked| + 1)) && Asked(asked, answers, retries)
    && 0 <= slept <= retries * cap + (retries + 1) * MAX_DELAY
  }

  /** The wait for the n-th turn. */
  lemma TurnTaken(start: Pace, pace: Pace, notes: seq<Answer>, asked: seq<Answer>, slept: int,
                  answers: nat -> Answer, others: Traffic, cap: int, retries: nat, n: nat, later: Pace)
    requires Retrying(start, pace, notes, asked, slept, answers, others, cap, n) && n <= retries && cap > 0
    requires InRange(later) && later == NotedAll(start, notes + others.before(n))
    ensures SoFar(start, later, notes + others.before(n), asked, slept + later.extraDelay, answers, others, cap, retries)
  {
    BudgetIs(cap, n, retries);
    NotesGrow(answers, others, n);
    NotesGrow(answers, others, n + 1);
  }

  /** The request made, and what was noted meanwhile; then the answer noted. */
  lemma TurnNoted(start: Pace, pace: Pace, notes: seq<Answer>, asked: seq<Answer>, slept: int, delay: int,
                  answers: nat -> Answer, others: Traffic, cap: int, retries: nat, n: nat, later: Pace)
    requires Retrying(start, pace, notes, asked, slept, answers, others, cap, n) && n <= retries && cap > 0
    requires InRange(later) && later == NotedAll(start, notes + others.before(n) + others.during(n))
    requires 0 <= delay <= MAX_DELAY
    ensures var before := notes + others.before(n) + others.during(n);
            && SoFar(start, later, before, asked + [answers(n)], slept + delay, answers, others, cap, retries)
            && SoFar(start, Noted(later, answers(n)), before + [answers(n)], asked + [answers(n)], slept + delay,
                     answers, others, cap, retries)
  {
    BudgetIs(cap, n, retries);
    NoteOne(start, notes + others.before(n) + others.during(n), answers(n));
    NotesGrow(answers, others, n);
    NotesGrow(answers, others, n + 1);
  }

  /** The backoff slept. */
  lemma TurnSlept(start: Pace, pace: Pace, notes: seq<Answer>, asked: seq<Answer>, slept: int, delay: int, backoff: int,
                  answers: nat -> Answer, others: Traffic, cap: int, retries: nat, n: nat, later: Pace)
    requires Retrying(start, pace, notes, asked, slept, answers, others, cap, n) && n < retries && cap > 0
    requires InRange(later) && later == NotedAll(start, notes + others.before(n) + others.during(n))
    requires Retryable(answers(n)) && 0 <= backoff <= cap && 0 <= delay <= MAX_DELAY
    ensures var noted, total := notes + others.before(n) + others.during(n) + [answers(n)], slept + delay + backoff;
            && SoFar(start, Noted(later, answers(n)), noted, asked + [answers(n)], total, answers, others, cap, retries)
            && Retrying(start, Noted(later, answers(n)), noted, asked + [answers(n)], total, answers, others, cap, n + 1)
  {
    TurnNoted(start, pace, notes, asked, slept, delay, answers, others, cap, retries, n, later);
    NoteOne(start, notes + others.before(n) + others.during(n), answers(n));
    NotesGrow(answers, others, n);
    BudgetIs(cap, n + 1, retries);
  }

  class Client {
    const maxRetries: nat
    const backoffBase: int
    const backoffCap: int
    var pace: Pace

    constructor (maxRetries: nat, backoffBase: int, backoffCap: int)
      requires backoffCap > 0
      ensures this.maxRetries == maxRetries && this.backoffBase == backoffBase && this.backoffCap == backoffCap
      ensures pace == Pace(0, 0)
    {
      this.maxRetries, this.backoffBase, this.backoffCap, this.pace := maxRetries, backoffBase, backoffCap, Pace(0, 0);
    }

    method NoteSuccess(status: int)
      modifies this`pace
      ensures pace == if status >= 500 then old(pace) else AfterSuccess(old(pace))
    {
      if status >= 500 {
        return;
      }
      pace := pace.(consec5xx := 0);
      if pace.extraDelay > 100 * MILLISECOND {
        pace := pace.(extraDelay := pace.extraDelay / 2);
      }
    }

    method BumpDelay(add: int)
      modifies this`pace
      ensures pace == Bumped(old(pace), add)
    {
      pace := pace.(extraDelay := pace.extraDelay + add);
      if pace.extraDelay > MAX_DELAY {
        pace := pace.(extraDelay := MAX_DELAY);
      }
    }

    method NoteFailure(a: Answer)
      modifies this`pace
      ensures pace == AfterFailure(old(pace), a)
    {
      if a.Status? {
        if a.code == 403 || a.code == 429 {
          BumpDelay(2 * SECOND);
          pace := pace.(consec5xx := 0);
        } else if 500 <= a.code <= 599 {
          pace := pace.(consec5xx := pace.consec5xx + 1);
          if pace.consec5xx >= 2 {
            BumpDelay(1500 * MILLISECOND);
          }
        } else {
          pace := pace.(consec5xx := 0);
        }
      }
    }

    /** `FetchSubmissions`. The k-th request is answered `answers(k)`; `others` is what other callers
        note all the while; `stops` says at which of its waits the context ends; `slept` is the
        time slept outside the bucket. */
    method FetchSubmissions(cik: string, answers: nat -> Answer, others: Traffic,
                            draws: nat -> (int -> int), stops: (nat, bool) -> bool)
      returns (r: Result<string, FetchError>, ghost asked: seq<Answer>, ghost notes: seq<Answer>, ghost slept: int)
      requires InRange(pace) && backoffCap > 0 && forall k :: Draws(draws(k))
      modifies this`pace
      ensures SoFar(old(pace), pace, notes, asked, slept, answers, others, backoffCap, maxRetries)
      ensures r.Ok? ==> asked != [] && asked[|asked| - 1] == Body(r.value)
      ensures r.Err? && r.error.Gave? ==>
                asked != [] && asked[|asked| - 1] == r.error.last && !r.error.last.Body?
                && (Retryable(r.error.last) ==> |asked| == maxRetries + 1)
      ensures r == Err(Panicked) ==> asked != [] && Wrap64(backoffBase * Pow2(|asked| - 1)) <= -2
      ensures r == Err(NoCik) <==> Filings.NormalizeCik(cik) == ""
    {
      asked, notes, slept := [], [], 0;
      if Filings.NormalizeCik(cik) == "" {
        BudgetIs(backoffCap, 0, maxRetries);
        return Err(NoCik), asked, notes, slept;
      }
      r, asked, notes, slept := Retry(answers, others, draws, stops);
    }

    /** The loop of `FetchSubmissions` and of `FetchSubmissionPage`. */
    method Retry(answers: nat -> Answer, others: Traffic, draws: nat -> (int -> int), stops: (nat, bool) -> bool)
      returns (r: Result<string, FetchError>, ghost asked: seq<Answer>, ghost notes: seq<Answer>, ghost slept: int)
      requires InRange(pace) && backoffCap > 0 && forall k :: Draws(draws(k))
      modifies this`pace
      ensures SoFar(old(pace), pace, notes, asked, slept, answers, others, backoffCap, maxRetries)
      ensures r.Ok? ==> asked != [] && asked[|asked| - 1] == Body(r.value)
      ensures r.Err? && r.error.Gave? ==>
                asked != [] && asked[|asked| - 1] == r.error.last && !r.error.last.Body?
                && (Retryable(r.error.last) ==> |asked| == maxRetries + 1)
      ensures r == Err(Panicked) ==> asked != [] && Wrap64(backoffBase * Pow2(|asked| - 1)) <= -2
      ensures r != Err(NoCik)
    {
      r, asked, notes, slept := Err(Cancelled), [], [], 0;
      var attempt := 0;
      while true
        invariant attempt <= maxRetries && |asked| == attempt
        invariant Retrying(old(pace), pace, notes, asked, slept, answers, others, backoffCap, attempt)
        decreases maxRetries - attempt
      {
        ghost var before, noted, spent := pace, notes, slept;
        notes := OthersNote(others.before(attempt), old(pace), notes);
        ghost var delay := pace.extraDelay;
        TurnTaken(old(pace), before, noted, asked, spent, answers, others, backoffCap, maxRetries, attempt, pace);
        slept := slept + delay;
        if stops(attempt, true) {
          r := Err(Cancelled);
          break;
        }
        var a := answers(attempt);
        notes := OthersNote(others.during(attempt), old(pace), notes);
        ghost var paced := pace;
        TurnNoted(old(pace), before, noted, asked, spent, delay, answers, others, backoffCap, maxRetries, attempt, paced);
        if a.Body? {
          NoteSuccess(200);
          r, asked, notes := Ok(a.text), asked + [a], notes + [a];
          break;
        }
        if !Retryable(a) || attempt == maxRetries {
          r, asked := Err(Gave(a)), asked + [a];
          break;
        }
        var backoff := NoteAndDraw(a, attempt, draws(attempt));
        if backoff == None {
          r, asked, notes := Err(Panicked), asked + [a], notes + [a];
          break;
        }
        TurnSlept(old(pace), before, noted, asked, spent, delay, backoff.value, answers, others, backoffCap, maxRetries, attempt, paced);
        asked, notes, slept := asked + [a], notes + [a], slept + backoff.value;
        if stops(attempt, false) {
          r := Err(Cancelled);
          break;
        }
        attempt := attempt + 1;
      }
    }

    /** A retryable failure: it is noted, and the backoff drawn. */
    method NoteAndDraw(a: Answer, attempt: nat, draw: int -> int) returns (backoff: Option<int>)
      requires !a.Body? && backoffCap > 0 && Draws(draw)
      modifies this`pace
      ensures pace == Noted(old(pace), a)
      ensures backoff == BackoffFor(backoffBase, backoffCap, attempt, draw)
      ensures backoff == None <==> Wrap64(backoffBase * Pow2(attempt)) <= -2
      ensures backoff.Some? ==> 0 <= backoff.value <= backoffCap
    {
      NoteFailure(a);
      BackoffBounded(backoffBase, backoffCap, attempt, draw);
      backoff := BackoffFor(backoffBase, backoffCap, attempt, draw);
    }

    /** What other callers of the same client note in the meantime. */
    method OthersNote(answers: seq<Answer>, ghost start: Pace, ghost notes: seq<Answer>) returns (ghost more: seq<Answer>)
      requires InRange(pace) && pace == NotedAll(start, notes)
      modifies this`pace
      ensures more == notes + answers && pace == NotedAll(start, more) && InRange(pace)
    {
      DelayInRange(pace, answers);
      NotedConcat(start, notes, answers);
      more := notes + answers;
      pace := NotedAll(pace, answers);
    }
  }

  lemma NoteOne(start: Pace, notes: seq<Answer>, a: Answer)
    requires InRange(NotedAll(start, notes))
    ensures NotedAll(start, notes + [a]) == Noted(NotedAll(start, notes), a)
    ensures InRange(Noted(NotedAll(start, notes), a))
  {
    NotedConcat(start, notes, [a]);
    assert [a][1..] == [];
  }
}
