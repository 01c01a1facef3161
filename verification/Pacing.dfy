/** How the archive's answers set the pace of a client, said of the answers alone. */
module Pacing {
  import opened Wrappers
  import opened RateLimit

  predicate Refused(a: Answer) {
    a.Status? && (a.code == 403 || a.code == 429)
  }

  predicate ServerError(a: Answer) {
    a.Status? && a.code / 100 == 5
  }

  /** How many server errors there have been since the last other answer; a connection that broke is
      not an answer. */
  function ServerErrors(answers: seq<Answer>): nat
    decreases |answers|
  {
    if answers == [] then 0
    else
      var init, last := answers[..|answers| - 1], answers[|answers| - 1];
      if last.Broken? then ServerErrors(init) else if ServerError(last) then ServerErrors(init) + 1 else 0
  }

  function AtMost12s(delay: int): int {
    if delay < 12_000_000_000 then delay else 12_000_000_000
  }

  lemma {:induction false} NotedOneMore(p: Pace, answers: seq<Answer>, a: Answer)
    ensures NotedAll(p, answers + [a]) == Noted(NotedAll(p, answers), a)
    decreases |answers|
  {
    if answers == [] {
      assert answers + [a] == [a] && [a][1..] == [];
    } else {
      assert (answers + [a])[0] == answers[0] && (answers + [a])[1..] == answers[1..] + [a];
      NotedOneMore(Noted(p, answers[0]), answers[1..], a);
    }
  }

  /** The client counts the server errors in a row. */
  lemma {:induction false} CountsServerErrors(answers: seq<Answer>)
    ensures NotedAll(Pace(0, 0), answers).consec5xx == ServerErrors(answers)
    decreases |answers|
  {
    if answers != [] {
      var init, last := answers[..|answers| - 1], answers[|answers| - 1];
      CountsServerErrors(init);
      NotedOneMore(Pace(0, 0), init, last);
      assert init + [last] == answers;
    }
  }

  /** What one more answer does to the delay, in nanoseconds, after any answers before it: a body halves
      one above 100 ms; a refusal adds two seconds; a server error one and a half when it is not the
      first in a row; up to twelve. Nothing else changes it. */
  lemma DelayAfter(answers: seq<Answer>, a: Answer)
    ensures var d := NotedAll(Pace(0, 0), answers).extraDelay;
            NotedAll(Pace(0, 0), answers + [a]).extraDelay
            == if a.Body? then (if d > 100_000_000 then d / 2 else d)
               else if Refused(a) then AtMost12s(d + 2_000_000_000)
               else if ServerError(a) && ServerErrors(answers) >= 1 then AtMost12s(d + 1_500_000_000)
               else d
  {
    NotedOneMore(Pace(0, 0), answers, a);
    CountsServerErrors(answers);
    DelayInRange(Pace(0, 0), answers);
  }

  /** So after n refusals in a row a fresh client waits two seconds each, up to twelve. */
  lemma {:induction false} RefusalsAddUp(answers: seq<Answer>)
    requires forall a | a in answers :: Refused(a)
    ensures NotedAll(Pace(0, 0), answers).extraDelay == AtMost12s(2_000_000_000 * |answers|)
    decreases |answers|
  {
    if answers != [] {
      var init, last := answers[..|answers| - 1], answers[|answers| - 1];
      assert last in answers && forall a | a in init :: a in answers;
      RefusalsAddUp(init);
      DelayAfter(init, last);
      assert init + [last] == answers;
    }
  }

  /** While nothing overflows each attempt's backoff is at most twice that of the one before, up to the
      cap. */
  lemma BackoffDoublesEach(base: int, cap: int, attempt: nat)
    requires base >= 0 && cap > 0 && base * Pow2(attempt + 1) < TWO_TO_THE_63
    ensures BackoffBase(base, cap, 0) == if base < cap then base else cap
    ensures BackoffBase(base, cap, attempt + 1)
         == if 2 * BackoffBase(base, cap, attempt) < cap then 2 * BackoffBase(base, cap, attempt) else cap
  {
    var full := base * Pow2(attempt);
    Pow2Positive(attempt);
    assert base * Pow2(attempt + 1) == 2 * full;
    assert base <= full;
    assert base * Pow2(0) == base;
    assert Wrap64(base) == base && Wrap64(full) == full && Wrap64(2 * full) == 2 * full;
  }
}
