/** Runs of a labelled state machine, whatever its states and labels are. */
module Runs {
  import opened Wrappers

  /** The state a schedule leads to, or None when some step of it cannot be taken. */
  function Run<W, L>(next: (W, L) -> Option<W>, w: W, ls: seq<L>): Option<W>
    decreases |ls|
  {
    if ls == [] then Some(w)
    else
      match next(w, ls[0])
      case None => None
      case Some(v) => Run(next, v, ls[1..])
  }

  /** Every step of the schedule, in the state it is taken in, is an allowed one. */
  predicate Allowed<W, L>(next: (W, L) -> Option<W>, safe: (W, L) -> bool, w: W, ls: seq<L>)
    decreases |ls|
  {
    ls == [] || (safe(w, ls[0]) && (next(w, ls[0]).Some? ==> Allowed(next, safe, next(w, ls[0]).value, ls[1..])))
  }

  /** What the steps of a schedule output, in order. */
  function Outputs<W, L, X>(next: (W, L) -> Option<W>, out: (W, L) -> seq<X>, w: W, ls: seq<L>): seq<X>
    decreases |ls|
  {
    if ls == [] || next(w, ls[0]).None? then []
    else out(w, ls[0]) + Outputs(next, out, next(w, ls[0]).value, ls[1..])
  }

  /** An invariant of the allowed steps holds after every allowed run. */
  lemma {:induction false} Keeps<W(!new), L(!new)>(
      next: (W, L) -> Option<W>, inv: W -> bool, safe: (W, L) -> bool, w: W, ls: seq<L>)
    requires forall w, l {:trigger next(w, l)} :: inv(w) && safe(w, l) && next(w, l).Some? ==> inv(next(w, l).value)
    requires inv(w) && Run(next, w, ls).Some? && Allowed(next, safe, w, ls)
    ensures inv(Run(next, w, ls).value)
    decreases |ls|
  {
    if ls != [] {
      Keeps(next, inv, safe, next(w, ls[0]).value, ls[1..]);
    }
  }

  /** When every allowed step adds its output to an observation, so does every allowed run. */
  lemma {:induction false} Adds<W(!new), L(!new), X>(
      next: (W, L) -> Option<W>, inv: W -> bool, safe: (W, L) -> bool,
      view: W -> seq<X>, out: (W, L) -> seq<X>, w: W, ls: seq<L>)
    requires forall w, l {:trigger next(w, l)} :: inv(w) && safe(w, l) && next(w, l).Some? ==>
               inv(next(w, l).value) && view(next(w, l).value) == view(w) + out(w, l)
    requires inv(w) && Run(next, w, ls).Some? && Allowed(next, safe, w, ls)
    ensures inv(Run(next, w, ls).value)
    ensures view(Run(next, w, ls).value) == view(w) + Outputs(next, out, w, ls)
    decreases |ls|
  {
    if ls != [] {
      var v := next(w, ls[0]).value;
      Adds(next, inv, safe, view, out, v, ls[1..]);
      assert view(w) + out(w, ls[0]) + Outputs(next, out, v, ls[1..])
          == view(w) + (out(w, ls[0]) + Outputs(next, out, v, ls[1..]));
    }
  }

  lemma {:induction false} AllAllowed<W(!new), L(!new)>(
      next: (W, L) -> Option<W>, safe: (W, L) -> bool, w: W, ls: seq<L>)
    requires forall w, l :: safe(w, l)
    ensures Allowed(next, safe, w, ls)
    decreases |ls|
  {
    if ls != [] && next(w, ls[0]).Some? {
      AllAllowed(next, safe, next(w, ls[0]).value, ls[1..]);
    }
  }

  /** Schedules compose. */
  lemma {:induction false} RunConcat<W, L>(next: (W, L) -> Option<W>, w: W, xs: seq<L>, ys: seq<L>)
    ensures Run(next, w, xs + ys)
         == match Run(next, w, xs) case None => None case Some(v) => Run(next, v, ys)
    decreases |xs|
  {
    if xs == [] {
      assert xs + ys == ys;
    } else {
      assert (xs + ys)[0] == xs[0] && (xs + ys)[1..] == xs[1..] + ys;
      if next(w, xs[0]).Some? {
        RunConcat(next, next(w, xs[0]).value, xs[1..], ys);
      }
    }
  }

  lemma RunOne<W, L>(next: (W, L) -> Option<W>, w: W, l: L, v: W)
    requires next(w, l) == Some(v)
    ensures Run(next, w, [l]) == Some(v)
  {
    assert [l][1..] == [];
  }

  lemma RunTwo<W, L>(next: (W, L) -> Option<W>, w: W, a: L, b: L)
    requires next(w, a).Some? && next(next(w, a).value, b).Some?
    ensures Run(next, w, [a, b]) == next(next(w, a).value, b)
  {
    assert [a, b][1..] == [b];
    RunOne(next, next(w, a).value, b, next(next(w, a).value, b).value);
  }

  lemma RunThree<W, L>(next: (W, L) -> Option<W>, w: W, a: L, b: L, c: L)
    requires next(w, a).Some? && next(next(w, a).value, b).Some?
    ensures Run(next, w, [a, b, c]) == next(next(next(w, a).value, b).value, c)
  {
    assert [a, b, c][1..] == [b, c] && [b, c][1..] == [c] && [c][1..] == [];
    var v := next(w, a).value;
    assert Run(next, v, [b, c]) == Run(next, next(v, b).value, [c]);
  }
}
