/** The abstract event log: what a store holds once files, bytes and caches are forgotten. */
module EventLog {

  /** One stored event with the sequence number `Append` gave it. */
  datatype Record<+E> = Record(seqNo: nat, event: E)

  /** Sequences are exactly 1, 2, ..., each once and in order. */
  ghost predicate Numbered<E>(log: seq<Record<E>>) {
    NumberedAfter(log, 0)
  }

  /** Sequences are exactly base + 1, base + 2, ... */
  ghost predicate NumberedAfter<E>(log: seq<Record<E>>, base: nat) {
    forall i {:trigger log[i]} | 0 <= i < |log| :: log[i].seqNo == base + i + 1
  }

  /** The records a reader asking for `from` is owed. */
  function AtLeast<E>(log: seq<Record<E>>, from: nat): seq<Record<E>> {
    if log == [] then []
    else (if log[0].seqNo >= from then [log[0]] else []) + AtLeast(log[1..], from)
  }

  function Take<T>(s: seq<T>, n: nat): seq<T> {
    if |s| <= n then s else s[..n]
  }

  /** The page a store returns when nothing is cached. */
  function Page<E>(log: seq<Record<E>>, from: nat, limit: nat): seq<Record<E>> {
    Take(AtLeast(log, from), limit)
  }

  /** The highest sequence in a log, 0 when it is empty. */
  function MaxSeq<E>(log: seq<Record<E>>): nat {
    if log == [] then 0
    else
      var rest := MaxSeq(log[1..]);
      if log[0].seqNo > rest then log[0].seqNo else rest
  }

  /** Give `events` the sequences after `base`. */
  function Stamp<E>(events: seq<E>, base: nat): (log: seq<Record<E>>)
    ensures |log| == |events|
    ensures NumberedAfter(log, base)
    ensures forall i {:trigger log[i]} | 0 <= i < |log| :: log[i].event == events[i]
  {
    seq(|events|, i requires 0 <= i < |events| => Record(base + i + 1, events[i]))
  }

  lemma {:induction false} AtLeastConcat<E>(a: seq<Record<E>>, b: seq<Record<E>>, from: nat)
    ensures AtLeast(a + b, from) == AtLeast(a, from) + AtLeast(b, from)
  {
    if a == [] {
      assert a + b == b;
    } else {
      var head := if a[0].seqNo >= from then [a[0]] else [];
      var x, y := AtLeast(a[1..], from), AtLeast(b, from);
      assert (a + b)[0] == a[0] && (a + b)[1..] == a[1..] + b;
      AtLeastConcat(a[1..], b, from);
      assert head + (x + y) == head + x + y;
    }
  }

  lemma {:induction false} MaxSeqConcat<E>(a: seq<Record<E>>, b: seq<Record<E>>)
    ensures MaxSeq(a + b) == if MaxSeq(a) >= MaxSeq(b) then MaxSeq(a) else MaxSeq(b)
  {
    if a == [] {
      assert a + b == b;
    } else {
      assert (a + b)[1..] == a[1..] + b;
      MaxSeqConcat(a[1..], b);
    }
  }

  lemma {:induction false} MaxSeqBounds<E>(log: seq<Record<E>>)
    ensures forall r | r in log :: r.seqNo <= MaxSeq(log)
  {
    if log != [] {
      MaxSeqBounds(log[1..]);
      forall r | r in log
        ensures r.seqNo <= MaxSeq(log)
      {
        if r != log[0] {
          assert r in log[1..];
        }
      }
    }
  }

  /** A reader whose cursor is past every record is owed nothing. */
  lemma {:induction false} AtLeastNone<E>(log: seq<Record<E>>, from: nat)
    requires MaxSeq(log) < from
    ensures AtLeast(log, from) == []
  {
    if log != [] {
      AtLeastNone(log[1..], from);
    }
  }

  /** On a numbered log the records owed are a suffix. */
  lemma {:induction false} AtLeastNumbered<E>(log: seq<Record<E>>, base: nat, from: nat)
    requires NumberedAfter(log, base)
    ensures from <= base + 1 ==> AtLeast(log, from) == log
    ensures base + 1 <= from <= base + 1 + |log| ==> AtLeast(log, from) == log[from - base - 1..]
    ensures from > base + |log| ==> AtLeast(log, from) == []
  {
    if log != [] {
      assert log[0].seqNo == base + 1;
      assert NumberedAfter(log[1..], base + 1) by {
        forall i {:trigger log[1..][i]} | 0 <= i < |log[1..]|
          ensures log[1..][i].seqNo == base + 1 + i + 1
        {
          assert log[1..][i] == log[i + 1];
        }
      }
      AtLeastNumbered(log[1..], base + 1, from);
      if base + 1 < from <= base + 1 + |log| {
        assert log[1..][from - base - 2..] == log[from - base - 1..];
      }
    }
  }

  lemma {:induction false} MaxSeqNumbered<E>(log: seq<Record<E>>, base: nat)
    requires NumberedAfter(log, base)
    ensures MaxSeq(log) == if log == [] then 0 else base + |log|
  {
    if log != [] {
      assert log[0].seqNo == base + 1;
      forall i {:trigger log[1..][i]} | 0 <= i < |log[1..]|
        ensures log[1..][i].seqNo == base + 1 + i + 1
      {
        assert log[1..][i] == log[i + 1];
      }
      MaxSeqNumbered(log[1..], base + 1);
    }
  }
}
