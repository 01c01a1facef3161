/** The handshake's choice of a first sequence, and clients that reconnect. */
module Resume {
  import opened EventLog

  const MAX_INT64 := 0x7FFF_FFFF_FFFF_FFFF
  const TWO_TO_THE_64 := 0x1_0000_0000_0000_0000
  const REALTIME_ONLY := TWO_TO_THE_64 - 1

  datatype Mode = Backfill | Realtime | Resume

  /** The integer a client sent, read as a 64-bit signed number: out-of-range values stick at the ends. */
  function ReadInt64(sent: int): int {
    if sent > MAX_INT64 then MAX_INT64 else if sent < -MAX_INT64 - 1 then -MAX_INT64 - 1 else sent
  }

  function AsUint64(v: int): nat
    requires -MAX_INT64 - 1 <= v <= MAX_INT64
  {
    if v < 0 then v + TWO_TO_THE_64 else v
  }

  function Choose(sent: int, latest: nat): (Mode, nat) {
    var fv := ReadInt64(sent);
    if fv == 0 then (Backfill, 1)
    else if fv == -1 || AsUint64(fv) == REALTIME_ONLY then (Realtime, latest + 1)
    else if AsUint64(fv) >= latest then (Resume, latest + 1)
    else (Resume, AsUint64(fv) + 1)
  }

  /** The first sequence chosen is the one after the client's last exactly when the store's
      latest sequence, as the handle knows it, is not behind the client; otherwise records the
      client already has are sent again. */
  lemma ResumesExactlyIffFresh(last: nat, latest: nat)
    requires last <= MAX_INT64
    ensures Choose(last, latest).1 == last + 1 <==> last <= latest || last == 0
    ensures !(last <= latest) ==> Choose(last, latest).1 <= last
  {
  }

  /** The documented real-time constant does not fit the signed number the handshake reads: it is
      served from the right place, but as a resume. Only -1 is recognised as real-time. */
  lemma RealtimeConstantIsResume(sent: int, latest: nat)
    requires latest <= MAX_INT64
    ensures Choose(REALTIME_ONLY, latest) == (Resume, latest + 1)
    ensures Choose(sent, latest).0 == Realtime <==> sent == -1
  {
  }

  /** What a session then sends of a store whose latest sequence the handshake knows: all of it to a
      client that asks for 0, what follows the client's last to one that is behind, and only what is
      appended from then on to every other, -1 included. */
  lemma HandshakeSends<E>(sent: int, latest: nat, log: seq<Record<E>>)
    requires Numbered(log) && latest <= |log| <= MAX_INT64
    ensures AtLeast(log, Choose(sent, latest).1)
         == if sent == 0 then log else if 0 < sent < latest then log[sent..] else log[latest..]
    ensures Choose(sent, latest).0 == Backfill <==> sent == 0
  {
    FirstChosen(sent, latest);
    Suffix(log, Choose(sent, latest).1);
  }

  lemma FirstChosen(sent: int, latest: nat)
    requires latest <= MAX_INT64
    ensures Choose(sent, latest).1 == 1 + if sent == 0 then 0 else if 0 < sent < latest then sent else latest
    ensures Choose(sent, latest).0 == Backfill <==> sent == 0
  {
  }

  lemma Suffix<E>(log: seq<Record<E>>, from: nat)
    requires Numbered(log) && 1 <= from <= |log| + 1
    ensures AtLeast(log, from) == log[from - 1..] && log[0..] == log
  {
    AtLeastNumbered(log, 0, from);
  }

  /** One connection: the store when it ended, the latest sequence its handshake saw, and how many
      records the client had received when it broke. */
  datatype Visit<+E> = Visit(log: seq<Record<E>>, latest: nat, count: nat)

  /** What the client receives on a visit it begins with `last`. */
  function Received<E>(v: Visit<E>, last: nat): seq<Record<E>> {
    Take(AtLeast(v.log, Choose(last, v.latest).1), v.count)
  }

  /** The sequence of the last record received so far; 0, which asks for a backfill, before any. */
  function LastOf<E>(last: nat, got: seq<Record<E>>): nat {
    if got == [] then last else got[|got| - 1].seqNo
  }

  function Joined<E>(visits: seq<Visit<E>>, last: nat): seq<Record<E>> {
    if visits == [] then []
    else
      var got := Received(visits[0], last);
      got + Joined(visits[1..], LastOf(last, got))
  }

  /** The store only grows: each visit saw a first part of what is there in the end, and its
      handshake no more than the visit did. */
  ghost predicate Saw<E>(visits: seq<Visit<E>>, log: seq<Record<E>>) {
    && Numbered(log) && |log| <= MAX_INT64
    && forall v | v in visits :: v.log <= log && v.latest <= |v.log|
  }

  /** The handshake knows of less than the client has. */
  predicate Stale<E>(v: Visit<E>, last: nat) {
    last > v.latest && last != 0
  }

  /** Some visit with a stale handshake delivered something. */
  predicate Repeats<E>(visits: seq<Visit<E>>, last: nat) {
    visits != [] &&
      var got := Received(visits[0], last);
      (Stale(visits[0], last) && got != []) || Repeats(visits[1..], LastOf(last, got))
  }

  /** `got` is the stretch of the log that follows its first `last` records. */
  ghost predicate Follows<T>(log: seq<T>, last: nat, got: seq<T>) {
    last + |got| <= |log| && forall i | 0 <= i < |got| :: got[i] == log[last + i]
  }

  /** A record of the log at most one past the sequence before it. */
  ghost predicate Near<E>(log: seq<Record<E>>, before: nat, r: Record<E>) {
    1 <= r.seqNo <= |log| && r == log[r.seqNo - 1] && r.seqNo <= before + 1
  }

  /** Records of the log, none further than one past the one before it. */
  ghost predicate Gapless<E>(log: seq<Record<E>>, last: nat, got: seq<Record<E>>) {
    forall i {:trigger got[i]} | 0 <= i < |got| :: Near(log, if i == 0 then last else got[i - 1].seqNo, got[i])
  }

  lemma {:induction false} PrefixNumbered<E>(small: seq<Record<E>>, log: seq<Record<E>>)
    requires Numbered(log) && small <= log
    ensures Numbered(small)
  {
    forall i {:trigger small[i]} | 0 <= i < |small|
      ensures small[i].seqNo == i + 1
    {
      assert small[i] == log[i];
    }
  }

  lemma TailFollows<T>(small: seq<T>, log: seq<T>, base: nat, count: nat)
    requires small <= log && base <= |small|
    ensures Follows(log, base, Take(small[base..], count))
  {
    var got := Take(small[base..], count);
    forall i | 0 <= i < |got|
      ensures got[i] == log[base + i]
    {
      assert got[i] == small[base..][i] == small[base + i];
    }
  }

  /** Any number of records from `base` on are the next stretch of the log. */
  lemma TakeFollows<E>(small: seq<Record<E>>, log: seq<Record<E>>, base: nat, count: nat)
    requires Numbered(log) && small <= log && base <= |small|
    ensures Follows(log, base, Take(AtLeast(small, base + 1), count))
  {
    PrefixNumbered(small, log);
    AtLeastNumbered(small, 0, base + 1);
    TailFollows(small, log, base, count);
  }

  lemma FollowsLast<E>(log: seq<Record<E>>, base: nat, last: nat, got: seq<Record<E>>)
    requires Numbered(log) && Follows(log, base, got)
    ensures LastOf(last, got) == if got == [] then last else base + |got|
  {
    if got != [] {
      assert got[|got| - 1] == log[base + |got| - 1];
    }
  }

  /** Where a visit starts, and that it delivers the log from there. */
  lemma ReceivedIs<E>(v: Visit<E>, last: nat, log: seq<Record<E>>)
    requires Numbered(log) && last <= |log| <= MAX_INT64 && v.log <= log && v.latest <= |v.log|
    ensures var got, from := Received(v, last), Choose(last, v.latest).1;
            && from == (if Stale(v, last) then v.latest else last) + 1
            && Follows(log, from - 1, got)
            && LastOf(last, got) == (if got == [] then last else from - 1 + |got|) <= |log|
  {
    var base := if Stale(v, last) then v.latest else last;
    assert Choose(last, v.latest).1 == base + 1;
    TakeFollows(v.log, log, base, v.count);
    FollowsLast(log, base, last, Received(v, last));
  }

  lemma FollowsGapless<E>(log: seq<Record<E>>, base: nat, last: nat, got: seq<Record<E>>)
    requires Numbered(log) && base <= last && Follows(log, base, got)
    ensures Gapless(log, last, got)
  {
    assert forall i | 0 <= i < |got| :: got[i] == log[base + i] && log[base + i].seqNo == base + i + 1;
  }

  lemma GaplessConcat<E>(log: seq<Record<E>>, last: nat, got: seq<Record<E>>, rest: seq<Record<E>>)
    requires Gapless(log, last, got) && Gapless(log, LastOf(last, got), rest)
    ensures Gapless(log, last, got + rest)
  {
    var all := got + rest;
    forall i {:trigger all[i]} | 0 <= i < |all|
      ensures Near(log, if i == 0 then last else all[i - 1].seqNo, all[i])
    {
      if i < |got| {
        assert all[i] == got[i] && (i > 0 ==> all[i - 1] == got[i - 1]);
      } else {
        var k := i - |got|;
        assert all[i] == rest[k] && (k > 0 ==> all[i - 1] == rest[k - 1]);
        assert k == 0 && i > 0 ==> all[i - 1] == got[|got| - 1];
      }
    }
  }

  lemma {:induction false} JoinedGapless<E>(visits: seq<Visit<E>>, last: nat, log: seq<Record<E>>)
    requires Saw(visits, log) && last <= |log|
    ensures Gapless(log, last, Joined(visits, last))
    decreases |visits|
  {
    if visits != [] {
      var v, got := visits[0], Received(visits[0], last);
      assert v in visits;
      ReceivedIs(v, last, log);
      FollowsGapless(log, Choose(last, v.latest).1 - 1, last, got);
      JoinedGapless(visits[1..], LastOf(last, got), log);
      GaplessConcat(log, last, got, Joined(visits[1..], LastOf(last, got)));
    }
  }

  lemma Glue<T>(log: seq<T>, last: nat, got: seq<T>, rest: seq<T>)
    requires Follows(log, last, got)
    ensures Follows(log, last, got + rest) <==> Follows(log, last + |got|, rest)
  {
    var all := got + rest;
    if Follows(log, last, all) {
      forall i | 0 <= i < |rest|
        ensures rest[i] == log[last + |got| + i]
      {
        assert all[|got| + i] == rest[i];
      }
    }
  }

  /** What a stale handshake sends first, the client has. */
  lemma StaleRepeats<E>(v: Visit<E>, last: nat, log: seq<Record<E>>, rest: seq<Record<E>>)
    requires Numbered(log) && last <= |log| <= MAX_INT64 && v.log <= log && v.latest <= |v.log|
    requires Stale(v, last) && Received(v, last) != []
    ensures !Follows(log, last, Received(v, last) + rest)
  {
    var got := Received(v, last);
    ReceivedIs(v, last, log);
    assert got[0] == log[v.latest] && (got + rest)[0] == got[0];
  }

  lemma {:induction false} JoinedFollowsIff<E>(visits: seq<Visit<E>>, last: nat, log: seq<Record<E>>)
    requires Saw(visits, log) && last <= |log|
    ensures Follows(log, last, Joined(visits, last)) <==> !Repeats(visits, last)
    decreases |visits|
  {
    if visits != [] {
      var v, got := visits[0], Received(visits[0], last);
      var next := LastOf(last, got);
      assert v in visits;
      ReceivedIs(v, last, log);
      JoinedFollowsIff(visits[1..], next, log);
      if Stale(v, last) && got != [] {
        StaleRepeats(v, last, log, Joined(visits[1..], next));
      } else {
        assert Follows(log, last, got) && next == last + |got|;
        Glue(log, last, got, Joined(visits[1..], next));
      }
    }
  }

  /** Up to any record received, all have been. */
  lemma {:induction false} GaplessCovers<E>(log: seq<Record<E>>, got: seq<Record<E>>, i: nat, n: nat) returns (k: nat)
    requires Numbered(log) && Gapless(log, 0, got) && i < |got| && 1 <= n <= got[i].seqNo
    ensures k <= i && got[i].seqNo <= |log| && got[k] == log[n - 1]
    decreases i
  {
    k := i;
    if n < got[i].seqNo {
      assert i > 0 && got[i].seqNo <= got[i - 1].seqNo + 1;
      k := GaplessCovers(log, got, i - 1, n);
    }
  }

  lemma AllUpTo<E>(log: seq<Record<E>>, got: seq<Record<E>>, i: nat)
    requires Numbered(log) && Gapless(log, 0, got) && i < |got|
    ensures got[i].seqNo <= |log| && forall n | 0 <= n < got[i].seqNo :: log[n] in got
  {
    assert Near(log, if i == 0 then 0 else got[i - 1].seqNo, got[i]);
    forall n | 0 <= n < got[i].seqNo
      ensures log[n] in got
    {
      var k := GaplessCovers(log, got, i, n + 1);
    }
  }

  /** A client that backfills and then reconnects with its last sequence, any number of times, never
      misses a record: of all up to any it has received it has received every one. And what it
      received is, joined, the first records of the store, each once and in order, if and only if no
      handshake that knew of less than the client had delivered anything. */
  lemma ReconnectsWithoutGap<E>(visits: seq<Visit<E>>, log: seq<Record<E>>)
    requires Saw(visits, log)
    ensures var got := Joined(visits, 0);
            && Gapless(log, 0, got)
            && (forall i, n {:trigger got[i], log[n]} | 0 <= i < |got| && 0 <= n < got[i].seqNo :: log[n] in got)
            && (got <= log <==> !Repeats(visits, 0))
  {
    var got := Joined(visits, 0);
    JoinedGapless(visits, 0, log);
    JoinedFollowsIff(visits, 0, log);
    forall i | 0 <= i < |got|
      ensures forall n | 0 <= n < got[i].seqNo :: log[n] in got
    {
      AllUpTo(log, got, i);
    }
  }
}
