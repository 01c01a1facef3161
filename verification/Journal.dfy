/**
 The byte layer of one journal file: newline-terminated encoded records, the two
 parsers that read them back, and what both make of a file that was cut off.
 */
module Journal {
  import opened Wrappers
  import opened EventLog
  import opened Octets

  const NEWLINE: Byte := 10

  // ---- lines ----

  ghost predicate OneLine(b: Bytes) {
    NEWLINE !in b
  }

  ghost predicate AllLines(lines: seq<Bytes>) {
    forall line | line in lines :: OneLine(line)
  }

  function Join(lines: seq<Bytes>): Bytes {
    if lines == [] then [] else lines[0] + [NEWLINE] + Join(lines[1..])
  }

  /** A file taken apart: its whole lines, newlines stripped, and the bytes behind the last one. */
  datatype Parts = Parts(lines: seq<Bytes>, rest: Bytes)

  function Split(b: Bytes): Parts {
    if b == [] then Parts([], [])
    else if b[0] == NEWLINE then
      var p := Split(b[1..]);
      Parts([[]] + p.lines, p.rest)
    else
      var p := Split(b[1..]);
      if p.lines == [] then Parts([], [b[0]] + p.rest)
      else Parts([[b[0]] + p.lines[0]] + p.lines[1..], p.rest)
  }

  /** A byte in front of the first line, and an empty line in front of all. */
  lemma JoinPush(x: Byte, lines: seq<Bytes>)
    requires lines != []
    ensures Join([[x] + lines[0]] + lines[1..]) == [x] + Join(lines)
  {
    var rest := Join(lines[1..]);
    assert ([[x] + lines[0]] + lines[1..])[1..] == lines[1..];
    assert [x] + lines[0] + [NEWLINE] + rest == [x] + (lines[0] + [NEWLINE] + rest);
  }

  lemma JoinBlank(lines: seq<Bytes>)
    ensures Join([[]] + lines) == [NEWLINE] + Join(lines)
  {
    assert ([[]] + lines)[1..] == lines;
    assert [] + [NEWLINE] + Join(lines) == [NEWLINE] + Join(lines);
  }

  /** Taking a file apart loses nothing. */
  lemma {:induction false} SplitJoins(b: Bytes)
    ensures b == Join(Split(b).lines) + Split(b).rest
  {
    if b != [] {
      var p := Split(b[1..]);
      SplitJoins(b[1..]);
      assert b == [b[0]] + b[1..];
      if b[0] == NEWLINE {
        JoinBlank(p.lines);
      } else if p.lines != [] {
        JoinPush(b[0], p.lines);
      }
      Associate([b[0]], Join(p.lines), p.rest);
    }
  }

  lemma {:induction false} SplitShapes(b: Bytes)
    ensures AllLines(Split(b).lines) && OneLine(Split(b).rest)
  {
    if b != [] {
      var p := Split(b[1..]);
      SplitShapes(b[1..]);
      if b[0] != NEWLINE && p.lines != [] {
        assert OneLine(p.lines[0]) && forall line | line in p.lines[1..] :: line in p.lines;
      }
    }
  }

  lemma {:induction false} SplitRest(tail: Bytes)
    requires OneLine(tail)
    ensures Split(tail) == Parts([], tail)
  {
    if tail != [] {
      SplitRest(tail[1..]);
    }
  }

  lemma {:induction false} SplitFirst(line: Bytes, b: Bytes)
    requires OneLine(line)
    ensures Split(line + [NEWLINE] + b) == Parts([line] + Split(b).lines, Split(b).rest)
  {
    var all := line + [NEWLINE] + b;
    if line == [] {
      assert all[1..] == b;
    } else {
      SplitFirst(line[1..], b);
      assert all[1..] == line[1..] + [NEWLINE] + b;
      assert [all[0]] + line[1..] == line;
      assert ([line[1..]] + Split(b).lines)[1..] == Split(b).lines;
    }
  }

  /** Putting lines together and taking them apart again returns them. */
  lemma {:induction false} JoinSplits(lines: seq<Bytes>, tail: Bytes)
    requires AllLines(lines) && OneLine(tail)
    ensures Split(Join(lines) + tail) == Parts(lines, tail)
  {
    if lines == [] {
      SplitRest(tail);
      assert Join(lines) + tail == tail;
    } else {
      JoinSplits(lines[1..], tail);
      SplitFirst(lines[0], Join(lines[1..]) + tail);
      assert Join(lines) + tail == lines[0] + [NEWLINE] + (Join(lines[1..]) + tail);
      assert [lines[0]] + lines[1..] == lines;
    }
  }

  lemma {:induction false} JoinConcat(xs: seq<Bytes>, ys: seq<Bytes>)
    ensures Join(xs + ys) == Join(xs) + Join(ys)
  {
    if xs == [] {
      assert xs + ys == ys;
    } else {
      JoinConcat(xs[1..], ys);
      assert (xs + ys)[1..] == xs[1..] + ys;
      assert xs[0] + [NEWLINE] + (Join(xs[1..]) + Join(ys)) == xs[0] + [NEWLINE] + Join(xs[1..]) + Join(ys);
    }
  }

  /** Bytes that end on a newline: a sound place to resume from. */
  ghost predicate WholeLines(b: Bytes) {
    Split(b).rest == []
  }

  lemma SplitConcat(head: Bytes, tail: Bytes)
    requires WholeLines(head)
    ensures Split(head + tail) == Parts(Split(head).lines + Split(tail).lines, Split(tail).rest)
  {
    var h, t := Split(head).lines, Split(tail);
    SplitJoins(head);
    SplitJoins(tail);
    SplitShapes(head);
    SplitShapes(tail);
    JoinConcat(h, t.lines);
    assert head == Join(h);
    Associate(Join(h), Join(t.lines), t.rest);
    JoinSplits(h + t.lines, t.rest);
  }

  lemma Associate(x: Bytes, y: Bytes, z: Bytes)
    ensures x + (y + z) == x + y + z
  {
  }

  // ---- records ----

  predicate IsSpace(b: Byte) {
    b == 32 || 9 <= b <= 13
  }

  /** Lines end in a line feed; space, tab, line feed, vertical tab, form feed and carriage return are
      white space. */
  lemma AsciiSpace(b: Byte)
    ensures IsSpace(b) <==> b in {32, 9, 10, 11, 12, 13}
    ensures NEWLINE == 10
  {
  }

  function TrimLeft(b: Bytes): Bytes {
    if b != [] && IsSpace(b[0]) then TrimLeft(b[1..]) else b
  }

  function TrimRight(b: Bytes): (t: Bytes)
    ensures |t| <= |b| && t == b[..|t|]
  {
    if b != [] && IsSpace(b[|b| - 1]) then TrimRight(b[..|b| - 1]) else b
  }

  function Trim(b: Bytes): Bytes {
    TrimRight(TrimLeft(b))
  }

  /** A record codec; any one will do, as long as it is `Valid`. */
  datatype Codec<!E> = Codec(encode: Record<E> -> Bytes, decode: Bytes -> Option<Record<E>>)

  /** What a JSON object on one line gives: decoding inverts encoding, there is no newline
      inside and no surrounding space, and no proper prefix decodes. */
  ghost predicate GoodLine<E>(c: Codec<E>, r: Record<E>) {
    var line := c.encode(r);
    && line != [] && !IsSpace(line[0]) && !IsSpace(line[|line| - 1])
    && OneLine(line)
    && c.decode(line) == Some(r)
    && forall k {:trigger line[..k]} | 0 < k < |line| :: c.decode(line[..k]) == None
  }

  ghost predicate Valid<E(!new)>(c: Codec<E>) {
    forall r :: GoodLine(c, r)
  }

  /** A record, whole or cut short, does not decode once another record follows on its line. */
  ghost predicate SelfDelimiting<E(!new)>(c: Codec<E>) {
    forall r, s, k {:trigger c.encode(r)[..k], c.encode(s)} ::
      0 < k <= |c.encode(r)| ==> c.decode(c.encode(r)[..k] + c.encode(s)) == None
  }

  /** What one line holds: nothing, a record, or bytes that are not a record. */
  datatype Parsed<+E> = Blank | Good(rec: Record<E>) | Bad

  function ParseLine<E>(c: Codec<E>, line: Bytes): Parsed<E> {
    var t := Trim(line);
    if t == [] then Blank
    else
      match c.decode(t)
      case None => Bad
      case Some(r) => Good(r)
  }

  /** The records of a run of whole lines, up to the first line that is not one. */
  datatype Scanned<+E> = Scanned(recs: seq<Record<E>>, bad: bool)

  function Prepend<E>(recs: seq<Record<E>>, s: Scanned<E>): Scanned<E> {
    Scanned(recs + s.recs, s.bad)
  }

  function ParseLines<E>(c: Codec<E>, lines: seq<Bytes>): Scanned<E> {
    if lines == [] then Scanned([], false)
    else
      match ParseLine(c, lines[0])
      case Blank => ParseLines(c, lines[1..])
      case Good(r) => Prepend([r], ParseLines(c, lines[1..]))
      case Bad => Scanned([], true)
  }

  /** The streaming parser: a trailing line without its newline is left alone. */
  function ScanLines<E>(c: Codec<E>, b: Bytes): Scanned<E> {
    ParseLines(c, Split(b).lines)
  }

  /** The bytes the streaming parser counts as consumed. */
  function Consumed(b: Bytes): Bytes {
    Join(Split(b).lines)
  }

  /** The whole-file parser: a trailing line without its newline counts if it decodes. */
  function ReadLines<E>(c: Codec<E>, b: Bytes): Result<seq<Record<E>>, ()> {
    var s := ScanLines(c, b);
    if s.bad then Err(())
    else
      match ParseLine(c, Split(b).rest)
      case Blank => Ok(s.recs)
      case Good(r) => Ok(s.recs + [r])
      case Bad => Ok(s.recs)
  }

  function EncodedLines<E>(c: Codec<E>, recs: seq<Record<E>>): seq<Bytes> {
    seq(|recs|, i requires 0 <= i < |recs| => c.encode(recs[i]))
  }

  /** The bytes `Append` has written for `recs`. */
  function EncodeAll<E>(c: Codec<E>, recs: seq<Record<E>>): Bytes {
    Join(EncodedLines(c, recs))
  }

  lemma {:induction false} ParseConcat<E>(c: Codec<E>, xs: seq<Bytes>, ys: seq<Bytes>)
    ensures var s := ParseLines(c, xs);
            ParseLines(c, xs + ys) == if s.bad then s else Prepend(s.recs, ParseLines(c, ys))
  {
    if xs == [] {
      assert xs + ys == ys;
      assert [] + ParseLines(c, ys).recs == ParseLines(c, ys).recs;
    } else {
      ParseConcat(c, xs[1..], ys);
      assert (xs + ys)[1..] == xs[1..] + ys;
      match ParseLine(c, xs[0]) {
        case Good(r) =>
          assert [r] + (ParseLines(c, xs[1..]).recs + ParseLines(c, ys).recs)
              == [r] + ParseLines(c, xs[1..]).recs + ParseLines(c, ys).recs;
        case _ =>
      }
    }
  }

  lemma TrimEnds(line: Bytes)
    requires line != [] && !IsSpace(line[0]) && !IsSpace(line[|line| - 1])
    ensures Trim(line) == line
  {
  }

  lemma {:induction false} TrimRightKeepsFirst(b: Bytes)
    requires b != [] && !IsSpace(b[0])
    ensures TrimRight(b) != []
  {
    if IsSpace(b[|b| - 1]) {
      TrimRightKeepsFirst(b[..|b| - 1]);
    }
  }

  lemma ParseEncoded<E(!new)>(c: Codec<E>, r: Record<E>)
    requires Valid(c)
    ensures ParseLine(c, c.encode(r)) == Good(r) && OneLine(c.encode(r)) && c.encode(r) != []
  {
    assert GoodLine(c, r);
    TrimEnds(c.encode(r));
  }

  /** A line cut anywhere before its last byte is no record, trimmed or not. */
  lemma ParseCut<E(!new)>(c: Codec<E>, r: Record<E>, k: nat)
    requires Valid(c) && 0 < k < |c.encode(r)|
    ensures ParseLine(c, c.encode(r)[..k]) == Bad
  {
    assert GoodLine(c, r);
    var line := c.encode(r);
    TrimRightKeepsFirst(line[..k]);
    var t := TrimRight(line[..k]);
    assert t == line[..|t|];
  }

  lemma {:induction false} ParseEncodedLines<E(!new)>(c: Codec<E>, recs: seq<Record<E>>)
    requires Valid(c)
    ensures ParseLines(c, EncodedLines(c, recs)) == Scanned(recs, false)
    ensures AllLines(EncodedLines(c, recs))
  {
    forall i | 0 <= i < |recs|
      ensures OneLine(c.encode(recs[i]))
    {
      ParseEncoded(c, recs[i]);
    }
    if recs != [] {
      ParseEncoded(c, recs[0]);
      ParseEncodedLines(c, recs[1..]);
      assert EncodedLines(c, recs)[1..] == EncodedLines(c, recs[1..]);
      assert [recs[0]] + recs[1..] == recs;
    }
  }

  lemma EncodeAllConcat<E>(c: Codec<E>, xs: seq<Record<E>>, ys: seq<Record<E>>)
    ensures EncodeAll(c, xs + ys) == EncodeAll(c, xs) + EncodeAll(c, ys)
  {
    assert EncodedLines(c, xs + ys) == EncodedLines(c, xs) + EncodedLines(c, ys);
    JoinConcat(EncodedLines(c, xs), EncodedLines(c, ys));
  }

  /** Reading back what was written, with a partial line behind it. */
  lemma ScanEncoded<E(!new)>(c: Codec<E>, recs: seq<Record<E>>, tail: Bytes)
    requires Valid(c) && OneLine(tail)
    ensures Split(EncodeAll(c, recs) + tail) == Parts(EncodedLines(c, recs), tail)
    ensures ScanLines(c, EncodeAll(c, recs) + tail) == Scanned(recs, false)
  {
    ParseEncodedLines(c, recs);
    JoinSplits(EncodedLines(c, recs), tail);
  }

  lemma RoundTrip<E(!new)>(c: Codec<E>, recs: seq<Record<E>>)
    requires Valid(c)
    ensures ScanLines(c, EncodeAll(c, recs)) == Scanned(recs, false)
    ensures ReadLines(c, EncodeAll(c, recs)) == Ok(recs)
    ensures WholeLines(EncodeAll(c, recs))
  {
    ScanEncoded(c, recs, []);
    assert EncodeAll(c, recs) + [] == EncodeAll(c, recs);
  }

  /** Resuming: once a prefix of whole lines has been scanned, the rest of the file can be
      scanned on its own, whatever the bytes are. */
  lemma ScanResumes<E>(c: Codec<E>, head: Bytes, tail: Bytes)
    requires WholeLines(head)
    ensures var s := ScanLines(c, head);
            ScanLines(c, head + tail) == if s.bad then s else Prepend(s.recs, ScanLines(c, tail))
    ensures Consumed(head + tail) == head + Consumed(tail)
  {
    SplitConcat(head, tail);
    ParseConcat(c, Split(head).lines, Split(tail).lines);
    ConsumedResumes(head, tail);
  }

  lemma ConsumedResumes(head: Bytes, tail: Bytes)
    requires WholeLines(head)
    ensures Consumed(head + tail) == head + Consumed(tail)
  {
    SplitConcat(head, tail);
    SplitJoins(head);
    assert Join(Split(head).lines) + [] == Join(Split(head).lines);
    JoinConcat(Split(head).lines, Split(tail).lines);
  }

  /** What a scan consumes is a prefix of whole lines holding exactly the scanned records. */
  lemma ConsumedIsWhole<E>(c: Codec<E>, b: Bytes)
    ensures WholeLines(Consumed(b)) && |Consumed(b)| <= |b| && b[..|Consumed(b)|] == Consumed(b)
    ensures ScanLines(c, Consumed(b)) == ScanLines(c, b)
  {
    SplitJoins(b);
    SplitShapes(b);
    JoinSplits(Split(b).lines, []);
    assert Consumed(b) + [] == Consumed(b);
  }

  // ---- files cut at any byte ----

  /** How many records kept their newline in the first `k` bytes. */
  function Survivors<E>(c: Codec<E>, recs: seq<Record<E>>, k: nat): (m: nat)
    ensures m <= |recs|
  {
    if recs == [] || k <= |c.encode(recs[0])| then 0
    else 1 + Survivors(c, recs[1..], k - |c.encode(recs[0])| - 1)
  }

  /** How many bytes of the next record the cut left behind. */
  function TornBytes<E>(c: Codec<E>, recs: seq<Record<E>>, k: nat): nat {
    if recs == [] || k <= |c.encode(recs[0])| then k
    else TornBytes(c, recs[1..], k - |c.encode(recs[0])| - 1)
  }

  /** The torn last line of a file cut at `k`. */
  function Torn<E>(c: Codec<E>, recs: seq<Record<E>>, k: nat): Bytes {
    var m := Survivors(c, recs, k);
    if m < |recs| then Take(c.encode(recs[m]), TornBytes(c, recs, k)) else []
  }

  /** The shape of a cut file: whole lines, then part of one more. */
  lemma {:induction false} CutShape<E>(c: Codec<E>, recs: seq<Record<E>>, k: nat)
    requires k <= |EncodeAll(c, recs)|
    ensures var m, p := Survivors(c, recs, k), TornBytes(c, recs, k);
            && (m == |recs| ==> p == 0)
            && (m < |recs| ==> p <= |c.encode(recs[m])|)
            && EncodeAll(c, recs)[..k] == EncodeAll(c, recs[..m]) + Torn(c, recs, k)
  {
    if recs != [] {
      var line := c.encode(recs[0]);
      var tail := EncodeAll(c, recs[1..]);
      assert EncodedLines(c, recs)[1..] == EncodedLines(c, recs[1..]);
      assert EncodeAll(c, recs) == line + [NEWLINE] + tail;
      if k <= |line| {
        assert EncodeAll(c, recs)[..k] == line[..k];
      } else {
        var n := k - |line| - 1;
        CutShape(c, recs[1..], n);
        CutShapeStep(c, recs, k);
        assert EncodeAll(c, recs)[..k] == line + [NEWLINE] + tail[..n];
      }
    }
  }

  lemma CutShapeStep<E>(c: Codec<E>, recs: seq<Record<E>>, k: nat)
    requires recs != [] && k > |c.encode(recs[0])|
    ensures var n, line := k - |c.encode(recs[0])| - 1, c.encode(recs[0]);
            && Torn(c, recs, k) == Torn(c, recs[1..], n)
            && EncodeAll(c, recs[..Survivors(c, recs, k)])
            == line + [NEWLINE] + EncodeAll(c, recs[1..][..Survivors(c, recs[1..], n)])
  {
    var m := Survivors(c, recs[1..], k - |c.encode(recs[0])| - 1);
    var kept := recs[..m + 1];
    assert EncodedLines(c, kept)[1..] == EncodedLines(c, recs[1..][..m]);
  }

  /** Streaming a cut file yields exactly the records whose newline survived; reading it whole
      yields those, or one more exactly when only that record's newline was lost. */
  lemma CutJournal<E(!new)>(c: Codec<E>, recs: seq<Record<E>>, k: nat)
    requires Valid(c) && k <= |EncodeAll(c, recs)|
    ensures var cut, m := EncodeAll(c, recs)[..k], Survivors(c, recs, k);
            && ScanLines(c, cut) == Scanned(recs[..m], false)
            && (m < |recs| && TornBytes(c, recs, k) == |c.encode(recs[m])| ==> ReadLines(c, cut) == Ok(recs[..m + 1]))
            && (m == |recs| || TornBytes(c, recs, k) < |c.encode(recs[m])| ==> ReadLines(c, cut) == Ok(recs[..m]))
  {
    var m := Survivors(c, recs, k);
    CutShape(c, recs, k);
    TornLine(c, recs, k);
    ScanEncoded(c, recs[..m], Torn(c, recs, k));
    if m < |recs| {
      ParseEncoded(c, recs[m]);
      assert recs[..m] + [recs[m]] == recs[..m + 1];
    }
  }

  lemma TornLine<E(!new)>(c: Codec<E>, recs: seq<Record<E>>, k: nat)
    requires Valid(c)
    ensures OneLine(Torn(c, recs, k))
    ensures var m, p := Survivors(c, recs, k), TornBytes(c, recs, k);
            ParseLine(c, Torn(c, recs, k)) == if m == |recs| || p == 0 then Blank
                                              else if p < |c.encode(recs[m])| then Bad
                                              else Good(recs[m])
  {
    var m, p := Survivors(c, recs, k), TornBytes(c, recs, k);
    if m < |recs| {
      ParseEncoded(c, recs[m]);
      var line := c.encode(recs[m]);
      assert forall x | x in Take(line, p) :: x in line;
      if 0 < p < |line| {
        ParseCut(c, recs[m], p);
      }
    }
  }

  /** The tolerance ends with the next write: after more records are appended to a cut file,
      it reads back if and only if the cut was on a record boundary. */
  lemma AppendAfterCut<E(!new)>(c: Codec<E>, recs: seq<Record<E>>, k: nat, more: seq<Record<E>>)
    requires Valid(c) && SelfDelimiting(c) && k <= |EncodeAll(c, recs)| && more != []
    ensures var b, m := EncodeAll(c, recs)[..k] + EncodeAll(c, more), Survivors(c, recs, k);
            && ScanLines(c, b).bad == ReadLines(c, b).Err? == (TornBytes(c, recs, k) != 0)
            && (TornBytes(c, recs, k) == 0 ==> ReadLines(c, b) == Ok(recs[..m] + more))
  {
    var m, torn := Survivors(c, recs, k), Torn(c, recs, k);
    var whole, added := EncodeAll(c, recs[..m]), EncodeAll(c, more);
    CutShape(c, recs, k);
    RoundTrip(c, recs[..m]);
    ScanResumes(c, whole, torn + added);
    Associate(whole, torn, added);
    SplitConcat(whole, torn + added);
    if TornBytes(c, recs, k) == 0 {
      assert torn + added == added;
      RoundTrip(c, more);
    } else {
      GluedFirst(c, recs[m], TornBytes(c, recs, k), more);
    }
  }

  lemma GluedFirst<E(!new)>(c: Codec<E>, r: Record<E>, p: nat, more: seq<Record<E>>)
    requires Valid(c) && SelfDelimiting(c) && 0 < p <= |c.encode(r)| && more != []
    ensures ScanLines(c, Take(c.encode(r), p) + EncodeAll(c, more)) == Scanned([], true)
  {
    assert GoodLine(c, r) && GoodLine(c, more[0]);
    var cut := c.encode(r)[..p];
    assert Take(c.encode(r), p) == cut;
    var glued := cut + c.encode(more[0]);
    assert forall x | x in cut :: x in c.encode(r);
    TrimEnds(glued);
    var rest := Join(EncodedLines(c, more)[1..]);
    assert cut + EncodeAll(c, more) == glued + [NEWLINE] + rest;
    SplitFirst(glued, rest);
  }
}
