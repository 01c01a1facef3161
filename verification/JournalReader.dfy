/** The two loops that read a journal file, proved to compute the parsers of module Journal. */
module JournalReader {
  import opened Wrappers
  import opened EventLog
  import opened Octets
  import opened Journal
  import opened TailCursor

  /** The next line from `pos`, newline included; without one only at the end of the file. */
  method ReadBytes(b: Bytes, pos: nat) returns (line: Bytes, complete: bool)
    requires pos <= |b|
    ensures pos + |line| <= |b| && line == b[pos..pos + |line|]
    ensures complete ==> line != [] && line[|line| - 1] == NEWLINE && OneLine(line[..|line| - 1])
    ensures !complete ==> pos + |line| == |b| && OneLine(line)
  {
    var n := pos;
    while n < |b| && b[n] != NEWLINE
      invariant pos <= n <= |b|
      invariant NEWLINE !in b[pos..n]
    {
      n := n + 1;
    }
    complete := n < |b|;
    line := b[pos..if complete then n + 1 else n];
    if complete {
      assert line[..|line| - 1] == b[pos..n];
    }
  }

  /** One more whole line behind a prefix of whole lines. */
  lemma OneMoreLine<E>(c: Codec<E>, head: Bytes, line: Bytes)
    requires WholeLines(head) && !ScanLines(c, head).bad && OneLine(line)
    ensures WholeLines(head + (line + [NEWLINE]))
    ensures ScanLines(c, head + (line + [NEWLINE]))
         == match ParseLine(c, line)
            case Blank => ScanLines(c, head)
            case Good(r) => Scanned(ScanLines(c, head).recs + [r], false)
            case Bad => Scanned(ScanLines(c, head).recs, true)
  {
    var added := line + [NEWLINE];
    SplitFirst(line, []);
    assert line + [NEWLINE] + [] == added;
    assert Split(added) == Parts([line], []);
    SplitConcat(head, added);
    ScanResumes(c, head, added);
    assert ParseLines(c, [line][1..]) == Scanned([], false);
  }

  lemma NoMoreLines<E>(c: Codec<E>, head: Bytes, tail: Bytes)
    requires WholeLines(head) && !ScanLines(c, head).bad && OneLine(tail)
    ensures Split(head + tail) == Parts(Split(head).lines, tail)
    ensures ScanLines(c, head + tail) == ScanLines(c, head) && Consumed(head + tail) == head
  {
    SplitRest(tail);
    SplitConcat(head, tail);
    ScanResumes(c, head, tail);
    assert Split(head).lines + [] == Split(head).lines;
    assert head + [] == head;
  }

  /** A bad line ends the scan whatever is behind it. */
  lemma BadEnds<E>(c: Codec<E>, head: Bytes, tail: Bytes)
    requires WholeLines(head) && ScanLines(c, head).bad
    ensures ScanLines(c, head + tail) == ScanLines(c, head)
  {
    ScanResumes(c, head, tail);
  }

  /** `TrimSpace` and the newline: the line is parsed without it. */
  lemma TrimNewline(line: Bytes)
    ensures Trim(line + [NEWLINE]) == Trim(line)
  {
    TrimLeftNewline(line);
    var t := TrimLeft(line);
    assert (t + [NEWLINE])[..|t|] == t;
  }

  lemma {:induction false} TrimLeftNewline(line: Bytes)
    ensures TrimLeft(line + [NEWLINE]) == if TrimLeft(line) == [] then [] else TrimLeft(line) + [NEWLINE]
  {
    if line == [] {
      assert (line + [NEWLINE])[1..] == [];
    } else {
      assert (line + [NEWLINE])[1..] == line[1..] + [NEWLINE];
      TrimLeftNewline(line[1..]);
    }
  }

  /** The scan so far with the next line's content behind it. */
  function Extend<E>(s: Scanned<E>, p: Parsed<E>): Scanned<E> {
    match p
    case Blank => s
    case Good(r) => Scanned(s.recs + [r], s.bad)
    case Bad => Scanned(s.recs, true)
  }

  /** A whole line after what has been scanned. */
  lemma LineRead<E>(c: Codec<E>, head: Bytes, line: Bytes)
    requires WholeLines(head) && !ScanLines(c, head).bad
    requires line != [] && line[|line| - 1] == NEWLINE && OneLine(line[..|line| - 1])
    ensures WholeLines(head + line)
    ensures ScanLines(c, head + line) == Extend(ScanLines(c, head), ParseLine(c, line))
  {
    var bare := line[..|line| - 1];
    assert line == bare + [NEWLINE];
    OneMoreLine(c, head, bare);
    TrimNewline(bare);
  }

  lemma BadLine<E>(c: Codec<E>, b: Bytes, at: nat, upTo: nat)
    requires at <= upTo <= |b| && WholeLines(b[at..upTo]) && ScanLines(c, b[at..upTo]).bad
    ensures ScanLines(c, b[at..]) == ScanLines(c, b[at..upTo])
  {
    assert b[at..] == b[at..upTo] + b[upTo..];
    BadEnds(c, b[at..upTo], b[upTo..]);
  }

  /** One turn of either loop: read a line, trim it, decode it. */
  method NextLine<E>(c: Codec<E>, b: Bytes, at: nat, offset: nat) returns (line: Bytes, complete: bool, parsed: Parsed<E>)
    requires at <= offset <= |b| && WholeLines(b[at..offset]) && !ScanLines(c, b[at..offset]).bad
    ensures offset + |line| <= |b|
    ensures complete ==> line != [] && WholeLines(b[at..offset + |line|])
    ensures complete ==> ScanLines(c, b[at..offset + |line|]) == Extend(ScanLines(c, b[at..offset]), parsed)
    ensures complete && parsed.Bad? ==> ScanLines(c, b[at..]) == Scanned(ScanLines(c, b[at..offset]).recs, true)
    ensures !complete ==> ScanLines(c, b[at..]) == ScanLines(c, b[at..offset]) && Consumed(b[at..]) == b[at..offset]
    ensures !complete ==> parsed == ParseLine(c, Split(b[at..]).rest)
  {
    line, complete := ReadBytes(b, offset);
    parsed := ParseLine(c, line);
    if complete {
      LineRead(c, b[at..offset], line);
      assert b[at..offset + |line|] == b[at..offset] + line;
      if parsed.Bad? {
        BadLine(c, b, at, offset + |line|);
      }
    } else {
      assert b[at..] == b[at..offset] + line;
      NoMoreLines(c, b[at..offset], line);
    }
  }

  /** `scanFile`: stream one file from `start`. */
  method ScanFile<E(!new)>(c: Codec<E>, b: Bytes, start: nat, from: nat) returns (p: Pass<E>)
    ensures p.out == ReadFile(c, b, start, from).out && p.bad == ReadFile(c, b, start, from).bad
    ensures !p.bad ==> p == ReadFile(c, b, start, from)
  {
    var at := if |b| < start then 0 else start;
    var offset, lastSeq, out := at, 0, [];
    ghost var recs: seq<Record<E>> := [];
    assert b[at..offset] == [];
    while true
      invariant at <= offset <= |b|
      invariant WholeLines(b[at..offset]) && ScanLines(c, b[at..offset]) == Scanned(recs, false)
      invariant out == AtLeast(recs, from) && lastSeq == MaxSeq(recs)
      decreases |b| - offset
    {
      var line, complete, parsed := NextLine(c, b, at, offset);
      if !complete {
        return Pass(out, false, offset, lastSeq);
      }
      offset := offset + |line|;
      match parsed {
        case Blank =>
        case Bad => return Pass(out, true, offset, lastSeq);
        case Good(rec) =>
          AtLeastConcat(recs, [rec], from);
          MaxSeqConcat(recs, [rec]);
          recs := recs + [rec];
          if rec.seqNo > lastSeq {
            lastSeq := rec.seqNo;
          }
          if rec.seqNo >= from {
            out := out + [rec];
          }
      }
    }
  }

  /** `readRecordsFromFile`: all records of one file. */
  method ReadRecordsFromFile<E(!new)>(c: Codec<E>, b: Bytes) returns (r: Result<seq<Record<E>>, ()>)
    ensures r == ReadLines(c, b)
  {
    var offset, recs := 0, [];
    assert b[0..offset] == [];
    while true
      invariant offset <= |b|
      invariant WholeLines(b[0..offset]) && ScanLines(c, b[0..offset]) == Scanned(recs, false)
      decreases |b| - offset
    {
      var line, complete, parsed := NextLine(c, b, 0, offset);
      if !complete {
        assert b[0..] == b;
        return Ok(if parsed.Good? then recs + [parsed.rec] else recs);
      }
      offset := offset + |line|;
      match parsed {
        case Blank =>
        case Bad =>
          assert b[0..] == b;
          return Err(());
        case Good(rec) => recs := recs + [rec];
      }
    }
  }
}
