/**
 Streaming the journal that is still growing. A scan may resume from a cached byte offset;
 appends and any number of other scans go on around it.
 */
module TailCursor {
  import opened Wrappers
  import opened EventLog
  import opened Octets
  import opened Journal
  import opened Runs

  type Id = nat

  /** Bytes already streamed, and the highest sequence seen in them. */
  datatype Cursor = Cursor(offset: nat, lastSeq: nat)

  function StartOffset(cursor: Option<Cursor>, from: nat): nat {
    if cursor.Some? && from > cursor.value.lastSeq then cursor.value.offset else 0
  }

  /** What one pass over the file from `start` delivers and remembers. */
  datatype Pass<+E> = Pass(out: seq<Record<E>>, bad: bool, offset: nat, lastSeq: nat)

  function ReadFile<E>(c: Codec<E>, b: Bytes, start: nat, from: nat): Pass<E> {
    var at := if |b| < start then 0 else start;
    var s := ScanLines(c, b[at..]);
    Pass(AtLeast(s.recs, from), s.bad, at + |Consumed(b[at..])|, MaxSeq(s.recs))
  }

  function Advance(cursor: Option<Cursor>, offset: nat, lastSeq: nat): Option<Cursor> {
    if cursor.Some? && offset <= cursor.value.offset then cursor
    else if cursor.Some? && cursor.value.lastSeq > lastSeq then Some(Cursor(offset, cursor.value.lastSeq))
    else Some(Cursor(offset, lastSeq))
  }

  // ---- interleavings ----

  datatype Scan<+E> =
    | Started(from: nat, start: nat)              // cursor consulted, file not yet read
    | Read(start: nat, pass: Pass<E>)             // read to its end, cursor not yet updated

  datatype File<!E> = File(c: Codec<E>, bytes: Bytes, cursor: Option<Cursor>, scans: map<Id, Scan<E>>)

  datatype Label =
    | Grow(more: Bytes)                           // any bytes, cut anywhere
    | Begin(id: Id, from: nat) | ReadAll(id: Id) | Finish(id: Id) | Abort(id: Id)

  function Next<E>(w: File<E>, l: Label): Option<File<E>> {
    match l
    case Grow(more) => Some(w.(bytes := w.bytes + more))
    case Begin(id, from) =>
      if id in w.scans then None
      else Some(w.(scans := w.scans[id := Started(from, StartOffset(w.cursor, from))]))
    case ReadAll(id) =>
      if id !in w.scans || !w.scans[id].Started? then None
      else
        var s := w.scans[id];
        Some(w.(scans := w.scans[id := Scan.Read(s.start, ReadFile(w.c, w.bytes, s.start, s.from))]))
    case Finish(id) =>
      if id !in w.scans || !w.scans[id].Read? then None
      else
        var p := w.scans[id].pass;
        Some(w.(scans := w.scans - {id}, cursor := if p.bad then w.cursor else Advance(w.cursor, p.offset, p.lastSeq)))
    case Abort(id) => Some(w.(scans := w.scans - {id}))
  }

  /** The first `n` bytes are whole lines, and every one of them is blank or a record. */
  ghost predicate Sound<E>(c: Codec<E>, b: Bytes, n: nat) {
    n <= |b| && WholeLines(b[..n]) && !ScanLines(c, b[..n]).bad
  }

  function MaxIn<E>(c: Codec<E>, b: Bytes): nat {
    MaxSeq(ScanLines(c, b).recs)
  }

  ghost predicate CursorOk<E>(c: Codec<E>, b: Bytes, cursor: Option<Cursor>) {
    cursor.Some? ==> Sound(c, b, cursor.value.offset) && cursor.value.lastSeq == MaxIn(c, b[..cursor.value.offset])
  }

  ghost predicate StartOk<E>(w: File<E>, start: nat) {
    && Sound(w.c, w.bytes, start)
    && (start > 0 ==> w.cursor.Some? && start <= w.cursor.value.offset)
  }

  ghost predicate ScanOk<E>(w: File<E>, s: Scan<E>) {
    match s
    case Started(from, start) => StartOk(w, start) && (start > 0 ==> MaxIn(w.c, w.bytes[..start]) < from)
    case Read(start, p) =>
      StartOk(w, start)
      && (!p.bad ==> start <= p.offset && Sound(w.c, w.bytes, p.offset)
                     && p.lastSeq == MaxIn(w.c, w.bytes[start..p.offset]))
  }

  ghost predicate Inv<E>(w: File<E>) {
    && CursorOk(w.c, w.bytes, w.cursor)
    && forall id | id in w.scans :: ScanOk(w, w.scans[id])
  }

  // ---- facts about sound prefixes ----

  lemma SoundPrefix<E>(c: Codec<E>, b: Bytes, m: nat, n: nat)
    requires Sound(c, b, m) && Sound(c, b, n) && m <= n
    ensures MaxIn(c, b[..n]) == if MaxIn(c, b[..m]) >= MaxIn(c, b[m..n]) then MaxIn(c, b[..m]) else MaxIn(c, b[m..n])
  {
    assert b[..n] == b[..m] + b[m..n];
    ScanResumes(c, b[..m], b[m..n]);
    MaxSeqConcat(ScanLines(c, b[..m]).recs, ScanLines(c, b[m..n]).recs);
  }

  /** Where a pass stops is a sound prefix, and it has seen the highest sequence past its start. */
  lemma PassIsSound<E>(c: Codec<E>, b: Bytes, start: nat, from: nat)
    requires Sound(c, b, start) && !ReadFile(c, b, start, from).bad
    ensures var p := ReadFile(c, b, start, from);
            start <= p.offset && Sound(c, b, p.offset) && p.lastSeq == MaxIn(c, b[start..p.offset])
  {
    var tail := b[start..];
    var p := ReadFile(c, b, start, from);
    ConsumedIsWhole(c, tail);
    assert b[start..p.offset] == Consumed(tail);
    assert b[..p.offset] == b[..start] + Consumed(tail);
    ScanResumes(c, b[..start], Consumed(tail));
    SplitConcat(b[..start], Consumed(tail));
  }

  /** Resuming delivers what reading from the first byte would. */
  lemma ResumeAgrees<E>(c: Codec<E>, b: Bytes, start: nat, from: nat)
    requires Sound(c, b, start) && (start > 0 ==> MaxIn(c, b[..start]) < from)
    ensures ReadFile(c, b, start, from).out == ReadFile(c, b, 0, from).out
    ensures ReadFile(c, b, start, from).bad == ReadFile(c, b, 0, from).bad
  {
    assert b[0..] == b;
    if start > 0 {
      var head := ScanLines(c, b[..start]).recs;
      assert b == b[..start] + b[start..];
      ScanResumes(c, b[..start], b[start..]);
      AtLeastNone(head, from);
      AtLeastConcat(head, ScanLines(c, b[start..]).recs, from);
    }
  }

  lemma AdvanceOk<E>(c: Codec<E>, b: Bytes, cursor: Option<Cursor>, start: nat, offset: nat, lastSeq: nat)
    requires CursorOk(c, b, cursor) && Sound(c, b, start) && Sound(c, b, offset) && start <= offset
    requires start > 0 ==> cursor.Some? && start <= cursor.value.offset
    requires lastSeq == MaxIn(c, b[start..offset])
    ensures CursorOk(c, b, Advance(cursor, offset, lastSeq))
  {
    SoundPrefix(c, b, start, offset);
    if cursor.Some? {
      SoundPrefix(c, b, start, cursor.value.offset);
      if cursor.value.offset < offset {
        SoundPrefix(c, b, cursor.value.offset, offset);
      }
    } else {
      assert b[..0] == [];
    }
  }

  /** Growth keeps sound prefixes sound, and cursors good. */
  lemma CursorGrows<E>(c: Codec<E>, b: Bytes, more: Bytes, cursor: Option<Cursor>)
    requires CursorOk(c, b, cursor)
    ensures CursorOk(c, b + more, cursor)
  {
    if cursor.Some? {
      assert (b + more)[..cursor.value.offset] == b[..cursor.value.offset];
    }
  }

  // ---- what every step keeps ----

  lemma EmptySound<E>(c: Codec<E>, b: Bytes)
    ensures Sound(c, b, 0) && MaxIn(c, b[..0]) == 0
  {
    assert b[..0] == [];
  }

  lemma GrowStep<E>(w: File<E>, more: Bytes)
    requires Inv(w)
    ensures Inv(w.(bytes := w.bytes + more))
  {
    var v := w.(bytes := w.bytes + more);
    forall n: nat | Sound(w.c, w.bytes, n)
      ensures Sound(w.c, v.bytes, n) && v.bytes[..n] == w.bytes[..n]
    {
      assert v.bytes[..n] == w.bytes[..n];
    }
    forall id | id in v.scans
      ensures ScanOk(v, v.scans[id])
    {
      var s := w.scans[id];
      assert ScanOk(w, s);
      if s.Read? && !s.pass.bad {
        assert v.bytes[s.start..s.pass.offset] == w.bytes[s.start..s.pass.offset];
      }
    }
  }

  lemma ReadStep<E>(w: File<E>, id: Id)
    requires Inv(w) && Next(w, ReadAll(id)).Some?
    ensures Inv(Next(w, ReadAll(id)).value)
  {
    var v, s := Next(w, ReadAll(id)).value, w.scans[id];
    assert ScanOk(w, s);
    if !ReadFile(w.c, w.bytes, s.start, s.from).bad {
      PassIsSound(w.c, w.bytes, s.start, s.from);
    }
    forall k | k in v.scans
      ensures ScanOk(v, v.scans[k])
    {
      assert k != id ==> ScanOk(w, w.scans[k]);
    }
  }

  lemma FinishStep<E>(w: File<E>, id: Id)
    requires Inv(w) && Next(w, Finish(id)).Some?
    ensures Inv(Next(w, Finish(id)).value)
  {
    var v, s := Next(w, Finish(id)).value, w.scans[id];
    assert ScanOk(w, s);
    if !s.pass.bad {
      AdvanceOk(w.c, w.bytes, w.cursor, s.start, s.pass.offset, s.pass.lastSeq);
    }
    forall k | k in v.scans
      ensures ScanOk(v, v.scans[k])
    {
      assert ScanOk(w, w.scans[k]);
    }
  }

  lemma StepKeepsInv<E>(w: File<E>, l: Label)
    requires Inv(w) && Next(w, l).Some?
    ensures Inv(Next(w, l).value)
  {
    match l {
      case Grow(more) => GrowStep(w, more);
      case Begin(id, from) =>
        EmptySound(w.c, w.bytes);
        var v := Next(w, l).value;
        forall k | k in v.scans
          ensures ScanOk(v, v.scans[k])
        {
          assert k != id ==> ScanOk(w, w.scans[k]);
        }
      case ReadAll(id) => ReadStep(w, id);
      case Finish(id) => FinishStep(w, id);
      case Abort(id) =>
        var v := Next(w, l).value;
        forall k | k in v.scans
          ensures ScanOk(v, v.scans[k])
        {
          assert ScanOk(w, w.scans[k]);
        }
    }
  }

  lemma RunKeepsInv<E(!new)>(w: File<E>, ls: seq<Label>)
    requires w.cursor.None? && w.scans == map[]
    requires Run(Next, w, ls).Some?
    ensures Inv(Run(Next, w, ls).value)
  {
    forall w: File<E>, l: Label {:trigger Next(w, l)} | Inv(w) && Next(w, l).Some?
      ensures Inv(Next(w, l).value)
    {
      StepKeepsInv(w, l);
    }
    var any := (w: File<E>, l: Label) => true;
    AllAllowed(Next, any, w, ls);
    Keeps(Next, Inv, any, w, ls);
  }

  /** Under every interleaving of appends and scans, from a file nobody has scanned yet, the
      cursor names a prefix of whole lines and its highest sequence, and every scan delivers
      (or fails) as if it had read the file from its first byte. */
  lemma ScansAgree<E(!new)>(w: File<E>, ls: seq<Label>, id: Id)
    requires w.cursor.None? && w.scans == map[]
    requires Run(Next, w, ls).Some?
    ensures var v := Run(Next, w, ls).value;
            CursorOk(v.c, v.bytes, v.cursor)
    ensures var v := Run(Next, w, ls).value;
            id in v.scans && v.scans[id].Started? ==>
              var p := Next(v, ReadAll(id)).value.scans[id].pass;
              && p.bad == ScanLines(v.c, v.bytes).bad
              && p.out == AtLeast(ScanLines(v.c, v.bytes).recs, v.scans[id].from)
  {
    RunKeepsInv(w, ls);
    var v := Run(Next, w, ls).value;
    if id in v.scans && v.scans[id].Started? {
      var s := v.scans[id];
      assert ScanOk(v, s);
      ResumeAgrees(v.c, v.bytes, s.start, s.from);
      assert v.bytes[0..] == v.bytes;
    }
  }

  /** From every such file, whatever other scans are at, a scan can begin, read and finish: it delivers
      every record asked for, and the cursor is then no earlier than where it stopped. */
  lemma ScanCompletes<E(!new)>(w: File<E>, ls: seq<Label>, id: Id, from: nat)
    requires w.cursor.None? && w.scans == map[]
    requires Run(Next, w, ls).Some? && id !in Run(Next, w, ls).value.scans
    ensures var v := Run(Next, w, ls).value;
            var u := Run(Next, v, [Begin(id, from), ReadAll(id)]);
            && u.Some? && id in u.value.scans && u.value.scans[id].Read? && u.value.cursor == v.cursor
            && var p := u.value.scans[id].pass;
               && p.bad == ScanLines(v.c, v.bytes).bad && p.out == AtLeast(ScanLines(v.c, v.bytes).recs, from)
               && var x := Next(u.value, Finish(id));
                  && x.Some? && x.value.scans == v.scans
                  && (if p.bad then x.value.cursor == v.cursor
                      else x.value.cursor.Some? && p.offset <= x.value.cursor.value.offset
                           && CursorOk(v.c, v.bytes, x.value.cursor))
  {
    var v := Run(Next, w, ls).value;
    var begun := Next(v, Begin(id, from)).value;
    RunKeepsInv(w, ls);
    StepKeepsInv(v, Begin(id, from));
    StepKeepsInv(begun, ReadAll(id));
    RunTwo(Next, v, Begin(id, from), ReadAll(id));
    StepKeepsInv(Next(begun, ReadAll(id)).value, Finish(id));
    var s := begun.scans[id];
    assert ScanOk(begun, s);
    ResumeAgrees(v.c, v.bytes, s.start, from);
    assert v.bytes[0..] == v.bytes;
    assert v.scans[id := s] - {id} == v.scans;
  }
}
