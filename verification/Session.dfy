/**
 One feed session: a tail loop that reads the store and fills a bounded queue, a write
 loop that empties it onto the connection, and a read loop that answers pings and ends
 the session. Their steps interleave freely, with each other and with the store growing.
 */
module Session {
  import opened Wrappers
  import opened EventLog
  import opened Octets
  import opened Runs
  import Frames
  import Resume

  const TAIL_PAGE := 256

  datatype Item<+E> = Rec(rec: Record<E>) | Heartbeat | Pong

  /** The tail loop: between ticks, part-way through the records of one tick, or returned. */
  datatype Tail<+E> = Waiting | Sending(recs: seq<Record<E>>) | Returned

  datatype Disconnect = Clean | Behind | Failed

  datatype State<+E> = State(
    log: seq<Record<E>>,             // the store
    from: nat,                       // what the handshake chose
    next: nat,                       // the tail loop's cursor
    tail: Tail<E>,
    queue: seq<Item<E>>,             // the `out` channel
    depth: nat,                      // its capacity
    writing: bool,                   // the write loop has not returned
    cancelled: bool,
    disconnect: Disconnect,
    written: seq<Item<E>>,           // frames handed to the connection, in order
    failed: seq<Item<E>>)            // and then the one whose write failed, any part of which may have been sent

  datatype Label<+E> =
    | StoreGrows(event: E)
    | TailTick                       // the ticker fires: read a page, or find nothing
    | TailHeartbeat                  // nothing read for a heartbeat interval
    | TailEnqueue                    // queue the next record of the tick
    | TailReturn                     // the context is done
    | WriteOne
    | WriteFails
    | WriteReturn
    | Ping
    | ReadReturn(unknownFrame: bool)

  /** `enqueue`: a full queue drops the frame and ends the session. */
  function Enqueue<E>(s: State<E>, item: Item<E>): State<E> {
    if |s.queue| < s.depth then s.(queue := s.queue + [item])
    else s.(disconnect := Behind, cancelled := true)
  }

  function Next<E>(s: State<E>, l: Label<E>): Option<State<E>> {
    match l
    case StoreGrows(event) => Some(s.(log := s.log + [Record(|s.log| + 1, event)]))
    case TailTick =>
      if !s.tail.Waiting? then None
      else
        var recs := if s.cancelled then [] else Page(s.log, s.next, TAIL_PAGE);
        Some(if recs == [] then s else s.(tail := Sending(recs)))
    case TailHeartbeat => if s.tail.Waiting? then Some(Enqueue(s, Heartbeat)) else None
    case TailEnqueue =>
      if !s.tail.Sending? || s.tail.recs == [] then None
      else
        var r, rest := s.tail.recs[0], s.tail.recs[1..];
        if |s.queue| < s.depth
        then Some(Enqueue(s, Rec(r)).(next := r.seqNo + 1, tail := if rest == [] then Waiting else Sending(rest)))
        else Some(Enqueue(s, Rec(r)).(tail := Returned))
    case TailReturn => if s.tail.Waiting? && s.cancelled then Some(s.(tail := Returned)) else None
    case WriteOne =>
      if !s.writing || s.queue == [] then None
      else Some(s.(queue := s.queue[1..], written := s.written + [s.queue[0]]))
    case WriteFails =>
      if !s.writing || s.queue == [] then None
      else Some(s.(queue := s.queue[1..], failed := [s.queue[0]], writing := false, cancelled := true, disconnect := Failed))
    case WriteReturn => if s.writing && s.cancelled then Some(s.(writing := false)) else None
    case Ping => Some(Enqueue(s, Pong))
    case ReadReturn(unknown) => Some(s.(cancelled := true, disconnect := if unknown then Failed else s.disconnect))
  }

  /** The records among a run of frames. */
  function Recs<E>(items: seq<Item<E>>): seq<Record<E>> {
    if items == [] then []
    else (if items[0].Rec? then [items[0].rec] else []) + Recs(items[1..])
  }

  lemma {:induction false} RecsConcat<E>(xs: seq<Item<E>>, ys: seq<Item<E>>)
    ensures Recs(xs + ys) == Recs(xs) + Recs(ys)
  {
    if xs == [] {
      assert xs + ys == ys;
    } else {
      RecsConcat(xs[1..], ys);
      assert (xs + ys)[0] == xs[0] && (xs + ys)[1..] == xs[1..] + ys;
      var head := if xs[0].Rec? then [xs[0].rec] else [];
      assert head + (Recs(xs[1..]) + Recs(ys)) == head + Recs(xs[1..]) + Recs(ys);
    }
  }

  /** What this session owes its client. */
  function Owed<E>(s: State<E>): seq<Record<E>> {
    AtLeast(s.log, s.from)
  }

  /** A session as the handshake leaves it. */
  ghost predicate Init<E>(s: State<E>) {
    && Numbered(s.log) && s.from >= 1 && s.next == s.from && s.tail == Waiting
    && s.queue == [] && s.written == [] && s.failed == [] && s.writing
  }

  /** Written and still queued records are, together, the first records owed; the tail's cursor
      is behind the last of them and what the tail has read comes next. */
  ghost predicate Inv<E>(s: State<E>) {
    && Numbered(s.log) && s.from >= 1
    && s.from <= s.next && (s.next > s.from ==> s.next <= |s.log| + 1)
    && Recs(Begun(s)) <= Sent(s)
    && (s.writing ==> s.failed == [] && Recs(s.written) + Recs(s.queue) == Sent(s))
    && (s.tail.Sending? ==> s.tail.recs <= AtLeast(s.log, s.next))
  }

  /** The frames the write loop has begun to write. */
  function Begun<E>(s: State<E>): seq<Item<E>> {
    s.written + s.failed
  }

  /** The records the tail has queued so far. */
  function Sent<E>(s: State<E>): seq<Record<E>> {
    if 1 <= s.from <= s.next <= |s.log| + 1 then s.log[s.from - 1..s.next - 1] else []
  }

  lemma GrowStep<E>(s: State<E>, event: E)
    requires Inv(s)
    ensures Inv(Next(s, StoreGrows(event)).value)
  {
    var r := Record(|s.log| + 1, event);
    SentKept(s, r);
    if s.tail.Sending? {
      StillNext(s.tail.recs, s.log, r, s.next);
    }
  }

  lemma StillNext<E>(recs: seq<Record<E>>, log: seq<Record<E>>, r: Record<E>, next: nat)
    requires recs <= AtLeast(log, next)
    ensures recs <= AtLeast(log + [r], next)
  {
    AtLeastConcat(log, [r], next);
  }

  lemma SentKept<E>(s: State<E>, r: Record<E>)
    requires Inv(s)
    ensures Sent(s.(log := s.log + [r])) == Sent(s)
  {
  }

  lemma TickStep<E>(s: State<E>)
    requires Inv(s) && Next(s, TailTick).Some?
    ensures Inv(Next(s, TailTick).value)
  {
    assert Page(s.log, s.next, TAIL_PAGE) <= AtLeast(s.log, s.next);
    assert Sent(Next(s, TailTick).value) == Sent(s);
  }

  lemma NextRecord<E>(s: State<E>)
    requires Inv(s) && s.tail.Sending? && s.tail.recs != []
    ensures 1 <= s.next <= |s.log| && s.tail.recs[0] == s.log[s.next - 1] && s.tail.recs[0].seqNo == s.next
    ensures s.tail.recs[1..] <= AtLeast(s.log, s.next + 1)
  {
    AtLeastNumbered(s.log, 0, s.next);
    AtLeastNumbered(s.log, 0, s.next + 1);
  }

  /** Queueing one more keeps what was begun a prefix, and written and queued the whole, of what
      was sent. */
  lemma SendOne<T>(begun: seq<T>, written: seq<T>, queued: seq<T>, sent: seq<T>, x: T)
    requires begun <= sent
    ensures begun <= sent + [x]
    ensures written + queued == sent ==> written + (queued + [x]) == sent + [x]
  {
    assert written + queued + [x] == written + (queued + [x]);
  }

  lemma RecsQueued<E>(queue: seq<Item<E>>, item: Item<E>)
    ensures Recs(queue + [item]) == if item.Rec? then Recs(queue) + [item.rec] else Recs(queue)
  {
    RecsConcat(queue, [item]);
    assert [item][1..] == [];
    assert Recs(queue) + [] == Recs(queue);
  }

  lemma SentGrows<E>(s: State<E>)
    requires Inv(s) && 1 <= s.next <= |s.log|
    ensures Sent(s.(next := s.next + 1)) == Sent(s) + [s.log[s.next - 1]]
  {
    SliceGrows(s.log, s.from - 1, s.next - 1);
  }

  lemma SliceGrows<T>(log: seq<T>, i: nat, j: nat)
    requires i <= j < |log|
    ensures log[i..j + 1] == log[i..j] + [log[j]]
  {
  }

  /** A step that queues the next record keeps the invariant. */
  lemma RecordQueued<E>(s: State<E>, v: State<E>, r: Record<E>)
    requires Inv(s) && v.log == s.log && v.from == s.from && v.next == s.next + 1 <= |s.log| + 1
    requires Sent(v) == Sent(s) + [r] && Recs(v.queue) == Recs(s.queue) + [r]
    requires v.written == s.written && v.failed == s.failed && v.writing == s.writing
    requires v.tail.Sending? ==> v.tail.recs <= AtLeast(v.log, v.next)
    ensures Inv(v)
  {
    SendOne(Recs(Begun(s)), Recs(s.written), Recs(s.queue), Sent(s), r);
  }

  lemma EnqueueRoom<E>(s: State<E>)
    requires Inv(s) && Next(s, TailEnqueue).Some? && |s.queue| < s.depth
    ensures Inv(Next(s, TailEnqueue).value)
  {
    var v, r := Next(s, TailEnqueue).value, s.tail.recs[0];
    NextRecord(s);
    SentGrows(s);
    RecsQueued(s.queue, Rec(r));
    assert Sent(v) == Sent(s) + [r] && v.queue == s.queue + [Rec(r)];
    RecordQueued(s, v, r);
  }

  /** A step that does not queue a record keeps the invariant when it keeps its part about frames. */
  lemma NothingQueued<E>(s: State<E>, v: State<E>)
    requires Inv(s) && v.log == s.log && v.from == s.from && v.next == s.next && (v.tail == s.tail || !v.tail.Sending?)
    requires Recs(Begun(v)) <= Sent(s)
    requires v.writing ==> v.failed == [] && Recs(v.written) + Recs(v.queue) == Sent(s)
    ensures Inv(v)
  {
  }

  lemma EnqueueStep<E>(s: State<E>)
    requires Inv(s) && Next(s, TailEnqueue).Some?
    ensures Inv(Next(s, TailEnqueue).value)
  {
    if |s.queue| < s.depth {
      EnqueueRoom(s);
    } else {
      assert Begun(Next(s, TailEnqueue).value) == Begun(s);
      NothingQueued(s, Next(s, TailEnqueue).value);
    }
  }

  lemma OtherFrameStep<E>(s: State<E>, item: Item<E>)
    requires Inv(s) && !item.Rec?
    ensures Inv(Enqueue(s, item))
  {
    var v := Enqueue(s, item);
    RecsQueued(s.queue, item);
    assert Begun(v) == Begun(s) && Recs(v.queue) == Recs(s.queue);
    NothingQueued(s, v);
  }

  lemma TakeOne<T>(a: seq<T>, head: seq<T>, rest: seq<T>, whole: seq<T>)
    requires a + (head + rest) == whole
    ensures a + head + rest == whole && a + head <= whole
  {
    assert a + head + rest == a + (head + rest);
  }

  lemma PopQueue<E>(written: seq<Item<E>>, queue: seq<Item<E>>, sent: seq<Record<E>>)
    requires queue != [] && Recs(written) + Recs(queue) == sent
    ensures Recs(written + [queue[0]]) + Recs(queue[1..]) == sent
    ensures Recs(written + [queue[0]]) <= sent
  {
    var head := if queue[0].Rec? then [queue[0].rec] else [];
    RecsQueued(written, queue[0]);
    TakeOne(Recs(written), head, Recs(queue[1..]), sent);
    assert Recs(written) + [] == Recs(written);
    assert Recs(written + [queue[0]]) == Recs(written) + head;
  }

  lemma WriteStep<E>(s: State<E>, l: Label<E>)
    requires Inv(s) && Next(s, l).Some? && (l.WriteOne? || l.WriteFails?)
    ensures Inv(Next(s, l).value)
  {
    var v := Next(s, l).value;
    PopQueue(s.written, s.queue, Sent(s));
    assert Begun(v) == s.written + [s.queue[0]];
    NothingQueued(s, v);
  }

  /** The loops that return leave what was sent and what was written alone. */
  lemma ReturnStep<E>(s: State<E>, l: Label<E>)
    requires Inv(s) && Next(s, l).Some? && (l.TailReturn? || l.WriteReturn? || l.ReadReturn?)
    ensures Inv(Next(s, l).value)
  {
    var v := Next(s, l).value;
    assert Begun(v) == Begun(s);
    NothingQueued(s, v);
  }

  lemma StepKeepsInv<E>(s: State<E>, l: Label<E>)
    requires Inv(s) && Next(s, l).Some?
    ensures Inv(Next(s, l).value)
  {
    match l {
      case StoreGrows(event) => GrowStep(s, event);
      case TailTick => TickStep(s);
      case TailEnqueue => EnqueueStep(s);
      case TailHeartbeat => OtherFrameStep(s, Heartbeat);
      case Ping => OtherFrameStep(s, Pong);
      case WriteOne => WriteStep(s, l);
      case WriteFails => WriteStep(s, l);
      case _ => ReturnStep(s, l);
    }
  }

  lemma RunKeepsInv<E(!new)>(s: State<E>, ls: seq<Label<E>>)
    requires Init(s) && Run(Next, s, ls).Some?
    ensures Inv(Run(Next, s, ls).value)
  {
    RunKeeps(s, ls);
  }

  lemma RunKeeps<E(!new)>(s: State<E>, ls: seq<Label<E>>)
    requires Inv(s) && Run(Next, s, ls).Some?
    ensures Inv(Run(Next, s, ls).value)
  {
    forall s: State<E>, l: Label<E> {:trigger Next(s, l)} | Inv(s) && Next(s, l).Some?
      ensures Inv(Next(s, l).value)
    {
      StepKeepsInv(s, l);
    }
    var any := (s: State<E>, l: Label<E>) => true;
    AllAllowed(Next, any, s, ls);
    Keeps(Next, Inv, any, s, ls);
  }

  /** In every schedule, the records a session has written, and the one it has begun to write, are
      the first records owed to its client, each once and in order. */
  lemma WritesAPrefix<E(!new)>(s: State<E>, ls: seq<Label<E>>)
    requires Init(s) && Run(Next, s, ls).Some?
    ensures var v := Run(Next, s, ls).value;
            Recs(v.written) <= Recs(Begun(v)) <= Owed(v)
  {
    RunKeepsInv(s, ls);
    var v := Run(Next, s, ls).value;
    WrittenIsBegun(v);
    SentIsOwed(v);
  }

  lemma WrittenIsBegun<E>(s: State<E>)
    ensures Recs(s.written) <= Recs(Begun(s))
  {
    RecsConcat(s.written, s.failed);
  }

  lemma WrittenIsSent<E>(s: State<E>)
    requires Inv(s)
    ensures Recs(s.written) <= Sent(s)
  {
    WrittenIsBegun(s);
    PrefixOfPrefix(Recs(s.written), Recs(Begun(s)), Sent(s));
  }

  lemma PrefixOfPrefix<T>(a: seq<T>, b: seq<T>, c: seq<T>)
    requires a <= b <= c
    ensures a <= c
  {
  }

  lemma SentIsOwed<E>(s: State<E>)
    requires Inv(s)
    ensures Sent(s) <= Owed(s)
  {
    AtLeastNumbered(s.log, 0, s.from);
  }

  lemma NothingNew<E>(log: seq<Record<E>>, next: nat)
    requires Numbered(log) && next >= 1 && Page(log, next, TAIL_PAGE) == []
    ensures next > |log|
  {
    var owed := AtLeast(log, next);
    AtLeastNumbered(log, 0, next);
    assert owed == [];
  }

  lemma AllSent<E>(v: State<E>)
    requires Inv(v) && Page(v.log, v.next, TAIL_PAGE) == []
    ensures Sent(v) == Owed(v)
  {
    NothingNew(v.log, v.next);
    OwedIsTail(v.log, v.from);
  }

  lemma NoneLeft<T>(written: seq<T>, queued: seq<T>, sent: seq<T>)
    requires written + queued == sent && queued == []
    ensures written == sent
  {
  }

  /** Nothing is skipped: a live session whose tail finds nothing new and whose queue holds no
      record has written everything owed. */
  lemma CaughtUpMeansAll<E(!new)>(s: State<E>, ls: seq<Label<E>>)
    requires Init(s) && Run(Next, s, ls).Some?
    ensures var v := Run(Next, s, ls).value;
            v.writing && v.tail.Waiting? && Page(v.log, v.next, TAIL_PAGE) == [] && Recs(v.queue) == []
            ==> Recs(v.written) == Owed(v)
  {
    RunKeepsInv(s, ls);
    var v := Run(Next, s, ls).value;
    if v.writing && v.tail.Waiting? && Page(v.log, v.next, TAIL_PAGE) == [] && Recs(v.queue) == [] {
      AllSent(v);
      NoneLeft(Recs(v.written), Recs(v.queue), Sent(v));
    }
  }

  /** Once the tail has returned, nothing more is sent, whatever the other loops and the store do. */
  lemma ReturnedStep<E>(v: State<E>, l: Label<E>)
    requires v.tail.Returned? && Next(v, l).Some?
    ensures var u := Next(v, l).value;
            && u.tail.Returned? && u.next == v.next && u.from == v.from && v.log <= u.log
            && (v.cancelled ==> u.cancelled) && (v.disconnect != Clean ==> u.disconnect != Clean)
  {
  }

  lemma {:induction false} ReturnedRun<E>(v: State<E>, ls: seq<Label<E>>)
    requires v.tail.Returned? && Run(Next, v, ls).Some?
    ensures var u := Run(Next, v, ls).value;
            && u.tail.Returned? && u.next == v.next && u.from == v.from && v.log <= u.log
            && (v.cancelled ==> u.cancelled) && (v.disconnect != Clean ==> u.disconnect != Clean)
    decreases |ls|
  {
    if ls != [] {
      ReturnedStep(v, ls[0]);
      ReturnedRun(Next(v, ls[0]).value, ls[1..]);
    }
  }

  lemma SentFrozen<E>(v: State<E>, u: State<E>)
    requires Inv(v) && Inv(u) && u.next == v.next && u.from == v.from && v.log <= u.log
    ensures Sent(u) == Sent(v)
  {
  }

  /** The session after a full queue has refused the next record of a tick. */
  function Refused<E>(v: State<E>): State<E> {
    v.(disconnect := Behind, cancelled := true, tail := Returned)
  }

  /** A session whose tail has returned after sending `sent`: it writes some first part of that,
      all of it unless the write loop returns too, and owes its client what it has written and what
      follows that in the store. */
  ghost predicate SendsOnly<E>(u: State<E>, sent: seq<Record<E>>) {
    && u.tail.Returned? && Sent(u) == sent && Recs(u.written) <= sent
    && (u.writing ==> Recs(u.written) + Recs(u.queue) == sent)
    && Owed(u) == Recs(u.written) + AtLeast(u.log, u.from + |Recs(u.written)|)
  }

  lemma OwesTheRest<E>(u: State<E>)
    requires Inv(u)
    ensures Recs(u.written) <= Sent(u)
    ensures Owed(u) == Recs(u.written) + AtLeast(u.log, u.from + |Recs(u.written)|)
  {
    WrittenIsSent(u);
    SentIsOwed(u);
    PrefixOfPrefix(Recs(u.written), Sent(u), AtLeast(u.log, u.from));
    RestIsOwed(u.log, u.from, Recs(u.written));
  }

  lemma ReturnedSends<E>(u: State<E>)
    requires Inv(u) && u.tail.Returned?
    ensures SendsOnly(u, Sent(u))
  {
    OwesTheRest(u);
  }

  /** A full queue on a record ends the tail for good and never skips that record: in every
      continuation the session sends only what had been queued before, in the same order, and owes
      the rest. */
  lemma FullQueueEndsTail<E(!new)>(s: State<E>, ls: seq<Label<E>>, more: seq<Label<E>>)
    requires Init(s) && Run(Next, s, ls).Some?
    requires var v := Run(Next, s, ls).value; v.tail.Sending? && v.tail.recs != [] && |v.queue| >= v.depth
    requires Run(Next, Refused(Run(Next, s, ls).value), more).Some?
    ensures var v := Run(Next, s, ls).value;
            var u := Run(Next, Refused(v), more).value;
            && Next(v, TailEnqueue) == Some(Refused(v))
            && u.cancelled && u.disconnect != Clean && SendsOnly(u, Sent(v))
  {
    var v := Run(Next, s, ls).value;
    RunKeepsInv(s, ls);
    StepKeepsInv(v, TailEnqueue);
    ReturnedRun(Refused(v), more);
    RunKeeps(Refused(v), more);
    var u := Run(Next, Refused(v), more).value;
    SentFrozen(v, u);
    ReturnedSends(u);
  }

  /** What is owed after the first of the records owed is what follows them in the store. */
  lemma RestIsOwed<E>(log: seq<Record<E>>, from: nat, got: seq<Record<E>>)
    requires Numbered(log) && from >= 1 && got <= AtLeast(log, from)
    ensures AtLeast(log, from) == got + AtLeast(log, from + |got|)
    ensures got != [] ==> Resume.LastOf(from - 1, got) == from - 1 + |got| <= |log|
  {
    if got == [] {
      assert got + AtLeast(log, from) == AtLeast(log, from);
    } else {
      OwedIsTail(log, from);
      RestOf(log, from - 1, got);
      OwedIsTail(log, from + |got|);
    }
  }

  lemma OwedIsTail<E>(log: seq<Record<E>>, from: nat)
    requires Numbered(log) && from >= 1
    ensures from - 1 <= |log| ==> AtLeast(log, from) == log[from - 1..]
    ensures from - 1 > |log| ==> AtLeast(log, from) == []
  {
    AtLeastNumbered(log, 0, from);
  }

  lemma RestOf<E>(log: seq<Record<E>>, base: nat, got: seq<Record<E>>)
    requires Numbered(log) && base <= |log| && got <= log[base..] && got != []
    ensures base + |got| <= |log| && log[base..] == got + log[base + |got|..]
    ensures got[|got| - 1].seqNo == base + |got|
  {
    assert got[|got| - 1] == log[base..][|got| - 1] == log[base + |got| - 1];
  }

  /** However a session ended, behind, failed or clean, a client that reconnects with the last
      sequence it was written is sent exactly what it was not, if and only if the store's latest
      sequence, as the new handshake sees it, is not behind the client. */
  lemma ReconnectSendsTheRest<E(!new)>(s: State<E>, ls: seq<Label<E>>, latest: nat)
    requires Init(s) && s.from <= |s.log| + 1 && Run(Next, s, ls).Some?
    requires |Run(Next, s, ls).value.log| <= Resume.MAX_INT64
    ensures var v := Run(Next, s, ls).value;
            var last := Resume.LastOf(s.from - 1, Recs(v.written));
            Owed(v) == Recs(v.written) + AtLeast(v.log, Resume.Choose(last, latest).1)
            <==> last <= latest || last == 0
  {
    var v := Run(Next, s, ls).value;
    WritesAPrefix(s, ls);
    RunKeepsInv(s, ls);
    RunGrows(s, ls);
    TheRestIffFresh(v.log, s.from, Recs(v.written), latest);
  }

  lemma TheRestIffFresh<E>(log: seq<Record<E>>, from: nat, got: seq<Record<E>>, latest: nat)
    requires Numbered(log) && 1 <= from <= |log| + 1 && |log| <= Resume.MAX_INT64 && got <= AtLeast(log, from)
    ensures var last := Resume.LastOf(from - 1, got);
            AtLeast(log, from) == got + AtLeast(log, Resume.Choose(last, latest).1) <==> last <= latest || last == 0
  {
    var last := Resume.LastOf(from - 1, got);
    RestIsOwed(log, from, got);
    Resume.ResumesExactlyIffFresh(last, latest);
    AtLeastNumbered(log, 0, last + 1);
    AtLeastNumbered(log, 0, Resume.Choose(last, latest).1);
  }

  lemma {:induction false} RunGrows<E>(s: State<E>, ls: seq<Label<E>>)
    requires Run(Next, s, ls).Some?
    ensures s.log <= Run(Next, s, ls).value.log && Run(Next, s, ls).value.from == s.from
    decreases |ls|
  {
    if ls != [] {
      RunGrows(Next(s, ls[0]).value, ls[1..]);
    }
  }

  // ---- on the wire ----

  const TYPE_RECORD: Byte := 0x12
  const TYPE_PONG: Byte := 0x13
  const TYPE_HEARTBEAT: Byte := 0x16

  function FrameOf<E>(payload: Item<E> -> Bytes, item: Item<E>): Frames.Frame {
    Frames.Frame(if item.Rec? then TYPE_RECORD else if item.Heartbeat? then TYPE_HEARTBEAT else TYPE_PONG, payload(item))
  }

  function FramesOf<E>(payload: Item<E> -> Bytes, items: seq<Item<E>>): seq<Frames.Frame> {
    seq(|items|, i requires 0 <= i < |items| => FrameOf(payload, items[i]))
  }

  /** Every payload's length fits its 32-bit field. */
  predicate Sendable<E>(payload: Item<E> -> Bytes, items: seq<Item<E>>) {
    forall i | 0 <= i < |items| :: |payload(items[i])| < Frames.TWO_TO_THE_32
  }

  /** How many of the frames sent a client reads from the first `k` bytes. */
  function Got<E>(payload: Item<E> -> Bytes, items: seq<Item<E>>, k: nat, max: nat): (m: nat)
    ensures m <= |items|
  {
    Frames.Readable(FramesOf(payload, items), k, max)
  }

  lemma GotIs<E>(payload: Item<E> -> Bytes, items: seq<Item<E>>, k: nat, max: nat)
    requires max < Frames.TWO_TO_THE_32 && Sendable(payload, items) && k <= |Frames.EncodeAll(FramesOf(payload, items))|
    ensures Frames.DecodeAll(Frames.EncodeAll(FramesOf(payload, items))[..k], max)
         == FramesOf(payload, items[..Got(payload, items, k, max)])
  {
    var fs := FramesOf(payload, items);
    forall f | f in fs
      ensures |f.payload| < Frames.TWO_TO_THE_32
    {
      var i :| 0 <= i < |fs| && fs[i] == f;
      assert |payload(items[i])| < Frames.TWO_TO_THE_32;
    }
    Frames.CutStream(fs, k, max);
    assert fs[..Got(payload, items, k, max)] == FramesOf(payload, items[..Got(payload, items, k, max)]);
  }

  /** A client that got any number of the bytes sent, those of a frame whose write failed half-way
      included, reads frames that carry, among them, the first records owed, each once and in
      order, whatever the frames' sizes and its limit. */
  lemma ClientReadsAPrefix<E(!new)>(s: State<E>, ls: seq<Label<E>>, payload: Item<E> -> Bytes, k: nat, max: nat)
    requires Init(s) && Run(Next, s, ls).Some?
    requires max < Frames.TWO_TO_THE_32 && Sendable(payload, Begun(Run(Next, s, ls).value))
    requires k <= |Frames.EncodeAll(FramesOf(payload, Begun(Run(Next, s, ls).value)))|
    ensures var v := Run(Next, s, ls).value;
            var m := Got(payload, Begun(v), k, max);
            && Frames.DecodeAll(Frames.EncodeAll(FramesOf(payload, Begun(v)))[..k], max) == FramesOf(payload, Begun(v)[..m])
            && Recs(Begun(v)[..m]) <= Owed(v)
  {
    var v := Run(Next, s, ls).value;
    var m := Got(payload, Begun(v), k, max);
    GotIs(payload, Begun(v), k, max);
    WritesAPrefix(s, ls);
    assert Begun(v) == Begun(v)[..m] + Begun(v)[m..];
    RecsConcat(Begun(v)[..m], Begun(v)[m..]);
  }

  lemma {:induction false} FirstRec<E>(items: seq<Item<E>>) returns (i: nat)
    requires Recs(items) != []
    ensures i < |items| && items[i] == Rec(Recs(items)[0])
  {
    if items[0].Rec? {
      i := 0;
    } else {
      i := FirstRec(items[1..]);
      i := i + 1;
    }
  }

  /** A client reads no record when the first it is owed is above its limit. */
  lemma FirstOversized<E>(payload: Item<E> -> Bytes, items: seq<Item<E>>, owed: seq<Record<E>>, k: nat, max: nat)
    requires owed != [] && |payload(Rec(owed[0]))| > max && Recs(items[..Got(payload, items, k, max)]) <= owed
    ensures Recs(items[..Got(payload, items, k, max)]) == []
  {
    var m := Got(payload, items, k, max);
    if Recs(items[..m]) != [] {
      var i := FirstRec(items[..m]);
      GotFits(payload, items, i, k, max);
    }
  }

  lemma GotFits<E>(payload: Item<E> -> Bytes, items: seq<Item<E>>, i: nat, k: nat, max: nat)
    requires i < Got(payload, items, k, max)
    ensures |payload(items[i])| <= max
  {
    Frames.FittingFit(FramesOf(payload, items), max);
    assert FramesOf(payload, items)[i].payload == payload(items[i]);
  }

  lemma OwedFirst<E>(log: seq<Record<E>>, grown: seq<Record<E>>, from: nat)
    requires Numbered(grown) && log <= grown && 1 <= from <= |log|
    ensures AtLeast(grown, from) != [] && AtLeast(grown, from)[0] == log[from - 1]
  {
    AtLeastNumbered(grown, 0, from);
  }

  /** A record whose frame is above the client's limit is sent all the same, and no client gets past
      it: it receives no record of the session, whatever else it reads, and asking again from its last
      sequence, of a store that is not behind it, starts the next session at the same record. */
  lemma OversizedBlocks<E(!new)>(
      s: State<E>, ls: seq<Label<E>>, payload: Item<E> -> Bytes, k: nat, max: nat, latest: nat)
    requires Init(s) && s.from <= |s.log| <= Resume.MAX_INT64 && Run(Next, s, ls).Some?
    requires |payload(Rec(s.log[s.from - 1]))| > max
    requires max < Frames.TWO_TO_THE_32 && Sendable(payload, Begun(Run(Next, s, ls).value))
    requires k <= |Frames.EncodeAll(FramesOf(payload, Begun(Run(Next, s, ls).value)))|
    requires latest >= s.from - 1
    ensures var v := Run(Next, s, ls).value;
            var m := Got(payload, Begun(v), k, max);
            && Frames.DecodeAll(Frames.EncodeAll(FramesOf(payload, Begun(v)))[..k], max) == FramesOf(payload, Begun(v)[..m])
            && Recs(Begun(v)[..m]) == []
    ensures Resume.Choose(s.from - 1, latest).1 == s.from
  {
    var v := Run(Next, s, ls).value;
    ClientReadsAPrefix(s, ls, payload, k, max);
    RunKeepsInv(s, ls);
    RunGrows(s, ls);
    OwedFirst(s.log, v.log, s.from);
    FirstOversized(payload, Begun(v), Owed(v), k, max);
    Resume.ResumesExactlyIffFresh(s.from - 1, latest);
  }
}
