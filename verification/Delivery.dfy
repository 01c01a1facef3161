/**
 What a feed session does get done: that its tail reads on and queues every record, that a run of the
 two loops alone ends with everything written, and how far a cancelled session still goes.
 */
module Delivery {
  import opened Wrappers
  import opened EventLog
  import opened Runs
  import opened Session

  /** A session that has not been cancelled still has both of its loops; the tail is never part-way
      through nothing; the queue never holds more than it may. */
  predicate Looping<E>(s: State<E>) {
    && |s.queue| <= s.depth
    && (!s.cancelled ==> s.writing && !s.tail.Returned?)
    && (s.tail.Sending? ==> |s.tail.recs| > 0)
  }

  ghost predicate Live<E>(s: State<E>) {
    Inv(s) && Looping(s)
  }

  lemma LoopingStep<E>(s: State<E>, l: Label<E>)
    requires Looping(s) && Next(s, l).Some?
    ensures Looping(Next(s, l).value)
  {
  }

  lemma LiveStep<E>(s: State<E>, l: Label<E>)
    requires Live(s) && Next(s, l).Some?
    ensures Live(Next(s, l).value)
  {
    StepKeepsInv(s, l);
    LoopingStep(s, l);
  }

  lemma {:induction false} LiveRun<E>(s: State<E>, ls: seq<Label<E>>)
    requires Live(s) && Run(Next, s, ls).Some?
    ensures Live(Run(Next, s, ls).value)
    decreases |ls|
  {
    if ls != [] {
      LiveStep(s, ls[0]);
      LiveRun(Next(s, ls[0]).value, ls[1..]);
    }
  }

  /** The tail's next tick finds the page that begins with the record at its cursor. */
  lemma TickReads<E>(s: State<E>)
    requires Live(s) && !s.cancelled && s.tail.Waiting? && s.next <= |s.log|
    ensures var v := Next(s, TailTick);
            v.Some? && v.value.tail.Sending? && v.value == s.(tail := v.value.tail) && v.value.tail.recs != []
  {
    OwedIsTail(s.log, s.next);
  }

  /** Queueing the next record of a tick, when there is room, queues the record at the cursor. */
  lemma EnqueueSends<E>(s: State<E>)
    requires Live(s) && s.tail.Sending? && |s.queue| < s.depth
    ensures var v := Next(s, TailEnqueue);
            && v.Some? && 1 <= s.next <= |s.log| && v.value.queue == s.queue + [Rec(s.log[s.next - 1])]
            && v.value == s.(queue := v.value.queue, next := s.next + 1, tail := v.value.tail)
  {
    NextRecord(s);
  }

  /** In every session not cancelled, whose tail is waiting with a record before it and with room in
      the queue, one tick and one turn of the loop queue exactly that record and do nothing else to
      what is sent. */
  lemma TailSends<E(!new)>(s: State<E>, ls: seq<Label<E>>)
    requires Init(s) && Run(Next, s, ls).Some?
    requires var v := Run(Next, s, ls).value;
             !v.cancelled && v.tail.Waiting? && v.next <= |v.log| && |v.queue| < v.depth
    ensures var v := Run(Next, s, ls).value;
            var u := Run(Next, v, [TailTick, TailEnqueue]);
            && u.Some? && 1 <= v.next && u.value.queue == v.queue + [Rec(v.log[v.next - 1])]
            && u.value.next == v.next + 1 && u.value.written == v.written && u.value.log == v.log && !u.value.cancelled
  {
    LiveRun(s, ls);
    var v := Run(Next, s, ls).value;
    TickReads(v);
    var w := Next(v, TailTick).value;
    LiveStep(v, TailTick);
    EnqueueSends(w);
    RunTwo(Next, v, TailTick, TailEnqueue);
  }

  // ---- the loops left to themselves ----

  /** Steps of the tail and the write loop alone. */
  ghost predicate LoopsOnly<E>(ls: seq<Label<E>>) {
    forall l | l in ls :: l.TailTick? || l.TailEnqueue? || l.WriteOne?
  }

  /** The step to take next: write what is queued, or else queue what was read, or else read. */
  function Turn<E>(s: State<E>): Label<E> {
    if s.queue != [] then WriteOne else if s.tail.Sending? then TailEnqueue else TailTick
  }

  lemma TurnTaken<E>(s: State<E>)
    requires Live(s) && !s.cancelled && s.depth >= 1 && (s.queue != [] || s.tail.Sending? || s.next <= |s.log|)
    ensures var v := Next(s, Turn(s));
            && v.Some? && Live(v.value) && !v.value.cancelled && v.value.depth == s.depth
            && v.value.log == s.log && v.value.from == s.from
            && (if s.queue != [] then v.value.next == s.next && |v.value.queue| < |s.queue| && v.value.tail == s.tail
                else if s.tail.Sending? then v.value.next == s.next + 1 <= |s.log| + 1
                else v.value.next == s.next && v.value.queue == [] && v.value.tail.Sending?)
  {
    if s.queue == [] {
      if s.tail.Sending? {
        EnqueueSends(s);
      } else {
        TickReads(s);
      }
    }
    LiveStep(s, Turn(s));
  }

  lemma Prepend<E>(s: State<E>, l: Label<E>, rest: seq<Label<E>>)
    requires Next(s, l).Some? && LoopsOnly(rest) && LoopsOnly([l])
    ensures LoopsOnly([l] + rest) && Run(Next, s, [l] + rest) == Run(Next, Next(s, l).value, rest)
  {
    assert ([l] + rest)[1..] == rest;
  }

  function Unsent<E>(s: State<E>): nat {
    if s.next <= |s.log| then |s.log| + 1 - s.next else 0
  }

  /** Each turn leaves less to do: to queue, then to write, then to read. */
  lemma TurnCloser<E>(s: State<E>)
    requires Live(s) && !s.cancelled && s.depth >= 1 && (s.queue != [] || s.tail.Sending? || s.next <= |s.log|)
    ensures var v := Next(s, Turn(s));
            && v.Some? && Live(v.value) && !v.value.cancelled && v.value.depth == s.depth
            && v.value.log == s.log && v.value.from == s.from
            && (|| Unsent(v.value) < Unsent(s)
                || (Unsent(v.value) == Unsent(s) && |v.value.queue| < |s.queue|)
                || (Unsent(v.value) == Unsent(s) && |v.value.queue| == |s.queue| && !s.tail.Sending? && v.value.tail.Sending?))
  {
    TurnTaken(s);
    if s.tail.Sending? {
      NextRecord(s);
    }
  }

  lemma Drained<E>(s: State<E>)
    requires Live(s) && !s.cancelled && s.queue == [] && !s.tail.Sending? && s.next > |s.log|
    ensures Recs(s.written) == Owed(s)
  {
    OwedIsTail(s.log, s.next);
    AllSent(s);
    NoneLeft(Recs(s.written), Recs(s.queue), Sent(s));
  }

  lemma {:induction false} Drain<E>(s: State<E>) returns (ls: seq<Label<E>>)
    requires Live(s) && !s.cancelled && s.depth >= 1
    ensures LoopsOnly(ls) && Run(Next, s, ls).Some?
    ensures var v := Run(Next, s, ls).value;
            v.log == s.log && v.from == s.from && v.queue == [] && !v.cancelled && Recs(v.written) == Owed(v)
    decreases Unsent(s), |s.queue|, if s.tail.Sending? then 0 else 1
  {
    if s.queue == [] && !s.tail.Sending? && s.next > |s.log| {
      ls := [];
      Drained(s);
    } else {
      TurnCloser(s);
      ls := Drain(Next(s, Turn(s)).value);
      Prepend(s, Turn(s), ls);
      ls := [Turn(s)] + ls;
    }
  }

  /** From every session that has not been cancelled, when its queue has room for anything at all, some
      run of the two loops alone, with no more appends, ends with exactly what it owes written. */
  lemma DeliversAll<E(!new)>(s: State<E>, ls: seq<Label<E>>)
    requires Init(s) && s.depth >= 1 && Run(Next, s, ls).Some? && !Run(Next, s, ls).value.cancelled
    ensures var v := Run(Next, s, ls).value;
            exists more :: LoopsOnly(more) && Run(Next, v, more).Some?
              && var u := Run(Next, v, more).value; u.log == v.log && Recs(u.written) == Owed(v)
  {
    LiveRun(s, ls);
    DepthRun(s, ls);
    var more := Drain(Run(Next, s, ls).value);
  }

  lemma {:induction false} DepthRun<E>(s: State<E>, ls: seq<Label<E>>)
    requires Run(Next, s, ls).Some?
    ensures Run(Next, s, ls).value.depth == s.depth
    decreases |ls|
  {
    if ls != [] {
      DepthRun(Next(s, ls[0]).value, ls[1..]);
    }
  }

  // ---- a cancelled session ----

  /** What the tail has read and not yet queued. */
  function Read<E>(s: State<E>): seq<Record<E>> {
    if s.tail.Sending? then s.tail.recs else []
  }

  lemma CancelledStep<E>(s: State<E>, l: Label<E>)
    requires Live(s) && s.cancelled && Next(s, l).Some?
    ensures var v := Next(s, l).value;
            v.cancelled && s.next <= v.next && v.next + |Read(v)| <= s.next + |Read(s)|
  {
    if l.TailEnqueue? {
      NextRecord(s);
      CancelledEnqueue(s);
    } else {
      CancelledOther(s, l);
    }
  }

  lemma CancelledEnqueue<E>(s: State<E>)
    requires s.cancelled && s.tail.Sending? && |s.tail.recs| > 0 && s.tail.recs[0].seqNo == s.next
    ensures var v := Next(s, TailEnqueue).value;
            v.cancelled && s.next <= v.next && v.next + |Read(v)| <= s.next + |Read(s)|
  {
  }

  lemma CancelledOther<E>(s: State<E>, l: Label<E>)
    requires s.cancelled && Next(s, l).Some? && !l.TailEnqueue?
    ensures var v := Next(s, l).value; v.cancelled && v.next == s.next && |Read(v)| <= |Read(s)|
  {
  }

  lemma {:induction false} CancelledRun<E>(s: State<E>, ls: seq<Label<E>>)
    requires Live(s) && s.cancelled && Run(Next, s, ls).Some?
    ensures var v := Run(Next, s, ls).value; v.cancelled && s.next <= v.next <= s.next + |Read(s)|
    ensures var v := Run(Next, s, ls).value; v.next + |Read(v)| <= s.next + |Read(s)|
    decreases |ls|
  {
    if ls != [] {
      CancelledStep(s, ls[0]);
      LiveStep(s, ls[0]);
      CancelledRun(Next(s, ls[0]).value, ls[1..]);
    }
  }

  /** Once cancelled, whatever follows, a session queues at most what its tail had read by then, the
      first of it first; a tail between two ticks queues no record any more. */
  lemma CancelledQueuesNoMore<E(!new)>(s: State<E>, ls: seq<Label<E>>, more: seq<Label<E>>)
    requires Init(s) && Run(Next, s, ls).Some? && Run(Next, s, ls).value.cancelled
    requires Run(Next, Run(Next, s, ls).value, more).Some?
    ensures var v := Run(Next, s, ls).value;
            var u := Run(Next, v, more).value;
            && u.cancelled && Sent(v) <= Sent(u) <= Sent(v) + Read(v)
            && (!v.tail.Sending? ==> Sent(u) == Sent(v))
  {
    LiveRun(s, ls);
    var v := Run(Next, s, ls).value;
    LiveRun(v, more);
    RunGrows(v, more);
    CancelledRun(v, more);
    SentWithin(v, Run(Next, v, more).value);
  }

  lemma ReadIs<E>(v: State<E>)
    requires Inv(v) && Read(v) != []
    ensures 1 <= v.from <= v.next && v.next - 1 + |Read(v)| <= |v.log| && Read(v) <= v.log[v.next - 1..]
  {
    OwedIsTail(v.log, v.next);
  }

  lemma SentWithin<E>(v: State<E>, u: State<E>)
    requires Inv(v) && Inv(u) && v.log <= u.log && u.from == v.from && v.next <= u.next <= v.next + |Read(v)|
    ensures Sent(v) <= Sent(u) <= Sent(v) + Read(v)
    ensures Read(v) == [] ==> Sent(u) == Sent(v)
  {
    if u.next == v.next {
      SentFrozen(v, u);
      PrefixOfMore(Sent(v), Read(v));
    } else {
      ReadIs(v);
      SentMore(v, u);
    }
  }

  lemma SentMore<E>(v: State<E>, u: State<E>)
    requires v.log <= u.log && 1 <= v.from == u.from <= v.next < u.next <= v.next + |Read(v)|
    requires v.next - 1 + |Read(v)| <= |v.log| && Read(v) <= v.log[v.next - 1..]
    ensures Sent(v) <= Sent(u) <= Sent(v) + Read(v)
  {
    SentIs(v, v.next);
    SentIs(u, u.next);
    Stretch(v.log, u.log, v.from - 1, v.next - 1, Read(v), u.next - 1);
  }

  lemma PrefixOfMore<T>(a: seq<T>, b: seq<T>)
    ensures a <= a + b
  {
  }

  lemma SentIs<E>(v: State<E>, next: nat)
    requires v.next == next && 1 <= v.from <= next <= |v.log| + 1
    ensures Sent(v) == v.log[v.from - 1..next - 1]
  {
  }

  lemma Stretch<T>(small: seq<T>, log: seq<T>, i: nat, j: nat, recs: seq<T>, k: nat)
    requires small <= log && i <= j <= k <= j + |recs| <= |small| && recs <= small[j..]
    ensures small[i..j] <= log[i..k] <= small[i..j] + recs
  {
    forall x | j <= x < k
      ensures log[x] == recs[x - j]
    {
      assert small[j..][x - j] == recs[x - j];
    }
  }

  // ---- every frame ----

  /** The frame a step puts in the queue: a full queue takes none. */
  function Queues<E>(s: State<E>, l: Label<E>): seq<Item<E>> {
    if |s.queue| >= s.depth then []
    else
      match l
      case Ping => [Pong]
      case TailHeartbeat => [Heartbeat]
      case TailEnqueue => if 1 <= s.next <= |s.log| then [Rec(s.log[s.next - 1])] else []
      case _ => []
  }

  /** The frames begun and those still queued. */
  function All<E>(s: State<E>): seq<Item<E>> {
    Begun(s) + s.queue
  }

  /** A frame for which there is no room ends the session as one that is behind. */
  lemma FullQueueCancels<E>(s: State<E>, l: Label<E>)
    requires |s.queue| >= s.depth && Next(s, l).Some? && (l.Ping? || l.TailHeartbeat? || l.TailEnqueue?)
    ensures var v := Next(s, l).value;
            && v == s.(cancelled := true, disconnect := Behind, tail := v.tail)
            && (if l.TailEnqueue? then v.tail.Returned? else v.tail == s.tail)
  {
  }

  lemma AllStep<E>(s: State<E>, l: Label<E>)
    requires Live(s) && Next(s, l).Some?
    ensures All(Next(s, l).value) == All(s) + Queues(s, l)
  {
    if l.WriteOne? || l.WriteFails? {
      WriteShifts(s, l);
    } else {
      if l.TailEnqueue? {
        NextRecord(s);
      }
      StepQueues(s, l);
      Joined(Begun(s), s.queue, Queues(s, l));
    }
  }

  lemma WriteShifts<E>(s: State<E>, l: Label<E>)
    requires Live(s) && Next(s, l).Some? && (l.WriteOne? || l.WriteFails?)
    ensures All(Next(s, l).value) == All(s) + Queues(s, l)
  {
    assert s.failed == [] && Begun(s) == s.written;
    Popped(s.written, s.queue);
    assert Begun(Next(s, l).value) == s.written + [s.queue[0]];
  }

  lemma StepQueues<E>(s: State<E>, l: Label<E>)
    requires Next(s, l).Some? && !l.WriteOne? && !l.WriteFails?
    requires l.TailEnqueue? ==> 1 <= s.next <= |s.log| && s.tail.recs[0] == s.log[s.next - 1]
    ensures var v := Next(s, l).value;
            v.written == s.written && v.failed == s.failed && v.queue == s.queue + Queues(s, l)
  {
  }

  lemma Joined<T>(a: seq<T>, b: seq<T>, c: seq<T>)
    ensures a + (b + c) == a + b + c
  {
  }

  lemma Popped<T>(a: seq<T>, q: seq<T>)
    requires q != []
    ensures a + [q[0]] + q[1..] == a + q
  {
  }

  lemma {:induction false} AllRun<E>(s: State<E>, ls: seq<Label<E>>)
    requires Live(s) && Run(Next, s, ls).Some?
    ensures All(Run(Next, s, ls).value) == All(s) + Outputs(Next, Queues, s, ls)
    decreases |ls|
  {
    if ls != [] {
      LiveStep(s, ls[0]);
      AllStep(s, ls[0]);
      AllRun(Next(s, ls[0]).value, ls[1..]);
      Joined(All(s), Queues(s, ls[0]), Outputs(Next, Queues, Next(s, ls[0]).value, ls[1..]));
    }
  }

  /** Over every run the frames begun and queued are exactly those that its pings, heartbeats and
      records queued, each once and in that order: every ping not met by a full queue is answered. */
  lemma EveryFrameOnce<E>(s: State<E>, ls: seq<Label<E>>)
    requires Init(s) && Run(Next, s, ls).Some?
    ensures All(Run(Next, s, ls).value) == Outputs(Next, Queues, s, ls)
  {
    AllRun(s, ls);
    assert All(s) == [];
  }
}
