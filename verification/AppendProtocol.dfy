/**
 The cross-process append protocol as a state machine: any number of handles, in any
 number of processes, on one directory. Every label is one step that other handles'
 steps can come before or after.
 */
module AppendProtocol {
  import opened Wrappers
  import opened EventLog
  import opened Directory
  import opened Runs

  type Id = nat

  /** Where a handle is in `NewFileStore` or `Append`. */
  datatype Pc<+E> =
    | Opening(seen: nat)                     // latest sequence recovered, not yet written back
    | Idle
    | Waiting(batch: seq<E>)                 // blocked on the cross-process lock
    | Locked(batch: seq<E>)
    | Synced(batch: seq<E>)                  // `latest` re-read under the lock
    | Writing(batch: seq<E>, done: nat)      // journal rotated, `done` records written
    | Persisted
    | Closed

  datatype Handle<+E> = Handle(latest: nat, current: Day, pc: Pc<E>)

  /** What the processes share, and their handles. */
  datatype World<+E> = World(
    dir: seq<DayFile<Record<E>>>,
    cell: Option<nat>,                       // the latest-sequence file
    clock: Day,
    lock: Option<Id>,
    handles: map<Id, Handle<E>>)

  datatype Label<+E> =
    | Tick(day: Day)
    | OpenRead(h: Id) | OpenFinish(h: Id)
    | Call(h: Id, batch: seq<E>) | Acquire(h: Id) | Resync(h: Id) | Rotate(h: Id)
    | Write(h: Id) | Persist(h: Id) | Release(h: Id)
    | Close(h: Id) | Crash(h: Id)

  function Log<E>(w: World<E>): seq<Record<E>> {
    Concat(w.dir)
  }

  /** Recovery when there is no state file: the largest last sequence of any journal. */
  function ScanLatest<E>(dir: seq<DayFile<Record<E>>>): nat {
    if dir == [] then 0
    else
      var rest, recs := ScanLatest(dir[1..]), dir[0].content;
      if recs != [] && recs[|recs| - 1].seqNo > rest then recs[|recs| - 1].seqNo else rest
  }

  /** The latest sequence a handle recovers: the state file's when there is one. */
  function Seen<E>(w: World<E>): nat {
    if w.cell.Some? then w.cell.value else ScanLatest(w.dir)
  }

  function Put<E>(w: World<E>, h: Id, s: Handle<E>): World<E> {
    w.(handles := w.handles[h := s])
  }

  /** The world after a step, or None where the step cannot be taken. */
  function Next<E>(w: World<E>, l: Label<E>): Option<World<E>> {
    match l
    case Tick(day) => if day < w.clock then None else Some(w.(clock := day))
    case OpenRead(h) =>
      if h in w.handles then None else Some(Put(w, h, Handle(Seen(w), w.clock, Opening(Seen(w)))))
    case Crash(h) =>
      if h !in w.handles then None
      else Some(w.(handles := w.handles - {h}, lock := if w.lock == Some(h) then None else w.lock))
    case _ => if l.h !in w.handles then None else HandleStep(w, l, w.handles[l.h])
  }

  /** The recovered sequence written back, and the day's journal opened. */
  function Opened<E>(w: World<E>, h: Id, seen: nat): World<E> {
    Put(w.(cell := Some(seen), dir := OpenDay(w.dir, w.clock)), h, Handle(seen, w.clock, Idle))
  }

  /** One record of the batch written. */
  function OneWrite<E>(w: World<E>, h: Id, s: Handle<E>): World<E>
    requires s.pc.Writing? && s.pc.done < |s.pc.batch|
  {
    var rec := Record(s.latest + 1, s.pc.batch[s.pc.done]);
    Put(w.(dir := AppendTo(w.dir, s.current, [rec])), h,
        s.(latest := s.latest + 1, pc := Writing(s.pc.batch, s.pc.done + 1)))
  }

  function HandleStep<E>(w: World<E>, l: Label<E>, s: Handle<E>): Option<World<E>>
    requires !l.Tick? && !l.OpenRead?
  {
    match (l, s.pc)
    case (OpenFinish(h), Opening(seen)) =>
      Some(Opened(w, h, seen))
    case (Call(h, batch), Idle) =>
      if batch == [] then Some(w) else Some(Put(w, h, s.(pc := Waiting(batch))))
    case (Acquire(h), Waiting(batch)) =>
      if w.lock.Some? then None else Some(Put(w.(lock := Some(h)), h, s.(pc := Locked(batch))))
    case (Resync(h), Locked(batch)) =>
      var latest := if w.cell.Some? && w.cell.value > s.latest then w.cell.value else s.latest;
      Some(Put(w, h, s.(latest := latest, pc := Synced(batch))))
    case (Rotate(h), Synced(batch)) =>
      if s.current == w.clock then Some(Put(w, h, s.(pc := Writing(batch, 0))))
      else Some(Put(w.(dir := OpenDay(w.dir, w.clock)), h, s.(current := w.clock, pc := Writing(batch, 0))))
    case (Write(h), Writing(batch, done)) =>
      if done >= |batch| then None else Some(OneWrite(w, h, s))
    case (Persist(h), Writing(batch, done)) =>
      if done < |batch| then None else Some(Put(w.(cell := Some(s.latest)), h, s.(pc := Persisted)))
    case (Release(h), Persisted) => Some(Put(w.(lock := None), h, s.(pc := Idle)))
    case (Close(h), Idle) => Some(Put(w, h, s.(pc := Closed)))
    case _ => None
  }

  // ---- what every step keeps ----

  predicate InSection<E>(pc: Pc<E>) {
    pc.Locked? || pc.Synced? || pc.Writing? || pc.Persisted?
  }

  /** Records already in the journals that no `Append` has yet committed. */
  function Pending<E>(w: World<E>): nat {
    if w.lock.Some? && w.lock.value in w.handles && w.handles[w.lock.value].pc.Writing?
    then w.handles[w.lock.value].pc.done else 0
  }

  /** The lock holder has re-read the state cell and not yet rewritten it. */
  predicate MidSection<E>(w: World<E>) {
    && w.lock.Some? && w.lock.value in w.handles
    && (w.handles[w.lock.value].pc.Synced? || w.handles[w.lock.value].pc.Writing?)
  }

  ghost predicate HandleOk<E>(w: World<E>, s: Handle<E>) {
    var n := |Log(w)|;
    match s.pc
    case Opening(seen) => seen + Pending(w) <= n && (w.cell.None? ==> seen == n)
    case Synced(_) => s.latest == n && s.current <= w.clock && HasDay(w.dir, s.current)
    case Writing(batch, done) =>
      && s.latest == n && done <= |batch| && done <= n
      && HasDay(w.dir, s.current) && QuietAfter(w.dir, s.current)
      && s.current <= w.clock
      && (forall i {:trigger batch[i]} | 0 <= i < done :: Log(w)[n - done + i].event == batch[i])
    case Persisted => s.latest == n && s.current <= w.clock && HasDay(w.dir, s.current)
    case _ => s.latest + Pending(w) <= n && s.current <= w.clock && HasDay(w.dir, s.current)
  }

  ghost predicate CellOk<E>(w: World<E>) {
    match w.cell
    case None => forall h | h in w.handles :: w.handles[h].pc.Opening?
    case Some(c) => c + Pending(w) <= |Log(w)| && (MidSection(w) || c == |Log(w)|)
  }

  ghost predicate LockOk<E>(w: World<E>) {
    && (w.lock.Some? ==> w.lock.value in w.handles)
    && forall h | h in w.handles :: InSection(w.handles[h].pc) <==> w.lock == Some(h)
  }

  ghost predicate Inv<E>(w: World<E>) {
    && Sorted(w.dir) && NoneAfter(w.dir, w.clock) && Numbered(Log(w))
    && LockOk(w) && CellOk(w)
    && forall h | h in w.handles :: HandleOk(w, w.handles[h])
  }

  /** The two hazards the code leaves open when each persist is one atomic replacement. Finishing to
      open rewrites the state cell without the lock; dying inside the critical section leaves it behind
      the journals. */
  predicate Safe<E>(w: World<E>, l: Label<E>) {
    match l
    case OpenFinish(h) =>
      h in w.handles && w.handles[h].pc.Opening? ==>
        w.cell.None? || w.cell.value == w.handles[h].pc.seen || MidSection(w)
    case Crash(h) => w.lock == Some(h) ==> w.cell == Some(|Log(w)|)
    case _ => true
  }

  /** The committed events: the state of the simple store this protocol stands for. */
  function Committed<E>(w: World<E>): seq<E> {
    Events(Log(w)[..if Pending(w) <= |Log(w)| then |Log(w)| - Pending(w) else 0])
  }

  function Events<E>(log: seq<Record<E>>): seq<E> {
    seq(|log|, i requires 0 <= i < |log| => log[i].event)
  }

  /** What the simple store appends at a step: one whole batch when an `Append` persists. */
  function Effect<E>(w: World<E>, l: Label<E>): seq<E> {
    if l.Persist? && l.h in w.handles && w.handles[l.h].pc.Writing? then w.handles[l.h].pc.batch else []
  }

  /** A directory nobody has open: any numbered journals, with the state file or without it. */
  ghost predicate Init<E>(w: World<E>) {
    && Sorted(w.dir) && NoneAfter(w.dir, w.clock) && Numbered(Log(w))
    && (w.cell.Some? ==> w.cell.value == |Log(w)|)
    && w.lock == None && w.handles == map[]
  }

  lemma InitInv<E>(w: World<E>)
    requires Init(w)
    ensures Inv(w) && Committed(w) == Events(Log(w))
  {
    assert Log(w)[..|Log(w)|] == Log(w);
  }

  // ---- one lemma a kind of step ----

  lemma {:induction false} ScanLatestIsLast<E>(dir: seq<DayFile<Record<E>>>, base: nat)
    requires NumberedAfter(Concat(dir), base)
    ensures ScanLatest(dir) == if Concat(dir) == [] then 0 else base + |Concat(dir)|
  {
    if dir != [] {
      var recs, rest := dir[0].content, Concat(dir[1..]);
      var all := Concat(dir);
      forall i {:trigger rest[i]} | 0 <= i < |rest|
        ensures rest[i].seqNo == base + |recs| + i + 1
      {
        assert all[|recs| + i] == rest[i];
      }
      ScanLatestIsLast(dir[1..], base + |recs|);
      if recs != [] {
        assert all[|recs| - 1] == recs[|recs| - 1];
      }
    }
  }

  /** Other handles do not notice a step that leaves the log alone. */
  ghost predicate Unnoticed<E>(w: World<E>, v: World<E>, h: Id) {
    && Log(v) == Log(w) && v.clock == w.clock
    && (forall k | k != h :: k in v.handles <==> k in w.handles)
    && (forall k | k in v.handles && k != h :: v.handles[k] == w.handles[k])
    && (forall d | HasDay(w.dir, d) :: HasDay(v.dir, d))
    && (forall d | QuietAfter(w.dir, d) :: QuietAfter(v.dir, d))
    && Pending(v) <= Pending(w)
    && (v.cell.None? ==> w.cell.None?)
  }

  lemma OthersUnnoticed<E>(w: World<E>, v: World<E>, h: Id)
    requires Inv(w) && Unnoticed(w, v, h)
    ensures forall k | k in v.handles && k != h :: HandleOk(v, v.handles[k])
  {
    forall k | k in v.handles && k != h
      ensures HandleOk(v, v.handles[k])
    {
      assert HandleOk(w, w.handles[k]);
    }
  }

  lemma OpenedDir<E>(w: World<E>)
    requires Sorted(w.dir) && NoneAfter(w.dir, w.clock)
    ensures var dir := OpenDay(w.dir, w.clock);
            && Sorted(dir) && NoneAfter(dir, w.clock) && HasDay(dir, w.clock)
            && Concat(dir) == Log(w)
            && (forall d | HasDay(w.dir, d) :: HasDay(dir, d))
            && (forall d | QuietAfter(w.dir, d) :: QuietAfter(dir, d))
  {
    OpenDaySorted(w.dir, w.clock);
    OpenDayMembers(w.dir, w.clock);
    var dir := OpenDay(w.dir, w.clock);
    forall d | HasDay(w.dir, d)
      ensures HasDay(dir, d)
    {
      var j :| j in w.dir && j.day == d;
      assert j in dir;
    }
  }

  lemma OpenReadStep<E>(w: World<E>, h: Id)
    requires Inv(w) && h !in w.handles
    ensures Inv(Next(w, OpenRead(h)).value)
  {
    var v := Put(w, h, Handle(Seen(w), w.clock, Opening(Seen(w))));
    assert Next(w, OpenRead(h)) == Some(v);
    ScanLatestIsLast(w.dir, 0);
    assert Pending(v) == Pending(w);
    OthersUnnoticed(w, v, h);
    assert HandleOk(v, v.handles[h]);
  }

  lemma OpenFinishIs<E>(w: World<E>, h: Id)
    requires Next(w, OpenFinish(h)).Some?
    ensures h in w.handles && w.handles[h].pc.Opening?
    ensures Next(w, OpenFinish(h)).value == Opened(w, h, w.handles[h].pc.seen)
  {
  }

  lemma OpenedLock<E>(w: World<E>, h: Id, seen: nat)
    requires LockOk(w) && h in w.handles && w.handles[h].pc.Opening?
    ensures var v := Opened(w, h, seen);
            && LockOk(v) && Pending(v) == Pending(w)
            && v.dir == OpenDay(w.dir, w.clock) && v.clock == w.clock && v.cell.Some?
            && (forall k | k != h :: k in v.handles <==> k in w.handles)
            && (forall k | k in v.handles && k != h :: v.handles[k] == w.handles[k])
  {
  }

  lemma OpenedUnnoticed<E>(w: World<E>, h: Id, seen: nat)
    requires Sorted(w.dir) && NoneAfter(w.dir, w.clock) && LockOk(w)
    requires h in w.handles && w.handles[h].pc == Opening(seen)
    ensures var v := Opened(w, h, seen);
            && Unnoticed(w, v, h) && Sorted(v.dir) && NoneAfter(v.dir, v.clock) && HasDay(v.dir, v.clock)
            && Pending(v) == Pending(w) && LockOk(v)
  {
    OpenedDir(w);
    OpenedLock(w, h, seen);
  }

  lemma OpenFinishSafe<E>(w: World<E>, h: Id)
    requires Inv(w) && Next(w, OpenFinish(h)).Some? && Safe(w, OpenFinish(h))
    ensures Inv(Next(w, OpenFinish(h)).value)
  {
    OpenFinishIs(w, h);
    var seen := w.handles[h].pc.seen;
    var v := Opened(w, h, seen);
    OpenedUnnoticed(w, h, seen);
    assert HandleOk(w, w.handles[h]);
    OthersUnnoticed(w, v, h);
    assert HandleOk(v, v.handles[h]);
  }

  lemma OpenFinishUnsafe<E>(w: World<E>, h: Id)
    requires Inv(w) && Next(w, OpenFinish(h)).Some? && !Safe(w, OpenFinish(h))
    ensures !CellOk(Next(w, OpenFinish(h)).value)
  {
    OpenFinishIs(w, h);
    OpenedUnnoticed(w, h, w.handles[h].pc.seen);
    assert HandleOk(w, w.handles[h]);
  }

  lemma OpenFinishStep<E>(w: World<E>, h: Id)
    requires Inv(w) && Next(w, OpenFinish(h)).Some?
    ensures Inv(Next(w, OpenFinish(h)).value) <==> Safe(w, OpenFinish(h))
  {
    if Safe(w, OpenFinish(h)) {
      OpenFinishSafe(w, h);
    } else {
      OpenFinishUnsafe(w, h);
    }
  }

  lemma CrashStep<E>(w: World<E>, h: Id)
    requires Inv(w) && h in w.handles
    ensures Inv(Next(w, Crash(h)).value) <==> Safe(w, Crash(h))
  {
    var v := Next(w, Crash(h)).value;
    if w.lock == Some(h) {
      assert HandleOk(w, w.handles[h]);
    }
    OthersUnnoticed(w, v, h);
  }

  lemma CallStep<E>(w: World<E>, h: Id, batch: seq<E>)
    requires Inv(w) && Next(w, Call(h, batch)).Some?
    ensures Inv(Next(w, Call(h, batch)).value)
  {
    var s := w.handles[h];
    assert s.pc.Idle? && HandleOk(w, s);
    if batch != [] {
      OutsideMoves(w, h, s.(pc := Waiting(batch)));
    }
  }

  /** A handle outside the section that moves on outside it disturbs nothing shared. */
  lemma OutsideMoves<E>(w: World<E>, h: Id, s: Handle<E>)
    requires Inv(w) && h in w.handles && !InSection(w.handles[h].pc) && !w.handles[h].pc.Opening?
    requires !InSection(s.pc) && !s.pc.Opening? && HandleOk(w, s)
    ensures Inv(Put(w, h, s))
  {
    var v := Put(w, h, s);
    assert w.lock != Some(h);
    assert LockOk(v) && Pending(v) == Pending(w) && MidSection(v) == MidSection(w);
    OthersUnnoticed(w, v, h);
  }

  lemma CloseStep<E>(w: World<E>, h: Id)
    requires Inv(w) && Next(w, Close(h)).Some?
    ensures Inv(Next(w, Close(h)).value)
  {
    var s := w.handles[h];
    var v := Put(w, h, s.(pc := Closed));
    assert s.pc.Idle? && Next(w, Close(h)) == Some(v);
    assert HandleOk(w, s);
    OutsideMoves(w, h, s.(pc := Closed));
  }

  lemma AcquireStep<E>(w: World<E>, h: Id)
    requires Inv(w) && Next(w, Acquire(h)).Some?
    ensures Inv(Next(w, Acquire(h)).value)
  {
    assert HandleOk(w, w.handles[h]);
    OthersUnnoticed(w, Next(w, Acquire(h)).value, h);
  }

  lemma ResyncStep<E>(w: World<E>, h: Id)
    requires Inv(w) && Next(w, Resync(h)).Some?
    ensures Inv(Next(w, Resync(h)).value)
  {
    assert HandleOk(w, w.handles[h]);
    OthersUnnoticed(w, Next(w, Resync(h)).value, h);
  }

  lemma PersistStep<E>(w: World<E>, h: Id)
    requires Inv(w) && Next(w, Persist(h)).Some?
    ensures Inv(Next(w, Persist(h)).value)
  {
    var s := w.handles[h];
    var v := Put(w.(cell := Some(s.latest)), h, s.(pc := Persisted));
    assert s.pc.Writing? && Next(w, Persist(h)) == Some(v);
    assert HandleOk(w, s);
    OthersUnnoticed(w, v, h);
    assert HandleOk(v, v.handles[h]);
  }

  lemma ReleaseStep<E>(w: World<E>, h: Id)
    requires Inv(w) && Next(w, Release(h)).Some?
    ensures Inv(Next(w, Release(h)).value)
  {
    var s := w.handles[h];
    var v := Put(w.(lock := None), h, s.(pc := Idle));
    assert s.pc.Persisted? && Next(w, Release(h)) == Some(v);
    assert HandleOk(w, s);
    assert Pending(v) == 0;
    OthersUnnoticed(w, v, h);
    assert HandleOk(v, v.handles[h]);
  }

  lemma TickStep<E>(w: World<E>, day: Day)
    requires Inv(w) && day >= w.clock
    ensures Inv(w.(clock := day))
  {
    var v := w.(clock := day);
    forall k | k in v.handles
      ensures HandleOk(v, v.handles[k])
    {
      assert HandleOk(w, w.handles[k]);
    }
  }

  lemma RotateStep<E>(w: World<E>, h: Id)
    requires Inv(w) && Next(w, Rotate(h)).Some?
    ensures Inv(Next(w, Rotate(h)).value)
  {
    assert HandleOk(w, w.handles[h]);
    var dir := if w.handles[h].current == w.clock then w.dir else OpenDay(w.dir, w.clock);
    RotateIs(w, h, dir);
    OpenedDir(w);
    NothingLater(dir, w.clock);
    RotateInto(w, h, dir);
  }

  lemma RotateIs<E>(w: World<E>, h: Id, dir: seq<DayFile<Record<E>>>)
    requires Next(w, Rotate(h)).Some?
    requires dir == if w.handles[h].current == w.clock then w.dir else OpenDay(w.dir, w.clock)
    ensures w.handles[h].pc.Synced?
    ensures Next(w, Rotate(h)).value
         == Put(w.(dir := dir), h, w.handles[h].(current := w.clock, pc := Writing(w.handles[h].pc.batch, 0)))
  {
  }

  lemma NothingLater<T>(dir: seq<DayFile<T>>, day: Day)
    requires NoneAfter(dir, day)
    ensures QuietAfter(dir, day)
  {
  }

  lemma RotateInto<E>(w: World<E>, h: Id, dir: seq<DayFile<Record<E>>>)
    requires Inv(w) && h in w.handles && w.handles[h].pc.Synced?
    requires Sorted(dir) && NoneAfter(dir, w.clock) && Concat(dir) == Log(w)
    requires HasDay(dir, w.clock) && QuietAfter(dir, w.clock)
    requires forall d | HasDay(w.dir, d) :: HasDay(dir, d)
    requires forall d | QuietAfter(w.dir, d) :: QuietAfter(dir, d)
    ensures Inv(Put(w.(dir := dir), h, w.handles[h].(current := w.clock, pc := Writing(w.handles[h].pc.batch, 0))))
  {
    var v := Put(w.(dir := dir), h, w.handles[h].(current := w.clock, pc := Writing(w.handles[h].pc.batch, 0)));
    assert HandleOk(w, w.handles[h]);
    assert Pending(v) == Pending(w);
    OthersUnnoticed(w, v, h);
    assert HandleOk(v, v.handles[h]);
  }

  /** Writing extends the log by the next record of the batch. */
  lemma WriteExtends<E>(w: World<E>, h: Id)
    requires Inv(w) && Next(w, Write(h)).Some?
    ensures var v, s := Next(w, Write(h)).value, w.handles[h];
            && v == OneWrite(w, h, s)
            && Log(v) == Log(w) + [Record(|Log(w)| + 1, s.pc.batch[s.pc.done])]
            && Sorted(v.dir) && NoneAfter(v.dir, v.clock) && Numbered(Log(v))
            && (forall d | HasDay(w.dir, d) :: HasDay(v.dir, d))
            && QuietAfter(v.dir, s.current)
  {
    var s := w.handles[h];
    assert HandleOk(w, s);
    WrittenExtends(w, h, s);
  }

  lemma WrittenExtends<E>(w: World<E>, h: Id, s: Handle<E>)
    requires Sorted(w.dir) && NoneAfter(w.dir, w.clock) && Numbered(Log(w))
    requires s.pc.Writing? && s.pc.done < |s.pc.batch| && s.latest == |Log(w)|
    requires HasDay(w.dir, s.current) && QuietAfter(w.dir, s.current) && s.current <= w.clock
    ensures var v := OneWrite(w, h, s);
            && Log(v) == Log(w) + [Record(|Log(w)| + 1, s.pc.batch[s.pc.done])]
            && Sorted(v.dir) && NoneAfter(v.dir, v.clock) && Numbered(Log(v))
            && (forall d | HasDay(w.dir, d) :: HasDay(v.dir, d))
            && QuietAfter(v.dir, s.current)
  {
    var rec := Record(s.latest + 1, s.pc.batch[s.pc.done]);
    GrownDir(w.dir, s.current, rec, w.clock);
    NumberedNext(Log(w), rec);
  }

  lemma NumberedNext<E>(log: seq<Record<E>>, rec: Record<E>)
    requires Numbered(log) && rec.seqNo == |log| + 1
    ensures Numbered(log + [rec])
  {
  }

  lemma GrownDir<T>(dir: seq<DayFile<T>>, day: Day, x: T, clock: Day)
    requires Sorted(dir) && NoneAfter(dir, clock) && HasDay(dir, day) && QuietAfter(dir, day) && day <= clock
    ensures var grown := AppendTo(dir, day, [x]);
            && Sorted(grown) && NoneAfter(grown, clock) && QuietAfter(grown, day)
            && Concat(grown) == Concat(dir) + [x]
            && (forall d | HasDay(dir, d) :: HasDay(grown, d))
  {
    AppendToSorted(dir, day, [x]);
    AppendToMembers(dir, day, [x]);
    AppendToConcat(dir, day, [x]);
    forall d | HasDay(dir, d)
      ensures HasDay(AppendTo(dir, day, [x]), d)
    {
      AppendToHasDay(dir, day, [x], d);
    }
  }

  lemma WrittenHolder<E>(w: World<E>, h: Id)
    requires Inv(w) && Next(w, Write(h)).Some?
    ensures HandleOk(Next(w, Write(h)).value, Next(w, Write(h)).value.handles[h])
  {
    var s := w.handles[h];
    assert HandleOk(w, s);
    WriteExtends(w, h);
    WriterOk(w, OneWrite(w, h, s), h, s);
  }

  lemma WriterOk<E>(w: World<E>, v: World<E>, h: Id, s: Handle<E>)
    requires s.pc.Writing? && s.pc.done < |s.pc.batch| && v == OneWrite(w, h, s) && HandleOk(w, s)
    requires Log(v) == Log(w) + [Record(|Log(w)| + 1, s.pc.batch[s.pc.done])]
    requires QuietAfter(v.dir, s.current) && forall d | HasDay(w.dir, d) :: HasDay(v.dir, d)
    ensures HandleOk(v, v.handles[h])
  {
    NextOfBatch(Log(w), s.pc.batch, s.pc.done);
  }

  /** The last `done` events of the log are the first of the batch, and one more after a write. */
  lemma NextOfBatch<E>(log: seq<Record<E>>, batch: seq<E>, done: nat)
    requires done < |batch| && done <= |log|
    requires forall i {:trigger batch[i]} | 0 <= i < done :: log[|log| - done + i].event == batch[i]
    ensures var more := log + [Record(|log| + 1, batch[done])];
            forall i {:trigger batch[i]} | 0 <= i < done + 1 :: more[|more| - (done + 1) + i].event == batch[i]
  {
  }

  /** The handles that do not hold the lock, after the one that does has written. */
  lemma OthersAfterWrite<E>(w: World<E>, h: Id)
    requires Inv(w) && Next(w, Write(h)).Some?
    ensures var v := OneWrite(w, h, w.handles[h]); forall k | k in v.handles && k != h :: HandleOk(v, v.handles[k])
  {
    var v := OneWrite(w, h, w.handles[h]);
    WriteExtends(w, h);
    assert Pending(v) == Pending(w) + 1;
    forall k | k in v.handles && k != h
      ensures HandleOk(v, v.handles[k])
    {
      assert HandleOk(w, w.handles[k]) && !InSection(w.handles[k].pc);
    }
  }

  lemma WriteStep<E>(w: World<E>, h: Id)
    requires Inv(w) && Next(w, Write(h)).Some?
    ensures Inv(Next(w, Write(h)).value)
  {
    var v := OneWrite(w, h, w.handles[h]);
    WriteExtends(w, h);
    WrittenHolder(w, h);
    OthersAfterWrite(w, h);
    assert LockOk(v);
    assert CellOk(v);
  }

  /** A step from a good world leads to a good world exactly when it is none of the two hazards. */
  lemma StepKeepsInvIffSafe<E>(w: World<E>, l: Label<E>)
    requires Inv(w) && Next(w, l).Some?
    ensures Inv(Next(w, l).value) <==> Safe(w, l)
  {
    match l {
      case Tick(day) => TickStep(w, day);
      case OpenRead(h) => OpenReadStep(w, h);
      case OpenFinish(h) => OpenFinishStep(w, h);
      case Crash(h) => CrashStep(w, h);
      case Rotate(h) => RotateStep(w, h);
      case Write(h) => WriteStep(w, h);
      case Call(h, batch) => CallStep(w, h, batch);
      case Close(h) => CloseStep(w, h);
      case Acquire(h) => AcquireStep(w, h);
      case Resync(h) => ResyncStep(w, h);
      case Persist(h) => PersistStep(w, h);
      case Release(h) => ReleaseStep(w, h);
    }
  }

  // ---- refinement of an atomic append ----

  /** A step that leaves the log, and what is pending of it, alone. */
  ghost predicate SameLog<E>(w: World<E>, v: World<E>) {
    Log(v) == Log(w) && Pending(v) == Pending(w)
  }

  lemma OpenKeepsLog<E>(w: World<E>, h: Id)
    requires Inv(w) && Next(w, OpenFinish(h)).Some?
    ensures SameLog(w, Next(w, OpenFinish(h)).value)
  {
    OpenFinishIs(w, h);
    OpenedUnnoticed(w, h, w.handles[h].pc.seen);
  }

  lemma RotateKeepsLog<E>(w: World<E>, h: Id)
    requires Inv(w) && Next(w, Rotate(h)).Some?
    ensures SameLog(w, Next(w, Rotate(h)).value)
  {
    RotateIs(w, h, if w.handles[h].current == w.clock then w.dir else OpenDay(w.dir, w.clock));
    OpenedDir(w);
  }

  lemma CrashKeepsLog<E>(w: World<E>, h: Id)
    requires Inv(w) && h in w.handles && Safe(w, Crash(h))
    ensures SameLog(w, Next(w, Crash(h)).value)
  {
    if w.lock == Some(h) {
      assert HandleOk(w, w.handles[h]);
    }
  }

  lemma EnterKeepsLog<E>(w: World<E>, l: Label<E>)
    requires Inv(w) && Next(w, l).Some? && (l.Tick? || l.OpenRead? || l.Call? || l.Acquire?)
    ensures SameLog(w, Next(w, l).value)
  {
  }

  lemma ResyncKeepsLog<E>(w: World<E>, h: Id)
    requires Inv(w) && Next(w, Resync(h)).Some?
    ensures SameLog(w, Next(w, Resync(h)).value)
  {
  }

  lemma ReleaseKeepsLog<E>(w: World<E>, h: Id)
    requires Inv(w) && Next(w, Release(h)).Some?
    ensures SameLog(w, Next(w, Release(h)).value)
  {
    assert w.handles[h].pc.Persisted? && w.lock == Some(h);
  }

  lemma CloseKeepsLog<E>(w: World<E>, h: Id)
    requires Inv(w) && Next(w, Close(h)).Some?
    ensures SameLog(w, Next(w, Close(h)).value)
  {
    assert w.handles[h].pc.Idle? && w.lock != Some(h);
  }

  /** Every step but writing and persisting leaves the log and what is pending of it alone. */
  lemma StepKeepsLog<E>(w: World<E>, l: Label<E>)
    requires Inv(w) && Next(w, l).Some? && Safe(w, l) && !l.Write? && !l.Persist?
    ensures SameLog(w, Next(w, l).value)
  {
    match l {
      case OpenFinish(h) => OpenKeepsLog(w, h);
      case Rotate(h) => RotateKeepsLog(w, h);
      case Crash(h) => CrashKeepsLog(w, h);
      case Resync(h) => ResyncKeepsLog(w, h);
      case Release(h) => ReleaseKeepsLog(w, h);
      case Close(h) => CloseKeepsLog(w, h);
      case _ => EnterKeepsLog(w, l);
    }
  }

  lemma PersistCommits<E>(w: World<E>, h: Id)
    requires Inv(w) && Next(w, Persist(h)).Some?
    ensures Committed(Next(w, Persist(h)).value) == Committed(w) + w.handles[h].pc.batch
    ensures Log(w)[|Committed(w)|..] == Stamp(w.handles[h].pc.batch, |Committed(w)|)
  {
    assert HandleOk(w, w.handles[h]);
  }

  lemma WriteCommitsNothing<E>(w: World<E>, h: Id)
    requires Inv(w) && Next(w, Write(h)).Some?
    ensures Committed(Next(w, Write(h)).value) == Committed(w)
  {
    var v, done := Next(w, Write(h)).value, w.handles[h].pc.done;
    assert HandleOk(w, w.handles[h]);
    WriteExtends(w, h);
    assert Pending(w) == done && Pending(v) == done + 1 && |Log(v)| == |Log(w)| + 1;
    assert Log(v)[..|Log(w)| - done] == Log(w)[..|Log(w)| - done];
  }

  /** Every safe step does nothing to the committed events, except that persisting appends one
      whole batch to them. */
  lemma StepRefines<E>(w: World<E>, l: Label<E>)
    requires Inv(w) && Next(w, l).Some? && Safe(w, l)
    ensures Committed(Next(w, l).value) == Committed(w) + Effect(w, l)
  {
    if l.Write? {
      WriteCommitsNothing(w, l.h);
    } else if l.Persist? {
      PersistCommits(w, l.h);
    } else {
      StepKeepsLog(w, l);
    }
  }

  /** The protocol is an atomic append: under every safe schedule the journals, read in name
      order, are numbered 1 to N; what is committed is the initial events followed by whole
      batches, each one block; and while the lock is free the journals hold nothing else and
      the state cell says N. */
  lemma AtomicAppend<E(!new)>(w: World<E>, ls: seq<Label<E>>)
    requires Init(w) && Run(Next, w, ls).Some? && Allowed(Next, Safe, w, ls)
    ensures var v := Run(Next, w, ls).value;
            && Inv(v) && Numbered(Log(v))
            && Committed(v) == Events(Log(w)) + Outputs(Next, Effect, w, ls)
            && (v.lock == None ==> Events(Log(v)) == Committed(v))
            && (v.lock == None && v.cell.Some? ==> v.cell == Some(|Log(v)|))
  {
    InitInv(w);
    forall w: World<E>, l: Label<E> {:trigger Next(w, l)} | Inv(w) && Safe(w, l) && Next(w, l).Some?
      ensures Inv(Next(w, l).value) && Committed(Next(w, l).value) == Committed(w) + Effect(w, l)
    {
      StepKeepsInvIffSafe(w, l);
      StepRefines(w, l);
    }
    Adds(Next, Inv, Safe, Committed, Effect, w, ls);
    if Run(Next, w, ls).value.lock == None {
      LockFree(Run(Next, w, ls).value);
    }
  }

  lemma LockFree<E>(v: World<E>)
    requires Inv(v) && v.lock == None
    ensures Events(Log(v)) == Committed(v)
    ensures v.cell.Some? ==> v.cell == Some(|Log(v)|)
  {
    assert Log(v)[..|Log(v)|] == Log(v);
  }

  // ---- one handle running alone ----

  function Entry<E>(h: Id, batch: seq<E>): seq<Label<E>> {
    [Call(h, batch), Acquire(h)] + [Resync(h), Rotate(h)]
  }

  function Bigger(cell: Option<nat>, latest: nat): nat {
    if cell.Some? && cell.value > latest then cell.value else latest
  }

  /** The world in which `h`, alone, has reached the point of writing `batch`. */
  function Entered<E>(w: World<E>, h: Id, batch: seq<E>): World<E>
    requires h in w.handles
  {
    var dir := if w.handles[h].current == w.clock then w.dir else OpenDay(w.dir, w.clock);
    Put(w.(dir := dir, lock := Some(h)), h,
        Handle(Bigger(w.cell, w.handles[h].latest), w.clock, Writing(batch, 0)))
  }

  lemma EnterAlone<E>(w: World<E>, h: Id, batch: seq<E>)
    requires h in w.handles && w.handles[h].pc.Idle? && w.lock == None && batch != []
    ensures Run(Next, w, Entry(h, batch)) == Some(Entered(w, h, batch))
  {
    var s := w.handles[h];
    var w1 := Put(w, h, s.(pc := Waiting(batch)));
    var w2 := Put(w1.(lock := Some(h)), h, s.(pc := Locked(batch)));
    RunOne(Next, w, Call(h, batch), w1);
    RunOne(Next, w1, Acquire(h), w2);
    assert [Call(h, batch), Acquire(h)] == [Call(h, batch)] + [Acquire(h)];
    RunConcat(Next, w, [Call(h, batch)], [Acquire(h)]);
    RunConcat(Next, w, [Call(h, batch), Acquire(h)], [Resync(h), Rotate(h)]);
    SyncAlone(w2, h);
    assert Entered(w, h, batch).handles
        == w2.handles[h := Handle(Bigger(w.cell, s.latest), w.clock, Writing(batch, 0))];
  }

  lemma SyncAlone<E>(w: World<E>, h: Id)
    requires h in w.handles && w.handles[h].pc.Locked?
    ensures Run(Next, w, [Resync(h), Rotate(h)])
         == Some(Put(w.(dir := if w.handles[h].current == w.clock then w.dir else OpenDay(w.dir, w.clock)), h,
                     Handle(Bigger(w.cell, w.handles[h].latest), w.clock, Writing(w.handles[h].pc.batch, 0))))
  {
    var s := w.handles[h];
    var w1 := Put(w, h, s.(latest := Bigger(w.cell, s.latest), pc := Synced(s.pc.batch)));
    var w2 := Next(w1, Rotate(h)).value;
    RunOne(Next, w, Resync(h), w1);
    RunOne(Next, w1, Rotate(h), w2);
    assert [Label<E>.Resync(h), Rotate(h)] == [Label<E>.Resync(h)] + [Label<E>.Rotate(h)];
    RunConcat(Next, w, [Resync(h)], [Rotate(h)]);
    assert w2.handles == w.handles[h := Handle(Bigger(w.cell, s.latest), w.clock, Writing(s.pc.batch, 0))];
  }

  function Writes<E>(h: Id, n: nat): seq<Label<E>> {
    if n == 0 then [] else [Write(h)] + Writes(h, n - 1)
  }

  /** The world once `h`, alone, has written what is left of its batch. */
  function Written<E>(w: World<E>, h: Id): World<E>
    requires h in w.handles && w.handles[h].pc.Writing? && w.handles[h].pc.done <= |w.handles[h].pc.batch|
  {
    var s := w.handles[h];
    var recs := Stamp(s.pc.batch[s.pc.done..], s.latest);
    Put(w.(dir := AppendTo(w.dir, s.current, recs)), h,
        Handle(s.latest + |recs|, s.current, Writing(s.pc.batch, |s.pc.batch|)))
  }

  lemma {:induction false} WriteAlone<E>(w: World<E>, h: Id)
    requires h in w.handles && w.handles[h].pc.Writing? && w.handles[h].pc.done <= |w.handles[h].pc.batch|
    ensures var s := w.handles[h];
            Run(Next, w, Writes(h, |s.pc.batch| - s.pc.done)) == Some(Written(w, h))
    decreases |w.handles[h].pc.batch| - w.handles[h].pc.done
  {
    var s := w.handles[h];
    if s.pc.done == |s.pc.batch| {
      AppendToNothing(w.dir, s.current);
      assert w.handles[h := s] == w.handles;
    } else {
      var v := Next(w, Write(h)).value;
      WriteAlone(v, h);
      WrittenStep(w, h, v);
      var rest: seq<Label<E>> := Writes(h, |s.pc.batch| - s.pc.done - 1);
      assert ([Write(h)] + rest)[1..] == rest;
    }
  }

  lemma WrittenStep<E>(w: World<E>, h: Id, v: World<E>)
    requires h in w.handles && w.handles[h].pc.Writing? && w.handles[h].pc.done < |w.handles[h].pc.batch|
    requires Next(w, Write(h)) == Some(v)
    ensures Written(v, h) == Written(w, h)
  {
    var s := w.handles[h];
    var left := s.pc.batch[s.pc.done..];
    assert left[1..] == s.pc.batch[s.pc.done + 1..];
    assert Stamp(left, s.latest) == [Record(s.latest + 1, left[0])] + Stamp(left[1..], s.latest + 1);
    AppendToTwice(w.dir, s.current, [Record(s.latest + 1, left[0])], Stamp(left[1..], s.latest + 1));
    assert Written(v, h).handles == Written(w, h).handles;
  }

  function Leave<E>(h: Id): seq<Label<E>> {
    [Persist(h), Release(h)]
  }

  lemma LeaveAlone<E>(w: World<E>, h: Id)
    requires h in w.handles && w.handles[h].pc.Writing? && w.handles[h].pc.done == |w.handles[h].pc.batch|
    ensures Run(Next, w, Leave(h)) == Some(Left(w, h))
  {
    var s := w.handles[h];
    var w1 := Put(w.(cell := Some(s.latest)), h, s.(pc := Persisted));
    var w2 := Put(w1.(lock := None), h, s.(pc := Idle));
    RunOne(Next, w, Persist(h), w1);
    RunOne(Next, w1, Release(h), w2);
    assert Leave<E>(h) == [Label<E>.Persist(h)] + [Label<E>.Release(h)];
    RunConcat(Next, w, [Persist(h)], [Release(h)]);
    assert w2.handles == w.handles[h := s.(pc := Idle)];
  }

  /** One `Append` from call to return, as a single step on the shared state: re-sync, rotate,
      stamp and write the batch, persist. */
  function Appended<E>(w: World<E>, h: Id, batch: seq<E>): World<E>
    requires h in w.handles
  {
    var s := w.handles[h];
    var base := Bigger(w.cell, s.latest);
    var dir := if s.current == w.clock then w.dir else OpenDay(w.dir, w.clock);
    World(AppendTo(dir, w.clock, Stamp(batch, base)), Some(base + |batch|), w.clock, None,
          w.handles[h := Handle(base + |batch|, w.clock, Idle)])
  }

  function Left<E>(w: World<E>, h: Id): World<E>
    requires h in w.handles
  {
    Put(w.(cell := Some(w.handles[h].latest), lock := None), h, w.handles[h].(pc := Idle))
  }

  lemma EnteredWrittenLeft<E>(w: World<E>, h: Id, batch: seq<E>)
    requires h in w.handles && w.handles[h].pc.Idle? && w.lock == None
    ensures Left(Written(Entered(w, h, batch), h), h) == Appended(w, h, batch)
  {
    assert batch[0..] == batch;
    assert Left(Written(Entered(w, h, batch), h), h).handles == Appended(w, h, batch).handles;
  }

  /** A handle that runs through the protocol alone performs exactly that single step. */
  lemma AppendAlone<E>(w: World<E>, h: Id, batch: seq<E>)
    requires h in w.handles && w.handles[h].pc.Idle? && w.lock == None && batch != []
    ensures Run(Next, w, Entry(h, batch) + Writes(h, |batch|) + Leave(h)) == Some(Appended(w, h, batch))
  {
    EnteredWrittenLeft(w, h, batch);
    EnterAlone(w, h, batch);
    ThenWriteAndLeave(Entered(w, h, batch), h);
    RunConcat(Next, w, Entry(h, batch), Writes(h, |batch|));
    RunConcat(Next, w, Entry(h, batch) + Writes(h, |batch|), Leave(h));
  }

  lemma ThenWriteAndLeave<E>(w: World<E>, h: Id)
    requires h in w.handles && w.handles[h].pc.Writing? && w.handles[h].pc.done == 0
    ensures Run(Next, w, Writes(h, |w.handles[h].pc.batch|)) == Some(Written(w, h))
    ensures Run(Next, Written(w, h), Leave(h)) == Some(Left(Written(w, h), h))
  {
    WriteAlone(w, h);
    LeaveAlone(Written(w, h), h);
  }

  // ---- the hazards are real ----

  /** An unsafe step that leaves the lock free leaves a state cell behind the journals. */
  lemma UnsafeLeavesStaleCell<E>(w: World<E>, l: Label<E>)
    requires Inv(w) && Next(w, l).Some? && !Safe(w, l)
    requires Next(w, l).value.lock == None
    ensures var v := Next(w, l).value;
            && v.cell.Some? && v.cell.value < |Log(v)| && Numbered(Log(v))
            && Sorted(v.dir) && NoneAfter(v.dir, v.clock)
  {
    match l {
      case OpenFinish(h) =>
        assert HandleOk(w, w.handles[h]);
        OpenedDir(w);
      case Crash(h) => assert HandleOk(w, w.handles[h]);
      case _ =>
    }
  }

  /** From such a world, one handle that opens and appends writes a sequence the log has. */
  lemma StaleCellDuplicates<E>(v: World<E>, h: Id, e: E)
    requires v.lock == None && v.cell.Some? && v.cell.value < |Log(v)| && Numbered(Log(v))
    requires Sorted(v.dir) && NoneAfter(v.dir, v.clock) && h !in v.handles
    ensures Run(Next, v, Reissue(h, e)).Some?
    ensures Log(Run(Next, v, Reissue(h, e)).value) == Log(v) + [Record(v.cell.value + 1, e)]
    ensures Log(v)[v.cell.value].seqNo == v.cell.value + 1
  {
    var w := OpenedAlone(v, h);
    OpenAlone(v, h);
    EnterAlone(w, h, [e]);
    WriteAlone(Entered(w, h, [e]), h);
    RunConcat(Next, w, Entry(h, [e]), Writes(h, 1));
    RunConcat(Next, v, Opens(h), Entry(h, [e]) + Writes(h, 1));
    OneWritten(v, h, e);
  }

  lemma OneWritten<E>(v: World<E>, h: Id, e: E)
    requires v.cell.Some? && Sorted(v.dir) && NoneAfter(v.dir, v.clock)
    ensures Stamp([e], v.cell.value) == [Record(v.cell.value + 1, e)] && [e][0..] == [e]
    ensures Concat(AppendTo(OpenDay(v.dir, v.clock), v.clock, Stamp([e], v.cell.value)))
         == Log(v) + [Record(v.cell.value + 1, e)]
  {
    OpenDaySorted(v.dir, v.clock);
    OpenDayMembers(v.dir, v.clock);
    AppendToConcat(OpenDay(v.dir, v.clock), v.clock, Stamp([e], v.cell.value));
  }

  function Opens<E>(h: Id): seq<Label<E>> {
    [OpenRead(h), OpenFinish(h)]
  }

  function OpenedAlone<E>(v: World<E>, h: Id): World<E> {
    Opened(v, h, Seen(v))
  }

  lemma OpenAlone<E>(v: World<E>, h: Id)
    requires h !in v.handles
    ensures Run(Next, v, Opens(h)) == Some(OpenedAlone(v, h))
  {
    var c := Seen(v);
    var w1 := Put(v, h, Handle(c, v.clock, Opening(c)));
    var w2 := Opened(w1, h, c);
    RunOne(Next, v, OpenRead(h), w1);
    RunOne(Next, w1, OpenFinish(h), w2);
    assert Opens<E>(h) == [Label<E>.OpenRead(h)] + [Label<E>.OpenFinish(h)];
    RunConcat(Next, v, [OpenRead(h)], [OpenFinish(h)]);
    assert w2.handles == OpenedAlone(v, h).handles;
  }

  /** A process begins to open a store another has open; that one appends; the first finishes. */
  function RacingOpen<E>(a: E): seq<Label<E>> {
    Opens(1) + [OpenRead(2)] + (Entry(1, [a]) + Writes(1, 1) + Leave(1)) + [OpenFinish(2)]
  }

  /** A process opens a store, appends, and dies before it has persisted. */
  function DeadAppend<E>(a: E): seq<Label<E>> {
    Opens(1) + (Entry(1, [a]) + Writes(1, 1)) + [Crash(1)]
  }

  /** A process opens a store and appends. */
  function Reissue<E>(h: Id, e: E): seq<Label<E>> {
    Opens(h) + (Entry(h, [e]) + Writes(h, 1))
  }

  /** The log after either: the last two records carry one sequence. */
  ghost predicate EndsTwice<E>(w: World<E>, v: Option<World<E>>, a: E, b: E) {
    v.Some? && Log(v.value) == Log(w) + [Record(|Log(w)| + 1, a)] + [Record(|Log(w)| + 1, b)]
  }

  lemma FirstOpens<E>(w: World<E>)
    requires Init(w)
    ensures var v := OpenedAlone(w, 1);
            && Run(Next, w, Opens(1)) == Some(v)
            && v == World(v.dir, Some(|Log(w)|), w.clock, None, map[1 := Handle(|Log(w)|, w.clock, Idle)])
            && Sorted(v.dir) && NoneAfter(v.dir, v.clock) && HasDay(v.dir, v.clock) && Log(v) == Log(w)
  {
    OpenAlone(w, 1);
    OpenedDir(w);
    ScanLatestIsLast(w.dir, 0);
  }

  /** The directory once one record has been written to the newest journal. */
  lemma OneMoreWritten<E>(w: World<E>, a: E)
    requires Sorted(w.dir) && NoneAfter(w.dir, w.clock) && HasDay(w.dir, w.clock) && Numbered(Log(w))
    ensures var dir := AppendTo(w.dir, w.clock, Stamp([a], |Log(w)|));
            && Sorted(dir) && NoneAfter(dir, w.clock) && Numbered(Concat(dir))
            && Concat(dir) == Log(w) + [Record(|Log(w)| + 1, a)]
  {
    assert Stamp([a], |Log(w)|) == [Record(|Log(w)| + 1, a)];
    NothingLater(w.dir, w.clock);
    GrownDir(w.dir, w.clock, Record(|Log(w)| + 1, a), w.clock);
    NumberedNext(Log(w), Record(|Log(w)| + 1, a));
  }

  /** The world after a racing open: the state cell is one behind the journals. */
  function Raced<E>(w: World<E>, a: E): World<E> {
    Opened(Appended(Put(OpenedAlone(w, 1), 2, Handle(|Log(w)|, w.clock, Opening(|Log(w)|))), 1, [a]), 2, |Log(w)|)
  }

  lemma RacingOpenRuns<E>(w: World<E>, a: E)
    requires Init(w)
    ensures Run(Next, w, RacingOpen(a)) == Some(Raced(w, a))
  {
    var n, w1 := |Log(w)|, OpenedAlone(w, 1);
    var w2 := Put(w1, 2, Handle(n, w.clock, Opening(n)));
    var w3 := Appended(w2, 1, [a]);
    FirstOpens(w);
    RunOne(Next, w1, OpenRead(2), w2);
    AppendAlone(w2, 1, [a]);
    RunOne(Next, w3, OpenFinish(2), Raced(w, a));
    RunConcat(Next, w, Opens(1), [OpenRead(2)]);
    RunConcat(Next, w, Opens(1) + [OpenRead(2)], Entry(1, [a]) + Writes(1, 1) + Leave(1));
    RunConcat(Next, w, Opens(1) + [OpenRead(2)] + (Entry(1, [a]) + Writes(1, 1) + Leave(1)), [OpenFinish(2)]);
  }

  /** A world nobody is appending to, whose state cell is behind its journals by the last record. */
  ghost predicate Stale<E>(w: World<E>, v: World<E>, a: E) {
    && v.lock == None && v.cell == Some(|Log(w)|) && Log(v) == Log(w) + [Record(|Log(w)| + 1, a)]
    && Sorted(v.dir) && NoneAfter(v.dir, v.clock) && Numbered(Log(v))
  }

  /** The append in the middle. */
  lemma RacedAppend<E>(w: World<E>, a: E, v: World<E>)
    requires Init(w)
    requires v == Appended(Put(OpenedAlone(w, 1), 2, Handle(|Log(w)|, w.clock, Opening(|Log(w)|))), 1, [a])
    ensures v.lock == None && v.clock == w.clock && v.handles.Keys == {1, 2}
    ensures Sorted(v.dir) && NoneAfter(v.dir, v.clock) && Numbered(Log(v))
    ensures Log(v) == Log(w) + [Record(|Log(w)| + 1, a)]
  {
    FirstOpens(w);
    OneMoreWritten(OpenedAlone(w, 1), a);
  }

  lemma RacedIsStale<E>(w: World<E>, a: E)
    requires Init(w)
    ensures Stale(w, Raced(w, a), a) && 3 !in Raced(w, a).handles
  {
    var v := Appended(Put(OpenedAlone(w, 1), 2, Handle(|Log(w)|, w.clock, Opening(|Log(w)|))), 1, [a]);
    RacedAppend(w, a, v);
    OpenedDir(v);
  }

  lemma StaleEndsTwice<E>(w: World<E>, ls: seq<Label<E>>, v: World<E>, h: Id, a: E, b: E)
    requires Run(Next, w, ls) == Some(v) && Stale(w, v, a) && h !in v.handles
    ensures EndsTwice(w, Run(Next, w, ls + Reissue(h, b)), a, b)
  {
    StaleCellDuplicates(v, h, b);
    RunConcat(Next, w, ls, Reissue(h, b));
  }

  /** From any directory nobody has open, the unlocked rewrite of the state cell makes two records
      carry one sequence. */
  lemma RaceDuplicates<E>(w: World<E>, a: E, b: E)
    requires Init(w)
    ensures EndsTwice(w, Run(Next, w, RacingOpen(a) + Reissue(3, b)), a, b)
  {
    RacingOpenRuns(w, a);
    RacedIsStale(w, a);
    StaleEndsTwice(w, RacingOpen(a), Raced(w, a), 3, a, b);
  }

  /** So does a crash between the first write and the persist. */
  lemma DeathDuplicates<E>(w: World<E>, a: E, b: E)
    requires Init(w)
    ensures EndsTwice(w, Run(Next, w, DeadAppend(a) + Reissue(2, b)), a, b)
  {
    DeadAppendRuns(w, a);
    DeadIsStale(w, a);
    StaleEndsTwice(w, DeadAppend(a), Dead(w, a), 2, a, b);
  }

  /** The world after a process died with its one record written and not persisted. */
  function Dead<E>(w: World<E>, a: E): World<E> {
    var v := Written(Entered(OpenedAlone(w, 1), 1, [a]), 1);
    v.(handles := v.handles - {1}, lock := None)
  }

  lemma WrittenAlone<E>(w: World<E>, a: E)
    requires 1 in w.handles && w.handles[1].pc.Idle? && w.lock == None
    ensures var v := Written(Entered(w, 1, [a]), 1);
            Run(Next, w, Entry(1, [a]) + Writes(1, 1)) == Some(v) && 1 in v.handles && v.lock == Some(1)
  {
    EnterAlone(w, 1, [a]);
    WriteAlone(Entered(w, 1, [a]), 1);
    RunConcat(Next, w, Entry(1, [a]), Writes(1, 1));
  }

  lemma DeadAppendRuns<E>(w: World<E>, a: E)
    requires Init(w)
    ensures Run(Next, w, DeadAppend(a)) == Some(Dead(w, a))
  {
    FirstOpens(w);
    WrittenAlone(OpenedAlone(w, 1), a);
    RunOne(Next, Written(Entered(OpenedAlone(w, 1), 1, [a]), 1), Crash(1), Dead(w, a));
    RunConcat(Next, w, Opens(1), Entry(1, [a]) + Writes(1, 1));
    RunConcat(Next, w, Opens(1) + (Entry(1, [a]) + Writes(1, 1)), [Crash(1)]);
  }

  lemma DeadIsStale<E>(w: World<E>, a: E)
    requires Init(w)
    ensures Stale(w, Dead(w, a), a) && 2 !in Dead(w, a).handles
  {
    FirstOpens(w);
    assert [a][0..] == [a];
    OneMoreWritten(OpenedAlone(w, 1), a);
  }
}
