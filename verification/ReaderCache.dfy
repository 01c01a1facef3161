/**
 A handle that reads a store others append to, whether or not it appends itself: what its cache of
 highest sequences makes it miss.
 */
module ReaderCache {
  import opened Wrappers
  import opened EventLog
  import opened Directory
  import opened StoreView
  import opened Runs

  /** The journals, the handle's own current day, which only its own appends move, and its cache. */
  datatype State<+E> = State(dir: seq<DayFile<Record<E>>>, own: Day, cache: map<Day, nat>)

  datatype Label<+E> =
    | Rotated(day: Day)                    // another process opens a day's journal
    | Appended(day: Day, events: seq<E>)   // another process appends to one
    | Moved(day: Day)                      // the handle's own `Append` rotates
    | Wrote(events: seq<E>)                // and writes
    | Read(from: nat, limit: nat)          // the handle's own `ReadFrom`, which takes the last path as current
    | Scanned(from: nat)                   // the handle's own `Scan`

  /** A process may still write to the journal it rotated to when another has already opened a later
      one; it is the last with anything in it. */
  ghost function Next<E>(w: State<E>, l: Label<E>): Option<State<E>> {
    match l
    case Rotated(day) => if NoneAfter(w.dir, day) then Some(w.(dir := OpenDay(w.dir, day))) else None
    case Appended(day, events) =>
      if HasDay(w.dir, day) && QuietAfter(w.dir, day)
      then Some(w.(dir := AppendTo(w.dir, day, Stamp(events, |Concat(w.dir)|)))) else None
    case Moved(day) => if NoneAfter(w.dir, day) then Some(w.(dir := OpenDay(w.dir, day), own := day)) else None
    case Wrote(events) =>
      if HasDay(w.dir, w.own) && QuietAfter(w.dir, w.own)
      then Some(w.(dir := AppendTo(w.dir, w.own, Stamp(events, |Concat(w.dir)|)))) else None
    case Read(from, limit) => Some(w.(cache := ReadCache(w.cache, Newest(w.dir), w.dir, from, limit)))
    case Scanned(from) => Some(w.(cache := ScanCache(w.cache, Some(w.own), w.dir, from)))
  }

  /** What a day's journal holds. */
  function At<T>(dir: seq<DayFile<T>>, day: Day): seq<T> {
    if dir == [] then [] else if dir[0].day == day then dir[0].content else At(dir[1..], day)
  }

  /** A cached maximum that its journal has outgrown. */
  predicate Behind<E>(w: State<E>, day: Day) {
    day in w.cache && w.cache[day] < MaxSeq(At(w.dir, day))
  }

  ghost predicate Inv<E>(w: State<E>) {
    && Sorted(w.dir) && Numbered(Concat(w.dir))
    && forall d | d in w.cache :: HasDay(w.dir, d) && 0 < w.cache[d] <= MaxSeq(At(w.dir, d))
  }

  /** The handle as `NewFileStore` leaves it. */
  ghost predicate Init<E>(w: State<E>) {
    Sorted(w.dir) && Numbered(Concat(w.dir)) && w.cache == map[]
  }

  // ---- one journal ----

  lemma {:induction false} AtIs<T>(dir: seq<DayFile<T>>, i: nat)
    requires Sorted(dir) && i < |dir|
    ensures At(dir, dir[i].day) == dir[i].content
  {
    if i > 0 {
      AtIs(dir[1..], i - 1);
      assert dir[1..][i - 1] == dir[i];
    }
  }

  lemma {:induction false} AtNone<T>(dir: seq<DayFile<T>>, day: Day)
    requires !HasDay(dir, day)
    ensures At(dir, day) == []
  {
    if dir != [] {
      assert dir[0] in dir && forall f | f in dir[1..] :: f in dir;
      AtNone(dir[1..], day);
    }
  }

  lemma AtCons<T>(file: DayFile<T>, rest: seq<DayFile<T>>, day: Day)
    ensures At([file] + rest, day) == if file.day == day then file.content else At(rest, day)
  {
    assert ([file] + rest)[1..] == rest;
  }

  lemma {:induction false} AtOpened<T>(dir: seq<DayFile<T>>, added: Day, day: Day)
    requires Sorted(dir)
    ensures At(OpenDay(dir, added), day) == At(dir, day)
  {
    if dir == [] || added < dir[0].day {
      AtCons(DayFile(added, []), dir, day);
      if added == day {
        AtNone(dir, day);
      }
    } else if dir[0].day != added {
      AtOpened(dir[1..], added, day);
      AtCons(dir[0], OpenDay(dir[1..], added), day);
    }
  }

  lemma {:induction false} AtAppended<T>(dir: seq<DayFile<T>>, grown: Day, xs: seq<T>, day: Day)
    ensures At(AppendTo(dir, grown, xs), day) == if grown == day && HasDay(dir, day) then At(dir, day) + xs else At(dir, day)
  {
    if dir != [] {
      if dir[0].day == grown {
        AtCons(DayFile(grown, dir[0].content + xs), dir[1..], day);
        assert dir[0] in dir;
      } else {
        AtAppended(dir[1..], grown, xs, day);
        AtCons(dir[0], AppendTo(dir[1..], grown, xs), day);
        if dir[0].day != day {
          HasDayTail(dir, day);
        }
      }
    }
  }

  lemma HasDayTail<T>(dir: seq<DayFile<T>>, day: Day)
    requires dir != [] && dir[0].day != day
    ensures HasDay(dir, day) <==> HasDay(dir[1..], day)
  {
    if HasDay(dir, day) {
      var f :| f in dir && f.day == day;
      assert f in dir[1..];
    }
    if HasDay(dir[1..], day) {
      var f :| f in dir[1..] && f.day == day;
      assert f in dir;
    }
  }

  /** No journal holds a sequence above the log's length. */
  lemma AtBelow<E>(dir: seq<DayFile<Record<E>>>, day: Day)
    requires Sorted(dir) && Numbered(Concat(dir))
    ensures MaxSeq(At(dir, day)) <= |Concat(dir)|
  {
    if HasDay(dir, day) {
      var f :| f in dir && f.day == day;
      var i :| 0 <= i < |dir| && dir[i] == f;
      AtIs(dir, i);
      OldIsBehind(dir);
    } else {
      AtNone(dir, day);
    }
  }

  // ---- what each step does to a cached maximum ----

  /** A step that makes a cached maximum too low. */
  predicate Grows<E>(w: State<E>, l: Label<E>, day: Day) {
    && day in w.cache
    && match l
       case Appended(d, events) => d == day && events != []
       case Wrote(events) => w.own == day && events != []
       case _ => false
  }

  /** A read that does not leave out a cached journal reads it, and so caches its maximum anew. */
  predicate Rereads<E>(w: State<E>, current: Option<Day>, from: nat, day: Day) {
    current != Some(day) && day in w.cache && from <= w.cache[day]
  }

  predicate Refreshes<E>(w: State<E>, l: Label<E>, day: Day) {
    match l
    case Read(from, limit) =>
      && Rereads(w, Newest(w.dir), from, day)
      && |ReadSkipping(w.cache, Newest(w.dir), Before(w.dir, day), from)| < limit
    case Scanned(from) => Rereads(w, Some(w.own), from, day)
    case _ => false
  }

  lemma RotatedStep<E>(w: State<E>, added: Day)
    requires Inv(w) && NoneAfter(w.dir, added)
    ensures var v := w.(dir := OpenDay(w.dir, added));
            Inv(v) && forall day :: Behind(v, day) <==> Behind(w, day)
  {
    OpenDaySorted(w.dir, added);
    OpenDayMembers(w.dir, added);
    var v := w.(dir := OpenDay(w.dir, added));
    forall day
      ensures At(v.dir, day) == At(w.dir, day)
    {
      AtOpened(w.dir, added, day);
    }
    forall d | d in v.cache
      ensures HasDay(v.dir, d)
    {
      var f :| f in w.dir && f.day == d;
      assert f in v.dir;
    }
  }

  lemma MovedStep<E>(w: State<E>, added: Day)
    requires Inv(w) && NoneAfter(w.dir, added)
    ensures var v := w.(dir := OpenDay(w.dir, added), own := added);
            Inv(v) && forall day :: Behind(v, day) <==> Behind(w, day)
  {
    var v := w.(dir := OpenDay(w.dir, added));
    RotatedStep(w, added);
    assert forall day :: Behind(v.(own := added), day) <==> Behind(v, day);
  }

  lemma NumberedOn<E>(log: seq<Record<E>>, recs: seq<Record<E>>)
    requires Numbered(log) && NumberedAfter(recs, |log|)
    ensures Numbered(log + recs)
  {
  }

  /** What an append makes of the highest sequence of a journal. */
  lemma AppendedMax<E>(dir: seq<DayFile<Record<E>>>, grown: Day, events: seq<E>, day: Day)
    requires Sorted(dir) && Numbered(Concat(dir)) && HasDay(dir, grown)
    ensures var n, after := |Concat(dir)|, MaxSeq(At(AppendTo(dir, grown, Stamp(events, |Concat(dir)|)), day));
            after == if grown == day && events != [] then n + |events| else MaxSeq(At(dir, day))
  {
    var recs := Stamp(events, |Concat(dir)|);
    AtAppended(dir, grown, recs, day);
    AtBelow(dir, day);
    MaxSeqConcat(At(dir, day), recs);
    MaxSeqNumbered(recs, |Concat(dir)|);
  }

  lemma AppendedStep<E>(w: State<E>, grown: Day, events: seq<E>)
    requires Inv(w) && HasDay(w.dir, grown) && QuietAfter(w.dir, grown)
    ensures var v := w.(dir := AppendTo(w.dir, grown, Stamp(events, |Concat(w.dir)|)));
            Inv(v) && forall day :: Behind(v, day) <==> Grows(w, Appended(grown, events), day) || Behind(w, day)
  {
    var recs := Stamp(events, |Concat(w.dir)|);
    var v := w.(dir := AppendTo(w.dir, grown, recs));
    AppendToSorted(w.dir, grown, recs);
    AppendToConcat(w.dir, grown, recs);
    NumberedOn(Concat(w.dir), recs);
    forall day
      ensures MaxSeq(At(w.dir, day)) <= MaxSeq(At(v.dir, day))
      ensures MaxSeq(At(v.dir, day)) == if grown == day && events != [] then |Concat(w.dir)| + |events| else MaxSeq(At(w.dir, day))
      ensures MaxSeq(At(w.dir, day)) <= |Concat(w.dir)|
    {
      AppendedMax(w.dir, grown, events, day);
      AtBelow(w.dir, day);
    }
    forall d | d in v.cache
      ensures HasDay(v.dir, d)
    {
      AppendToHasDay(w.dir, grown, recs, d);
    }
  }

  /** The cache after a read, day by day. */
  ghost predicate Refreshed<E>(w: State<E>, v: State<E>, l: Label<E>, day: Day) {
    && (day in w.cache ==> day in v.cache)
    && (day in v.cache ==> HasDay(w.dir, day) && (v.cache[day] == MaxSeq(At(w.dir, day)) > 0 || (day in w.cache && v.cache[day] == w.cache[day])))
    && (day in w.cache && Refreshes(w, l, day) ==> v.cache[day] == MaxSeq(At(w.dir, day)))
    && (day in w.cache && !Refreshes(w, l, day) ==> v.cache[day] == w.cache[day])
  }

  lemma ScannedDay<E>(w: State<E>, from: nat, day: Day)
    requires Inv(w)
    ensures Refreshed(w, Next(w, Scanned(from)).value, Scanned(from), day)
  {
    if HasDay(w.dir, day) {
      var f :| f in w.dir && f.day == day;
      var i :| 0 <= i < |w.dir| && w.dir[i] == f;
      AtIs(w.dir, i);
      ScanCacheAt(w.cache, Some(w.own), w.dir, from, f);
    } else {
      ScanCacheElsewhere(w.cache, Some(w.own), w.dir, from, day);
    }
  }

  lemma ReadDay<E>(w: State<E>, from: nat, limit: nat, day: Day)
    requires Inv(w)
    ensures Refreshed(w, Next(w, Read(from, limit)).value, Read(from, limit), day)
  {
    if HasDay(w.dir, day) {
      var f :| f in w.dir && f.day == day;
      var i :| 0 <= i < |w.dir| && w.dir[i] == f;
      AtIs(w.dir, i);
      BeforeIs(w.dir, i);
      ReadCacheAt(w.cache, Newest(w.dir), w.dir, from, limit, i);
    } else {
      ReadCacheElsewhere(w.cache, Newest(w.dir), w.dir, from, limit, day);
    }
  }

  lemma RefreshedStep<E>(w: State<E>, v: State<E>, l: Label<E>)
    requires Inv(w) && v.dir == w.dir && forall day :: Refreshed(w, v, l, day)
    ensures Inv(v) && forall day :: Behind(v, day) <==> Behind(w, day) && !Refreshes(w, l, day)
  {
    forall day
      ensures Behind(v, day) <==> Behind(w, day) && !Refreshes(w, l, day)
      ensures day in v.cache ==> HasDay(v.dir, day) && 0 < v.cache[day] <= MaxSeq(At(v.dir, day))
    {
      assert Refreshed(w, v, l, day);
    }
  }

  /** After any step a cached maximum is behind its journal if and only if the step appended to that
      journal, or it was behind before and the step did not read it. */
  lemma StepBehindIff<E>(w: State<E>, l: Label<E>, day: Day)
    requires Inv(w) && Next(w, l).Some?
    ensures Inv(Next(w, l).value)
    ensures Behind(Next(w, l).value, day) <==> Grows(w, l, day) || (Behind(w, day) && !Refreshes(w, l, day))
  {
    match l {
      case Rotated(added) => RotatedStep(w, added);
      case Moved(added) => MovedStep(w, added);
      case Appended(grown, events) => AppendedStep(w, grown, events);
      case Wrote(events) => AppendedStep(w, w.own, events);
      case Read(from, limit) =>
        forall d
          ensures Refreshed(w, Next(w, l).value, l, d)
        {
          ReadDay(w, from, limit, d);
        }
        RefreshedStep(w, Next(w, l).value, l);
      case Scanned(from) =>
        forall d
          ensures Refreshed(w, Next(w, l).value, l, d)
        {
          ScannedDay(w, from, d);
        }
        RefreshedStep(w, Next(w, l).value, l);
    }
  }

  // ---- over any run ----

  ghost predicate GrewAt<E>(w: State<E>, ls: seq<Label<E>>, i: nat, day: Day)
    requires i < |ls|
  {
    Run(Next, w, ls[..i]).Some? && Grows(Run(Next, w, ls[..i]).value, ls[i], day)
  }

  ghost predicate ReadAt<E>(w: State<E>, ls: seq<Label<E>>, i: nat, day: Day)
    requires i < |ls|
  {
    Run(Next, w, ls[..i]).Some? && Refreshes(Run(Next, w, ls[..i]).value, ls[i], day)
  }

  /** Some step appended to a day's journal while it was cached, and no later step has read it. */
  ghost predicate GrewUnread<E>(w: State<E>, ls: seq<Label<E>>, day: Day) {
    exists i :: 0 <= i < |ls| && GrewAt(w, ls, i, day) && forall j | i < j < |ls| :: !ReadAt(w, ls, j, day)
  }

  lemma GrewUnreadNext<E>(w: State<E>, ls: seq<Label<E>>, l: Label<E>, day: Day)
    requires Run(Next, w, ls).Some?
    ensures var v := Run(Next, w, ls).value;
            GrewUnread(w, ls + [l], day) <==> Grows(v, l, day) || (GrewUnread(w, ls, day) && !Refreshes(v, l, day))
  {
    var more, n := ls + [l], |ls|;
    assert more[..n] == ls;
    assert GrewAt(w, more, n, day) <==> Grows(Run(Next, w, ls).value, l, day);
    assert ReadAt(w, more, n, day) <==> Refreshes(Run(Next, w, ls).value, l, day);
    forall i | 0 <= i < n
      ensures GrewAt(w, more, i, day) <==> GrewAt(w, ls, i, day)
      ensures ReadAt(w, more, i, day) <==> ReadAt(w, ls, i, day)
    {
      assert more[..i] == ls[..i];
    }
    if GrewUnread(w, more, day) {
      var i :| 0 <= i < |more| && GrewAt(w, more, i, day) && forall j | i < j < |more| :: !ReadAt(w, more, j, day);
      assert i < n ==> forall j | i < j < n :: !ReadAt(w, ls, j, day);
    }
    if GrewUnread(w, ls, day) && !ReadAt(w, more, n, day) {
      var i :| 0 <= i < n && GrewAt(w, ls, i, day) && forall j | i < j < n :: !ReadAt(w, ls, j, day);
      assert forall j | i < j < |more| :: !ReadAt(w, more, j, day);
    }
  }

  lemma {:induction false} RunBehindIff<E>(w: State<E>, ls: seq<Label<E>>, day: Day)
    requires Init(w) && Run(Next, w, ls).Some?
    ensures Inv(Run(Next, w, ls).value)
    ensures Behind(Run(Next, w, ls).value, day) <==> GrewUnread(w, ls, day)
    decreases |ls|
  {
    if ls != [] {
      var init, l := ls[..|ls| - 1], ls[|ls| - 1];
      assert ls == init + [l];
      RunConcat(Next, w, init, [l]);
      RunBehindIff(w, init, day);
      var v := Run(Next, w, init).value;
      assert [l][1..] == [];
      StepBehindIff(v, l, day);
      GrewUnreadNext(w, init, l, day);
    }
  }

  /** Whatever it asks for, a read that takes `current` as the growing journal gives what is owed. */
  ghost predicate ReadsRight<E>(w: State<E>, current: Option<Day>) {
    forall from: nat :: ReadSkipping(w.cache, current, w.dir, from) == AtLeast(Concat(w.dir), from)
  }

  lemma ReadsRightIff<E>(w: State<E>, current: Option<Day>)
    requires Inv(w)
    ensures ReadsRight(w, current) <==> forall day | current != Some(day) :: !Behind(w, day)
  {
    if day :| current != Some(day) && Behind(w, day) {
      var f :| f in w.dir && f.day == day;
      var i :| 0 <= i < |w.dir| && w.dir[i] == f;
      AtIs(w.dir, i);
      SkippingAgreesIff(w.cache, current, w.dir, w.cache[day] + 1);
      assert Hides(w.cache, current, f, w.cache[day] + 1);
    } else {
      forall from: nat
        ensures ReadSkipping(w.cache, current, w.dir, from) == AtLeast(Concat(w.dir), from)
      {
        forall f | f in w.dir
          ensures !Hides(w.cache, current, f, from)
        {
          var i :| 0 <= i < |w.dir| && w.dir[i] == f;
          AtIs(w.dir, i);
          assert current != Some(f.day) ==> !Behind(w, f.day);
        }
        SkippingAgreesIff(w.cache, current, w.dir, from);
      }
    }
  }

  /** Over any run of appends and rotations, its own and others', and of the handle's reads, its next
      `ReadFrom`, and its next `Scan`, give all that is owed, whatever they ask for, if and only if
      no journal but the newest, or for `Scan` the handle's own, was appended to while it was cached
      and has not been read since. */
  lemma RunReadsRightIff<E>(w: State<E>, ls: seq<Label<E>>)
    requires Init(w) && Run(Next, w, ls).Some?
    ensures var v := Run(Next, w, ls).value;
            && (ReadsRight(v, Newest(v.dir)) <==> forall day | Newest(v.dir) != Some(day) :: !GrewUnread(w, ls, day))
            && (ReadsRight(v, Some(v.own)) <==> forall day | v.own != day :: !GrewUnread(w, ls, day))
  {
    var v := Run(Next, w, ls).value;
    forall day
      ensures Inv(v) && (Behind(v, day) <==> GrewUnread(w, ls, day))
    {
      RunBehindIff(w, ls, day);
    }
    RunBehindIff(w, ls, 0);
    ReadsRightIff(v, Newest(v.dir));
    ReadsRightIff(v, Some(v.own));
  }

  // ---- a handle that uses `ReadFrom` alone ----

  /** Whoever writes writes to the newest journal, and the handle does not scan. */
  predicate Paging<E>(w: State<E>, l: Label<E>) {
    && !l.Scanned?
    && (l.Appended? ==> Newest(w.dir) == Some(l.day))
    && (l.Wrote? ==> Newest(w.dir) == Some(w.own))
  }

  /** Only journals before the newest are cached, and none is behind. */
  ghost predicate Settled<E>(w: State<E>) {
    Inv(w) && forall d | d in w.cache :: !Behind(w, d) && Newest(w.dir).Some? && d < Newest(w.dir).value
  }

  /** A step that neither outgrows a cached journal nor caches one that is still the newest. */
  lemma StaysSettled<E>(w: State<E>, l: Label<E>, v: State<E>)
    requires Settled(w) && Next(w, l) == Some(v) && Paging(w, l)
    requires Newest(w.dir).Some? ==> Newest(v.dir).Some? && Newest(w.dir).value <= Newest(v.dir).value
    requires forall d | d in v.cache && d !in w.cache :: Newest(w.dir).Some? && d < Newest(w.dir).value
    ensures Settled(v)
  {
    StepBehindIff(w, l, 0);
    forall d | d in v.cache
      ensures !Behind(v, d)
    {
      StepBehindIff(w, l, d);
    }
    assert !l.Read? ==> v.cache == w.cache;
  }

  lemma PagingStep<E>(w: State<E>, l: Label<E>)
    requires Settled(w) && Next(w, l).Some? && Paging(w, l)
    ensures Settled(Next(w, l).value)
  {
    match l {
      case Rotated(day) => NewestOpened(w.dir, day);
      case Moved(day) => NewestOpened(w.dir, day);
      case Appended(day, events) => NewestAppended(w.dir, day, Stamp(events, |Concat(w.dir)|));
      case Wrote(events) => NewestAppended(w.dir, w.own, Stamp(events, |Concat(w.dir)|));
      case Read(from, limit) =>
        forall d | d !in w.cache && d in Next(w, l).value.cache
          ensures Newest(w.dir).Some? && d < Newest(w.dir).value
        {
          NewlyCached(w, from, limit, d);
        }
    }
    StaysSettled(w, l, Next(w, l).value);
  }

  lemma NewlyCached<E>(w: State<E>, from: nat, limit: nat, day: Day)
    requires Inv(w) && day !in w.cache && day in ReadCache(w.cache, Newest(w.dir), w.dir, from, limit)
    ensures Newest(w.dir).Some? && day < Newest(w.dir).value
  {
    if !HasDay(w.dir, day) {
      ReadCacheElsewhere(w.cache, Newest(w.dir), w.dir, from, limit, day);
    } else {
      var f :| f in w.dir && f.day == day;
      var i :| 0 <= i < |w.dir| && w.dir[i] == f;
      ReadCacheAt(w.cache, Newest(w.dir), w.dir, from, limit, i);
      NewestLater(w.dir, day);
    }
  }

  /** A handle that never scans is given all it is owed by every read, whatever is written and whenever
      anyone rotates, as long as no one still writes to a journal older than the newest. */
  lemma ReadFromAloneIsRight<E(!new)>(w: State<E>, ls: seq<Label<E>>, current: Option<Day>)
    requires Init(w) && Run(Next, w, ls).Some? && Allowed(Next, Paging, w, ls)
    ensures ReadsRight(Run(Next, w, ls).value, current)
  {
    forall w: State<E>, l: Label<E> {:trigger Next(w, l)} | Settled(w) && Paging(w, l) && Next(w, l).Some?
      ensures Settled(Next(w, l).value)
    {
      PagingStep(w, l);
    }
    Keeps(Next, Settled, Paging, w, ls);
    ReadsRightIff(Run(Next, w, ls).value, current);
  }

  /** A writer rotates just before midnight; another process opens the next day's journal, and the
      handle reads; then the writer writes. Although it asks for it, the handle is not given what was
      written, and it never scanned. */
  lemma ReadFromMisses<E>(past: seq<Record<E>>, events: seq<E>)
    requires Numbered(past) && past != [] && events != []
    ensures var w, from := State([DayFile(OWN, past)], OWN, map[]), |past| + 1;
            var v := Run(Next, w, [Rotated(BUSY), Read(1, from), Appended(OWN, events)]);
            && Init(w) && v.Some? && AtLeast(Concat(v.value.dir), from) == Stamp(events, |past|) != []
            && ReadSkipping(v.value.cache, Newest(v.value.dir), v.value.dir, from) == []
  {
    var added, from := Stamp(events, |past|), |past| + 1;
    MidnightRotates(past);
    MidnightReads(past, from);
    MidnightWrites(past, events);
    RunThree(Next, State([DayFile(OWN, past)], OWN, map[]), Rotated(BUSY), Read(1, from), Appended(OWN, events));
    MidnightIs(past + added, []);
    MidnightSkips(past + added, |past|);
    OwedFromShelf(past, added);
  }

  /** The journal of the day that is ending, and the next, opened already. */
  function Midnight<E>(recs: seq<Record<E>>): seq<DayFile<Record<E>>> {
    [DayFile(OWN, recs), DayFile(BUSY, [])]
  }

  lemma MidnightIs<E>(recs: seq<Record<E>>, more: seq<Record<E>>)
    ensures OpenDay([DayFile(OWN, recs)], BUSY) == Midnight(recs)
    ensures HasDay(Midnight(recs), OWN) && QuietAfter(Midnight(recs), OWN) && Newest(Midnight(recs)) == Some(BUSY)
    ensures Concat(Midnight(recs)) == recs && AppendTo(Midnight(recs), OWN, more) == Midnight(recs + more)
  {
    var dir := Midnight(recs);
    assert dir[0] in dir && dir[1..] == [dir[1]] && dir[1..][1..] == [];
    assert Concat(dir[1..]) == [] + [] && recs + [] == recs;
    assert [DayFile(OWN, recs)][1..] == [];
  }

  lemma MidnightRead<E>(recs: seq<Record<E>>, limit: nat)
    requires Numbered(recs) && recs != [] && limit > |recs|
    ensures ReadCache(map[], Some(BUSY), Midnight(recs), 1, limit) == map[OWN := |recs|]
  {
    var dir := Midnight(recs);
    assert dir[..1] == [dir[0]] && [dir[0]][..0] == [] && [dir[0]][1..] == [];
    MaxSeqNumbered(recs, 0);
    AtLeastNumbered(recs, 0, 1);
    assert ReadSkipping(map[], Some(BUSY), dir[..1], 1) == recs + [] == recs;
    assert ReadCache(map[], Some(BUSY), dir[..1], 1, limit) == map[OWN := |recs|];
  }

  lemma MidnightRotates<E>(past: seq<Record<E>>)
    requires Numbered(past)
    ensures var w := State([DayFile(OWN, past)], OWN, map[]);
            Init(w) && Next(w, Rotated(BUSY)) == Some(w.(dir := Midnight(past)))
  {
    var dir := [DayFile(OWN, past)];
    assert dir[1..] == [] && Concat(dir) == past + [] == past;
    MidnightIs(past, []);
  }

  lemma MidnightReads<E>(past: seq<Record<E>>, limit: nat)
    requires Numbered(past) && past != [] && limit > |past|
    ensures Next(State(Midnight(past), OWN, map[]), Read(1, limit)) == Some(State(Midnight(past), OWN, map[OWN := |past|]))
  {
    MidnightIs(past, []);
    MidnightRead(past, limit);
  }

  lemma MidnightWrites<E>(past: seq<Record<E>>, events: seq<E>)
    requires Numbered(past)
    ensures var w := State(Midnight(past), OWN, map[OWN := |past|]);
            Next(w, Appended(OWN, events)) == Some(w.(dir := Midnight(past + Stamp(events, |past|))))
  {
    MidnightIs(past, Stamp(events, |past|));
  }

  lemma MidnightSkips<E>(recs: seq<Record<E>>, n: nat)
    ensures ReadSkipping(map[OWN := n], Some(BUSY), Midnight(recs), n + 1) == []
  {
    assert forall f | f in Midnight(recs) :: f.day == OWN || f.content == [];
    NothingRead(map[OWN := n], Some(BUSY), Midnight(recs), n + 1);
  }

  // ---- scanning the journal others write to ----

  const OWN: Day := 0
  const BUSY: Day := 1

  /** The handle's own journal, empty, and the one the writer is at. */
  function Shelf<E>(recs: seq<Record<E>>): seq<DayFile<Record<E>>> {
    [DayFile(OWN, []), DayFile(BUSY, recs)]
  }

  lemma ShelfIs<E>(recs: seq<Record<E>>, more: seq<Record<E>>)
    ensures Sorted(Shelf(recs)) && HasDay(Shelf(recs), BUSY) && QuietAfter(Shelf(recs), BUSY)
    ensures Concat(Shelf(recs)) == recs && AppendTo(Shelf(recs), BUSY, more) == Shelf(recs + more)
  {
    var dir := Shelf(recs);
    assert dir[1] in dir && dir[1..] == [dir[1]] && dir[1..][1..] == [];
    assert Concat(dir[1..]) == recs + [] && [] + recs == recs && recs + [] == recs;
    assert AppendTo(dir[1..], BUSY, more) == [DayFile(BUSY, recs + more)] + [];
  }

  lemma ScanCaches<E>(recs: seq<Record<E>>)
    requires Numbered(recs) && recs != []
    ensures ScanCache(map[], Some(OWN), Shelf(recs), 1) == map[BUSY := |recs|]
  {
    var dir := Shelf(recs);
    assert dir[..1] == [dir[0]] && [dir[0]][..0] == [];
    MaxSeqNumbered(recs, 0);
    assert ScanCache(map[], Some(OWN), dir[..1], 1) == map[];
  }

  lemma RotatesShelf<E>(recs: seq<Record<E>>)
    ensures OpenDay(Shelf(recs), BUSY + 1) == Shelf(recs) + [DayFile(BUSY + 1, [])]
    ensures Concat(Shelf(recs) + [DayFile(BUSY + 1, [])]) == recs
  {
    var dir := Shelf(recs);
    var last: DayFile<Record<E>> := DayFile(BUSY + 1, []);
    assert dir[1..] == [dir[1]] && dir[1..][1..] == [];
    assert OpenDay(dir[1..], BUSY + 1) == [dir[1]] + [last];
    ShelfIs(recs, []);
    ConcatConcat(dir, [last]);
    assert [last][1..] == [] && Concat([last]) == [] && recs + [] == recs;
  }

  /** What the handle's cache makes it read of those journals. */
  lemma NothingOnShelf<E>(recs: seq<Record<E>>, known: nat, current: Option<Day>)
    requires current != Some(BUSY)
    ensures ReadSkipping(map[BUSY := known], current, Shelf(recs) + [DayFile(BUSY + 1, [])], known + 1) == []
  {
    var dir := Shelf(recs) + [DayFile(BUSY + 1, [])];
    assert forall f | f in dir :: f.day == BUSY || f.content == [];
    NothingRead(map[BUSY := known], current, dir, known + 1);
  }

  /** A handle whose own day is past scans while another process writes to the newest journal; that
      one then appends and rotates. Neither `ReadFrom` nor `Scan` gives the handle what was appended,
      although it asks for it. */
  lemma ScanMisses<E>(past: seq<Record<E>>, events: seq<E>)
    requires Numbered(past) && past != [] && events != []
    ensures var w, from := State(Shelf(past), OWN, map[]), |past| + 1;
            var v := Run(Next, w, [Scanned(1), Appended(BUSY, events), Rotated(BUSY + 1)]);
            && Init(w) && v.Some? && AtLeast(Concat(v.value.dir), from) == Stamp(events, |past|) != []
            && ReadSkipping(v.value.cache, Newest(v.value.dir), v.value.dir, from) == []
            && ReadSkipping(v.value.cache, Some(v.value.own), v.value.dir, from) == []
  {
    var added := Stamp(events, |past|);
    var w0 := State(Shelf(past), OWN, map[]);
    var w1 := w0.(cache := map[BUSY := |past|]);
    var w2 := w1.(dir := Shelf(past + added));
    var w3 := w1.(dir := Shelf(past + added) + [DayFile(BUSY + 1, [])]);
    ShelfIs(past, added);
    ScanCaches(past);
    assert Next(w0, Scanned(1)) == Some(w1) && Next(w1, Appended(BUSY, events)) == Some(w2);
    RotatesShelf(past + added);
    assert Next(w2, Rotated(BUSY + 1)) == Some(w3);
    RunThree(Next, w0, Scanned(1), Appended(BUSY, events), Rotated(BUSY + 1));
    NothingOnShelf(past + added, |past|, Newest(w3.dir));
    NothingOnShelf(past + added, |past|, Some(OWN));
    OwedFromShelf(past, added);
  }

  lemma OwedFromShelf<E>(past: seq<Record<E>>, added: seq<Record<E>>)
    requires Numbered(past) && NumberedAfter(added, |past|)
    ensures AtLeast(past + added, |past| + 1) == added
  {
    AtLeastConcat(past, added, |past| + 1);
    AtLeastNumbered(past, 0, |past| + 1);
    AtLeastNumbered(added, |past|, |past| + 1);
  }
}
