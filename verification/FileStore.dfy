/**
 The file-backed store as one handle sees it: the fields it keeps, the files it shares, and the
 methods that change them. Other processes may have changed the files between any two calls, as
 `Others` does.
 */
module FileStores {
  import opened Wrappers
  import opened EventLog
  import opened Octets
  import opened Journal
  import opened Directory
  import opened TailCursor
  import opened JournalReader
  import opened StoreView

  datatype Error = EmptyAppend | Closed | NegativeLimit | BadRecord

  /** The store's directory on disk: the journals and the latest-sequence file. */
  class Disk {
    var files: seq<DayFile<Byte>>
    var cell: Option<nat>

    constructor (files: seq<DayFile<Byte>>, cell: Option<nat>)
      ensures this.files == files && this.cell == cell
    {
      this.files, this.cell := files, cell;
    }
  }

  class FileStore<E(!new)> {
    const c: Codec<E>
    const disk: Disk
    var latest: nat
    var closed: bool
    var current: Day
    var fileMaxSeq: map<Day, nat>
    var tailCursors: map<Day, Cursor>

    /** The log: all journals in name order. */
    function Records(): seq<Record<E>>
      reads this, disk
    {
      Log(c, disk.files)
    }

    /** What any open handle may rely on: other processes may have appended, and may have opened
        journals later than its own current one. */
    ghost predicate Opened()
      reads this, disk
    {
      && Journal.Valid(c) && FilesOk(c, disk.files, current) && CursorsOk(c, disk.files, tailCursors)
      && (forall d | d in tailCursors :: d <= current)
      && disk.cell.Some? && latest <= disk.cell.value == |Records()|
    }

    /** A handle whose cache of highest sequences can be trusted. */
    ghost predicate Valid()
      reads this, disk
    {
      Opened() && CacheGood(fileMaxSeq, Decode(c, disk.files))
    }

    /** `NewFileStore` on a day not before the newest journal. */
    constructor (c: Codec<E>, disk: Disk, today: Day)
      requires Journal.Valid(c) && Clean(c, disk.files) && Sorted(disk.files) && NoneAfter(disk.files, today)
      requires Numbered(Log(c, disk.files))
      requires disk.cell.Some? ==> disk.cell.value == |Log(c, disk.files)|
      modifies disk
      ensures Valid() && !closed && this.c == c && this.disk == disk && current == today
      ensures Records() == old(Log(c, disk.files))
    {
      this.c, this.disk := c, disk;
      this.closed, this.current := false, today;
      this.fileMaxSeq, this.tailCursors := map[], map[];
      this.latest := 0;
      new;
      Open();
    }

    /** Recover the latest sequence, write it back, open today's journal. */
    method Open()
      requires Journal.Valid(c) && Clean(c, disk.files) && Sorted(disk.files) && NoneAfter(disk.files, current)
      requires Numbered(Records()) && fileMaxSeq == map[] && tailCursors == map[]
      requires disk.cell.Some? ==> disk.cell.value == |Records()|
      modifies this`latest, disk
      ensures Valid() && Records() == old(Records()) && latest == |Records()|
    {
      latest := RecoverLatestSequence();
      FirstOpen(c, disk.files, current, OpenDay(disk.files, current), fileMaxSeq, tailCursors);
      WriteBack();
    }

    /** The second half: `persistLatestSequence`, `openTodayJournal`. */
    method WriteBack()
      requires Journal.Valid(c) && latest == |Records()| && tailCursors == map[]
      requires var more := OpenDay(disk.files, current);
               && FilesOk(c, more, current) && CursorsOk(c, more, tailCursors) && CacheGood(fileMaxSeq, Decode(c, more))
               && Log(c, more) == Records()
      modifies disk
      ensures Valid() && Records() == old(Records())
    {
      disk.cell := Some(latest);
      disk.files := OpenDay(disk.files, current);
    }

    /** `recoverLatestSequence`: the state file when there is one, the journals otherwise. */
    method RecoverLatestSequence() returns (n: nat)
      requires Journal.Valid(c) && Clean(c, disk.files) && Numbered(Records())
      requires disk.cell.Some? ==> disk.cell.value == |Records()|
      ensures n == |Records()|
    {
      if disk.cell.Some? {
        n := disk.cell.value;
      } else {
        n := ScanLatestFromJournals();
      }
    }

    /** `scanLatestFromJournals`: the largest last sequence of any journal. */
    method ScanLatestFromJournals() returns (n: nat)
      requires Journal.Valid(c) && Clean(c, disk.files) && Numbered(Records())
      ensures n == |Records()|
    {
      n := 0;
      var i := 0;
      var files := disk.files;
      ghost var dir := Decode(c, files);
      assert dir[..0] == [];
      while i < |files|
        invariant 0 <= i <= |files|
        invariant n == |Concat(dir[..i])|
      {
        CleanReads(c, files[i].content);
        var r := ReadRecordsFromFile(c, files[i].content);
        var recs := r.value;
        ConcatLast(dir, i);
        SliceNumbered(dir, i);
        if recs != [] && recs[|recs| - 1].seqNo > n {
          n := recs[|recs| - 1].seqNo;
        }
        i := i + 1;
      }
      assert dir[..|files|] == dir;
    }

    /** `rotateIfDateChanged`, on a day not before the newest journal. */
    method RotateIfDateChanged(today: Day)
      requires Opened() && Until(disk.files, today)
      modifies this`current, disk`files
      ensures Opened() && current == today && Newest(disk.files) == Some(today)
      ensures disk.files == OpenDay(old(disk.files), today)
      ensures Records() == old(Records())
      ensures old(Valid()) ==> Valid()
    {
      UntilIs(disk.files, today);
      OpenKeeps(c, disk.files, today, tailCursors);
      CacheRotates(c, disk.files, today, fileMaxSeq);
      NewestOpened(disk.files, today);
      if current == today {
        OpenDayThere(disk.files, today);
      } else {
        current := today;
        disk.files := OpenDay(disk.files, today);
      }
    }

    /** `Append`: the whole batch, or an error and nothing. */
    method Append(events: seq<E>, today: Day) returns (r: Result<seq<Record<E>>, Error>)
      requires Opened() && Until(disk.files, today)
      modifies this`latest, this`current, disk
      ensures Opened() && (old(Valid()) ==> Valid())
      ensures r == if events == [] then Err(EmptyAppend)
                   else if closed then Err(Closed)
                   else Ok(Stamp(events, old(|Records()|)))
      ensures r.Err? ==> disk.files == old(disk.files) && current == old(current)
      ensures r.Ok? ==> Records() == old(Records()) + r.value && current == today && Until(disk.files, today)
      ensures r.Ok? ==> disk.files == AppendTo(OpenDay(old(disk.files), today), today, EncodeAll(c, r.value))
    {
      if events == [] {
        return Err(EmptyAppend);
      }
      if closed {
        return Err(Closed);
      }
      var records := AppendLocked(events, today);
      return Ok(records);
    }

    /** Catch up with what other handles have persisted. */
    method Resync()
      requires Opened()
      modifies this`latest
      ensures Opened() && latest == |Records()| && (old(Valid()) ==> Valid())
    {
      if disk.cell.Some? && disk.cell.value > latest {
        latest := disk.cell.value;
      }
    }

    /** The critical section of `Append`: re-sync, rotate, write, persist. */
    method AppendLocked(events: seq<E>, today: Day) returns (records: seq<Record<E>>)
      requires Opened() && Until(disk.files, today)
      modifies this`latest, this`current, disk
      ensures Opened() && (old(Valid()) ==> Valid()) && current == today && Until(disk.files, today)
      ensures records == Stamp(events, old(|Records()|)) && Records() == old(Records()) + records
      ensures disk.files == AppendTo(OpenDay(old(disk.files), today), today, EncodeAll(c, records))
    {
      Resync();
      RotateIfDateChanged(today);
      ghost var files := disk.files;
      UntilIs(files, today);
      records := WriteRecords(events);
      AppendKeeps(c, files, today, records, tailCursors);
      CacheAppends(c, files, today, records, fileMaxSeq);
      disk.cell := Some(latest);
    }

    /** The loop of `Append`: number each event, encode it, write its line. */
    method WriteRecords(events: seq<E>) returns (records: seq<Record<E>>)
      modifies this`latest, disk`files
      ensures records == Stamp(events, old(latest)) && latest == old(latest) + |events|
      ensures disk.files == AppendTo(old(disk.files), current, EncodeAll(c, records))
    {
      ghost var files := disk.files;
      records := [];
      assert EncodeAll(c, records) == [];
      AppendToNothing(files, current);
      while |records| < |events|
        invariant |records| <= |events| && records == Stamp(events[..|records|], old(latest))
        invariant latest == old(latest) + |records|
        invariant disk.files == AppendTo(files, current, EncodeAll(c, records))
      {
        latest := latest + 1;
        var rec := Record(latest, events[|records|]);
        disk.files := AppendTo(disk.files, current, c.encode(rec) + [NEWLINE]);
        OneMoreRecord(c, files, current, records, rec);
        records := records + [rec];
      }
      assert events[..|events|] == events;
    }

    /** `ReadFrom`: one page of what the cache does not leave out, and the exact new cache. On a
        handle whose cache can be trusted that is the page a cache-free read gives, and it stays
        so. */
    method ReadFrom(from: nat, limit: int) returns (r: Result<seq<Record<E>>, Error>)
      requires Opened()
      modifies this`fileMaxSeq
      ensures Opened() && (old(Valid()) ==> Valid())
      ensures limit < 0 ==> r == Err(NegativeLimit)
      ensures limit == 0 ==> r == Ok([])
      ensures limit > 0 && closed ==> r == Err(Closed)
      ensures limit <= 0 || closed ==> fileMaxSeq == old(fileMaxSeq)
      ensures limit > 0 && !closed ==>
                && r == Ok(PageSkipping(old(fileMaxSeq), Decode(c, disk.files), from, limit))
                && fileMaxSeq == ReadCache(old(fileMaxSeq), Newest(disk.files), Decode(c, disk.files), from, limit)
      ensures limit > 0 && !closed && old(Valid()) ==> r == Ok(Page(Records(), from, limit))
    {
      if limit < 0 {
        return Err(NegativeLimit);
      }
      if limit == 0 {
        return Ok([]);
      }
      if closed {
        return Err(Closed);
      }
      ghost var cache, dir := fileMaxSeq, Decode(c, disk.files);
      var out := ReadPage(from, limit);
      DecodeDays(c, disk.files);
      if CacheGood(cache, dir) {
        ReadCacheGood(cache, dir, from, limit);
        SkippingAgrees(cache, Newest(dir), dir, from);
      }
      return Ok(out);
    }

    method ReadPage(from: nat, limit: nat) returns (out: seq<Record<E>>)
      requires Opened() && limit > 0
      modifies this`fileMaxSeq
      ensures Opened()
      ensures out == PageSkipping(old(fileMaxSeq), Decode(c, disk.files), from, limit)
      ensures fileMaxSeq == ReadCache(old(fileMaxSeq), Newest(disk.files), Decode(c, disk.files), from, limit)
    {
      var i := 0;
      ghost var cache, dir, newest := fileMaxSeq, Decode(c, disk.files), Newest(disk.files);
      DecodeDays(c, disk.files);
      assert dir[..0] == [];
      out := [];
      while i < |disk.files| && |out| < limit
        invariant 0 <= i <= |disk.files| && Opened()
        invariant out == Take(ReadSkipping(cache, newest, dir[..i], from), limit)
        invariant fileMaxSeq == ReadCache(cache, newest, dir[..i], from, limit)
      {
        NextFileRead(cache, newest, dir, i, from, limit);
        out := ReadOne(i, out, cache, from, limit);
        i := i + 1;
      }
      ReadStops(cache, newest, dir, i, from, limit);
    }

    /** The turn of one file: read it, unless the cache says it is behind, and fill the page. */
    method ReadOne(i: nat, out: seq<Record<E>>, ghost cache: map<Day, nat>, from: nat, limit: nat)
      returns (page: seq<Record<E>>)
      requires Opened() && i < |disk.files| && |out| < limit
      requires Agree(cache, fileMaxSeq, disk.files[i].day)
      modifies this`fileMaxSeq
      ensures Opened()
      ensures page == Take(out + Owed(cache, Newest(disk.files), Decode(c, disk.files)[i], from), limit)
      ensures fileMaxSeq == CacheTurn(cache, old(fileMaxSeq), Newest(disk.files), Decode(c, disk.files)[i], from)
    {
      var file := disk.files[i];
      FileKnown(c, disk.files, current, i);
      var recs, max := ReadUnlessBehind(c, file, Newest(disk.files), fileMaxSeq, from);
      fileMaxSeq := max;
      page := TakeInto(out, recs, from, limit);
    }

    /** `Scan`: everything from `from` on that the cache does not leave out, resuming the current
        journal where it can; and the exact new cache. */
    method Scan(from: nat) returns (r: Result<seq<Record<E>>, Error>)
      requires Opened()
      modifies this`fileMaxSeq, this`tailCursors
      ensures Opened()
      ensures closed ==> r == Err(Closed) && fileMaxSeq == old(fileMaxSeq)
      ensures !closed ==>
                && r == Ok(ReadSkipping(old(fileMaxSeq), Some(current), Decode(c, disk.files), from))
                && fileMaxSeq == ScanCache(old(fileMaxSeq), Some(current), Decode(c, disk.files), from)
      ensures !closed && CacheSound(old(fileMaxSeq), Decode(c, disk.files)) ==> r == Ok(AtLeast(Records(), from))
      ensures old(Valid()) && Until(disk.files, current) ==> Valid()
    {
      if closed {
        return Err(Closed);
      }
      ghost var cache, dir := fileMaxSeq, Decode(c, disk.files);
      var out := ScanAll(from);
      if CacheSound(cache, dir) {
        SkippingAgrees(cache, Some(current), dir, from);
      }
      DecodeDays(c, disk.files);
      if CacheGood(cache, dir) && Until(disk.files, current) {
        UntilIs(disk.files, current);
        NewestIs(disk.files, current);
        ScanCacheGood(cache, dir, from);
      }
      return Ok(out);
    }

    method ScanAll(from: nat) returns (out: seq<Record<E>>)
      requires Opened()
      modifies this`fileMaxSeq, this`tailCursors
      ensures Opened()
      ensures out == ReadSkipping(old(fileMaxSeq), Some(current), Decode(c, disk.files), from)
      ensures fileMaxSeq == ScanCache(old(fileMaxSeq), Some(current), Decode(c, disk.files), from)
    {
      var cache, i := fileMaxSeq, 0;
      ghost var dir := Decode(c, disk.files);
      assert dir[..0] == [] && dir[..|dir|] == dir;
      out := [];
      while i < |disk.files|
        invariant 0 <= i <= |disk.files| && Opened()
        invariant out == ReadSkipping(cache, Some(current), dir[..i], from)
        invariant fileMaxSeq == ScanCache(cache, Some(current), dir[..i], from)
      {
        NextFileScanned(cache, Some(current), dir, i, from);
        var recs := ScanOne(i, cache, from);
        out := out + recs;
        i := i + 1;
      }
    }

    method ScanOne(i: nat, cache: map<Day, nat>, from: nat) returns (out: seq<Record<E>>)
      requires Opened() && i < |disk.files|
      modifies this`fileMaxSeq, this`tailCursors
      ensures Opened()
      ensures out == Owed(cache, Some(current), Decode(c, disk.files)[i], from)
      ensures fileMaxSeq == CacheTurn(cache, old(fileMaxSeq), Some(current), Decode(c, disk.files)[i], from)
    {
      var file := disk.files[i];
      FileKnown(c, disk.files, current, i);
      if file.day == current {
        assert file in disk.files;
        out := ScanCurrent(file.content, from);
        CursorUpdated(c, disk.files, current, old(tailCursors), i, tailCursors[current]);
      } else {
        var max;
        out, max := ScanUnlessBehind(c, file, cache, fileMaxSeq, from);
        fileMaxSeq := max;
      }
    }

    /** `scanFile` on the current journal, with its cursor. */
    method ScanCurrent(b: Bytes, from: nat) returns (out: seq<Record<E>>)
      requires CursorOk(c, b, if current in tailCursors then Some(tailCursors[current]) else None)
      requires !ScanLines(c, b).bad
      modifies this`tailCursors
      ensures out == AtLeast(ScanLines(c, b).recs, from)
      ensures current in tailCursors && tailCursors == old(tailCursors)[current := tailCursors[current]]
      ensures CursorOk(c, b, Some(tailCursors[current]))
    {
      var cursor := if current in tailCursors then Some(tailCursors[current]) else None;
      var start := StartOffset(cursor, from);
      EmptySound(c, b);
      ResumeAgrees(c, b, start, from);
      assert b[0..] == b;
      var p := ScanFile(c, b, start, from);
      out := p.out;
      PassIsSound(c, b, start, from);
      AdvanceOk(c, b, cursor, start, p.offset, p.lastSeq);
      var next := Advance(cursor, p.offset, p.lastSeq);
      tailCursors := tailCursors[current := next.value];
    }

    method LatestSequence() returns (r: Result<nat, Error>)
      ensures r == if closed then Err(Closed) else Ok(latest)
    {
      r := if closed then Err(Closed) else Ok(latest);
    }

    method Close()
      requires Opened()
      modifies this`closed
      ensures Opened() && closed && Records() == old(Records()) && (old(Valid()) ==> Valid())
    {
      closed := true;
    }

    /** Another process appends a batch, as one step on the shared files. The handle keeps what it
        may rely on, and what its cache says stays true. */
    method Others(events: seq<E>, today: Day)
      requires Opened() && Until(disk.files, today)
      modifies disk
      ensures Opened() && (old(Valid()) ==> Valid()) && Until(disk.files, today)
      ensures Records() == old(Records()) + Stamp(events, old(|Records()|))
    {
      var batch := Stamp(events, |Records()|);
      UntilIs(disk.files, today);
      OthersKeep(c, disk.files, current, today, batch, tailCursors);
      OthersKeepCache(c, disk.files, today, batch, fileMaxSeq);
      disk.cell := Some(|Records()| + |events|);
      disk.files := OthersWrote(c, disk.files, today, batch);
    }

    /** Another process, which rotated before someone opened a later journal, appends to the day it
        had reached, the last with anything in it. A cache with a maximum for that day can no longer
        be trusted. */
    method OthersLate(events: seq<E>, day: Day)
      requires Opened() && HasDay(disk.files, day) && QuietAfter(disk.files, day)
      modifies disk
      ensures Opened() && Newest(disk.files) == old(Newest(disk.files))
      ensures Records() == old(Records()) + Stamp(events, old(|Records()|))
      ensures old(Valid()) && day !in fileMaxSeq ==> Valid()
    {
      var batch := Stamp(events, |Records()|);
      LateKeeps(c, disk.files, current, day, batch, tailCursors);
      if day !in fileMaxSeq {
        LateKeepsCache(c, disk.files, day, batch, fileMaxSeq);
      }
      NewestAppended(disk.files, day, EncodeAll(c, batch));
      disk.cell := Some(|Records()| + |events|);
      disk.files := AppendTo(disk.files, day, EncodeAll(c, batch));
    }
  }

  lemma LateKeeps<E(!new)>(
      c: Codec<E>, files: seq<DayFile<Byte>>, current: Day, day: Day, recs: seq<Record<E>>, cursors: map<Day, Cursor>)
    requires Journal.Valid(c) && FilesOk(c, files, current) && CursorsOk(c, files, cursors)
    requires HasDay(files, day) && QuietAfter(files, day) && NumberedAfter(recs, |Log(c, files)|)
    ensures var more := AppendTo(files, day, EncodeAll(c, recs));
            && FilesOk(c, more, current) && CursorsOk(c, more, cursors) && Log(c, more) == Log(c, files) + recs
  {
    AppendedFiles(c, files, day, recs);
    AppendedCursors(c, files, day, EncodeAll(c, recs), cursors);
    AppendToHasDay(files, day, EncodeAll(c, recs), current);
  }

  lemma LateKeepsCache<E(!new)>(c: Codec<E>, files: seq<DayFile<Byte>>, day: Day, recs: seq<Record<E>>, cache: map<Day, nat>)
    requires Journal.Valid(c) && Clean(c, files) && Sorted(files) && day !in cache
    ensures CacheGood(cache, Decode(c, files)) ==> CacheGood(cache, Decode(c, AppendTo(files, day, EncodeAll(c, recs))))
  {
    DecodeAppend(c, files, day, recs);
    DecodeDays(c, files);
    if CacheGood(cache, Decode(c, files)) {
      AppendedGood(cache, Decode(c, files), day, recs);
    }
  }

  /** The files after another process has appended a batch. */
  function OthersWrote<E>(c: Codec<E>, files: seq<DayFile<Byte>>, today: Day, recs: seq<Record<E>>): seq<DayFile<Byte>> {
    AppendTo(OpenDay(files, today), today, EncodeAll(c, recs))
  }

  lemma OthersKeep<E(!new)>(
      c: Codec<E>, files: seq<DayFile<Byte>>, current: Day, today: Day, recs: seq<Record<E>>, cursors: map<Day, Cursor>)
    requires Journal.Valid(c) && FilesOk(c, files, current) && CursorsOk(c, files, cursors)
    requires NoneAfter(files, today) && (forall d | d in cursors :: d <= current) && NumberedAfter(recs, |Log(c, files)|)
    ensures var more := OthersWrote(c, files, today, recs);
            && FilesOk(c, more, current) && CursorsOk(c, more, cursors) && Until(more, today)
            && Log(c, more) == Log(c, files) + recs
  {
    var next := OpenDay(files, today);
    assert current <= today;
    OpenKeeps(c, files, today, cursors);
    OpenDayMembers(files, today);
    AppendKeeps(c, next, today, recs, cursors);
    var f :| f in files && f.day == current;
    assert f in next;
    AppendToHasDay(next, today, EncodeAll(c, recs), current);
  }

  lemma OthersKeepCache<E(!new)>(
      c: Codec<E>, files: seq<DayFile<Byte>>, today: Day, recs: seq<Record<E>>, cache: map<Day, nat>)
    requires Journal.Valid(c) && Clean(c, files) && Sorted(files) && Numbered(Log(c, files)) && NoneAfter(files, today)
    ensures CacheGood(cache, Decode(c, files)) ==> CacheGood(cache, Decode(c, OthersWrote(c, files, today, recs)))
  {
    OpenKeeps(c, files, today, map[]);
    CacheRotates(c, files, today, cache);
    CacheAppends(c, OpenDay(files, today), today, recs, cache);
  }

  /** The inner loop of `ReadFrom`: fill the page up to its limit. */
  method TakeInto<E>(out: seq<Record<E>>, recs: seq<Record<E>>, from: nat, limit: nat) returns (page: seq<Record<E>>)
    requires |out| < limit
    ensures page == Take(out + AtLeast(recs, from), limit)
  {
    page := out;
    var i := 0;
    assert recs[..0] == [] && out + [] == out;
    while i < |recs|
      invariant 0 <= i <= |recs| && page == out + AtLeast(recs[..i], from) && |page| < limit
    {
      assert recs[..i + 1] == recs[..i] + [recs[i]];
      AtLeastConcat(recs[..i], [recs[i]], from);
      if recs[i].seqNo >= from {
        page := page + [recs[i]];
        if |page| >= limit {
          PageIsFull(out, recs, i + 1, from, limit);
          return;
        }
      }
      i := i + 1;
    }
    assert recs[..|recs|] == recs;
  }

  /** What one file gives a reader. */
  function Owed<E>(cache: map<Day, nat>, current: Option<Day>, f: DayFile<Record<E>>, from: nat): seq<Record<E>> {
    if Skips(cache, current, f.day, from) then [] else AtLeast(f.content, from)
  }

  /** The page of what the cache does not leave out, the last journal taken as current. */
  function PageSkipping<E>(cache: map<Day, nat>, dir: seq<DayFile<Record<E>>>, from: nat, limit: nat): seq<Record<E>> {
    Take(ReadSkipping(cache, Newest(dir), dir, from), limit)
  }

  /** A turn of the loop of `ReadFrom` while the page has room. */
  lemma NextFileRead<E>(cache: map<Day, nat>, current: Option<Day>, dir: seq<DayFile<Record<E>>>, i: nat, from: nat, limit: nat)
    requires Sorted(dir) && i < |dir| && |Take(ReadSkipping(cache, current, dir[..i], from), limit)| < limit
    ensures Agree(cache, ReadCache(cache, current, dir[..i], from, limit), dir[i].day)
    ensures Take(ReadSkipping(cache, current, dir[..i + 1], from), limit)
         == Take(Take(ReadSkipping(cache, current, dir[..i], from), limit) + Owed(cache, current, dir[i], from), limit)
    ensures ReadCache(cache, current, dir[..i + 1], from, limit)
         == CacheTurn(cache, ReadCache(cache, current, dir[..i], from, limit), current, dir[i], from)
  {
    SkippingNext(cache, current, dir, i, from);
    ReadCacheElsewhere(cache, current, dir[..i], from, limit, dir[i].day);
    assert dir[..i + 1][..i] == dir[..i];
  }

  /** A turn of the loop of `Scan`. */
  lemma NextFileScanned<E>(cache: map<Day, nat>, current: Option<Day>, dir: seq<DayFile<Record<E>>>, i: nat, from: nat)
    requires i < |dir|
    ensures ReadSkipping(cache, current, dir[..i + 1], from)
         == ReadSkipping(cache, current, dir[..i], from) + Owed(cache, current, dir[i], from)
    ensures ScanCache(cache, current, dir[..i + 1], from)
         == CacheTurn(cache, ScanCache(cache, current, dir[..i], from), current, dir[i], from)
  {
    SkippingNext(cache, current, dir, i, from);
    assert dir[..i + 1][..i] == dir[..i];
  }

  lemma DecodeDays<E>(c: Codec<E>, files: seq<DayFile<Byte>>)
    requires Sorted(files)
    ensures Sorted(Decode(c, files)) && Newest(Decode(c, files)) == Newest(files)
  {
  }

  /** What the turn of one file may rely on. */
  lemma FileKnown<E>(c: Codec<E>, files: seq<DayFile<Byte>>, current: Day, i: nat)
    requires FilesOk(c, files, current) && i < |files|
    ensures WholeLines(files[i].content) && !ScanLines(c, files[i].content).bad
    ensures var known := ScanLines(c, files[i].content).recs;
            && Decode(c, files)[i] == DayFile(files[i].day, known)
            && (known != [] ==> MaxSeq(known) == known[|known| - 1].seqNo > 0)
  {
    assert files[i] in files;
    SliceNumbered(Decode(c, files), i);
  }

  lemma PageIsFull<E>(out: seq<Record<E>>, recs: seq<Record<E>>, i: nat, from: nat, limit: nat)
    requires i <= |recs| && |out + AtLeast(recs[..i], from)| == limit
    ensures Take(out + AtLeast(recs, from), limit) == out + AtLeast(recs[..i], from)
  {
    assert recs == recs[..i] + recs[i..];
    AtLeastConcat(recs[..i], recs[i..], from);
    assert out + AtLeast(recs, from) == out + AtLeast(recs[..i], from) + AtLeast(recs[i..], from);
  }

  /** One turn of `ReadFrom`: nothing from a file the cache says is behind `from`. */
  method ReadUnlessBehind<E(!new)>(c: Codec<E>, file: DayFile<Byte>, newest: Option<Day>, maxSeq: map<Day, nat>, from: nat)
    returns (recs: seq<Record<E>>, max: map<Day, nat>)
    requires WholeLines(file.content) && !ScanLines(c, file.content).bad
    requires var known := ScanLines(c, file.content).recs;
             known != [] ==> MaxSeq(known) == known[|known| - 1].seqNo > 0
    ensures var f := DayFile(file.day, ScanLines(c, file.content).recs);
            AtLeast(recs, from) == Owed(maxSeq, newest, f, from) && max == CacheTurn(maxSeq, maxSeq, newest, f, from)
  {
    if newest != Some(file.day) && file.day in maxSeq && maxSeq[file.day] < from {
      return [], maxSeq;
    }
    CleanReads(c, file.content);
    var r := ReadRecordsFromFile(c, file.content);
    recs, max := r.value, maxSeq;
    CachesKnown(maxSeq, newest, DayFile(file.day, recs), from);
    if newest != Some(file.day) && recs != [] {
      max := maxSeq[file.day := recs[|recs| - 1].seqNo];
    }
  }

  /** In a numbered log the last record of a file read decides what is cached. */
  lemma CachesKnown<E>(maxSeq: map<Day, nat>, newest: Option<Day>, f: DayFile<Record<E>>, from: nat)
    requires !Skips(maxSeq, newest, f.day, from)
    requires f.content != [] ==> MaxSeq(f.content) == f.content[|f.content| - 1].seqNo > 0
    ensures CacheTurn(maxSeq, maxSeq, newest, f, from)
         == if newest != Some(f.day) && f.content != [] then maxSeq[f.day := f.content[|f.content| - 1].seqNo] else maxSeq
  {
  }

  /** One turn of `Scan` on a journal other than the current one, with the cache as it was when
      the scan began. */
  method ScanUnlessBehind<E(!new)>(c: Codec<E>, file: DayFile<Byte>, cache: map<Day, nat>, maxSeq: map<Day, nat>, from: nat)
    returns (out: seq<Record<E>>, max: map<Day, nat>)
    requires WholeLines(file.content) && !ScanLines(c, file.content).bad
    ensures var f := DayFile(file.day, ScanLines(c, file.content).recs);
            out == Owed(cache, None, f, from) && max == CacheTurn(cache, maxSeq, None, f, from)
  {
    max := maxSeq;
    if file.day in cache && cache[file.day] < from {
      return [], maxSeq;
    }
    assert file.content[0..] == file.content;
    var p := ScanFile(c, file.content, 0, from);
    out := p.out;
    if p.lastSeq > 0 {
      max := maxSeq[file.day := p.lastSeq];
    }
  }

  lemma OneMoreRecord<E>(c: Codec<E>, files: seq<DayFile<Byte>>, day: Day, recs: seq<Record<E>>, rec: Record<E>)
    ensures AppendTo(AppendTo(files, day, EncodeAll(c, recs)), day, c.encode(rec) + [NEWLINE])
         == AppendTo(files, day, EncodeAll(c, recs + [rec]))
  {
    AppendToTwice(files, day, EncodeAll(c, recs), c.encode(rec) + [NEWLINE]);
    EncodeAllConcat(c, recs, [rec]);
    assert EncodedLines(c, [rec]) == [c.encode(rec)];
    assert Join([c.encode(rec)]) == c.encode(rec) + [NEWLINE];
  }

  /** Writing a batch to the newest journal appends it to the log and disturbs no cursor. */
  lemma AppendKeeps<E(!new)>(
      c: Codec<E>, files: seq<DayFile<Byte>>, today: Day, recs: seq<Record<E>>, cursors: map<Day, Cursor>)
    requires Journal.Valid(c) && FilesOk(c, files, today) && CursorsOk(c, files, cursors)
    requires NoneAfter(files, today) && NumberedAfter(recs, |Log(c, files)|)
    ensures var more := AppendTo(files, today, EncodeAll(c, recs));
            && FilesOk(c, more, today) && CursorsOk(c, more, cursors) && Until(more, today)
            && Log(c, more) == Log(c, files) + recs
  {
    AppendedFiles(c, files, today, recs);
    AppendedCursors(c, files, today, EncodeAll(c, recs), cursors);
    UntilIs(files, today);
  }

  /** Nor any cached maximum, when the newest journal has none. */
  lemma CacheAppends<E(!new)>(c: Codec<E>, files: seq<DayFile<Byte>>, today: Day, recs: seq<Record<E>>, cache: map<Day, nat>)
    requires Journal.Valid(c) && FilesOk(c, files, today) && NoneAfter(files, today)
    ensures CacheGood(cache, Decode(c, files)) ==>
              CacheGood(cache, Decode(c, AppendTo(files, today, EncodeAll(c, recs))))
  {
    DecodeAppend(c, files, today, recs);
    DecodeDays(c, files);
    NewestIs(files, today);
    if CacheGood(cache, Decode(c, files)) {
      AppendedGood(cache, Decode(c, files), today, recs);
    }
  }

  lemma CacheRotates<E>(c: Codec<E>, files: seq<DayFile<Byte>>, today: Day, cache: map<Day, nat>)
    requires Clean(c, files) && Sorted(files) && NoneAfter(files, today)
    ensures CacheGood(cache, Decode(c, files)) ==> CacheGood(cache, Decode(c, OpenDay(files, today)))
  {
    DecodeOpen(c, files, today);
    DecodeDays(c, files);
    if CacheGood(cache, Decode(c, files)) {
      OpenedGood(cache, Decode(c, files), today);
    }
  }

  lemma AppendedFiles<E(!new)>(c: Codec<E>, files: seq<DayFile<Byte>>, today: Day, recs: seq<Record<E>>)
    requires Journal.Valid(c) && Clean(c, files) && Sorted(files) && QuietAfter(files, today) && HasDay(files, today)
    ensures var more := AppendTo(files, today, EncodeAll(c, recs));
            && Clean(c, more) && Sorted(more) && HasDay(more, today) && Newest(more) == Newest(files)
            && Log(c, more) == Log(c, files) + recs
  {
    var bytes := EncodeAll(c, recs);
    NewestAppended(files, today, bytes);
    AppendToSorted(files, today, bytes);
    AppendToHasDay(files, today, bytes, today);
    DecodeAppend(c, files, today, recs);
    DecodeShape(c, files, today);
    AppendToConcat(Decode(c, files), today, recs);
  }

  /** A journal's cursor names a prefix of it. */
  ghost predicate CursorsOk<E>(c: Codec<E>, files: seq<DayFile<Byte>>, cursors: map<Day, Cursor>) {
    forall f | f in files && f.day in cursors :: CursorOk(c, f.content, Some(cursors[f.day]))
  }

  lemma AppendedCursors<E>(c: Codec<E>, files: seq<DayFile<Byte>>, today: Day, bytes: Bytes, cursors: map<Day, Cursor>)
    requires Sorted(files) && CursorsOk(c, files, cursors)
    ensures CursorsOk(c, AppendTo(files, today, bytes), cursors)
  {
    forall f | f in AppendTo(files, today, bytes) && f.day in cursors
      ensures CursorOk(c, f.content, Some(cursors[f.day]))
    {
      AppendToFile(files, today, bytes, f);
      if f.day == today {
        var g :| g in files && g.day == today && f.content == g.content + bytes;
        CursorGrows(c, g.content, bytes, Some(cursors[today]));
      }
    }
  }

  lemma DecodeShape<E>(c: Codec<E>, files: seq<DayFile<Byte>>, day: Day)
    requires Sorted(files) && QuietAfter(files, day) && HasDay(files, day)
    ensures Sorted(Decode(c, files)) && HasDay(Decode(c, files), day)
    ensures QuietAfter(Decode(c, files), day)
  {
    var f :| f in files && f.day == day;
    var i :| 0 <= i < |files| && files[i] == f;
    assert Decode(c, files)[i] in Decode(c, files);
    forall g | g in Decode(c, files) && g.day > day
      ensures g.content == []
    {
      var k :| 0 <= k < |files| && Decode(c, files)[k] == g;
      assert files[k] in files && files[k].content == [];
    }
  }

  /** Opening a day's journal adds at most an empty file. */
  lemma OpenedFiles<E>(c: Codec<E>, files: seq<DayFile<Byte>>, today: Day)
    requires Clean(c, files) && Sorted(files) && NoneAfter(files, today)
    ensures var more := OpenDay(files, today);
            && Clean(c, more) && Sorted(more) && NoneAfter(more, today) && HasDay(more, today)
            && Log(c, more) == Log(c, files)
            && (forall f | f in files :: f in more)
            && (forall f | f in more :: f in files || f == DayFile(today, []))
  {
    OpenDayMembers(files, today);
    OpenDaySorted(files, today);
    DecodeOpen(c, files, today);
    OpenDayMembers(Decode(c, files), today);
  }

  lemma CursorUpdated<E>(c: Codec<E>, files: seq<DayFile<Byte>>, current: Day, cursors: map<Day, Cursor>, i: nat, x: Cursor)
    requires CursorsOk(c, files, cursors) && Sorted(files)
    requires i < |files| && files[i].day == current && CursorOk(c, files[i].content, Some(x))
    ensures CursorsOk(c, files, cursors[current := x])
  {
    assert files[i] in files;
  }

  /** What a handle that has cached nothing finds when it opens. */
  lemma FirstOpen<E>(
      c: Codec<E>, files: seq<DayFile<Byte>>, today: Day, more: seq<DayFile<Byte>>, cache: map<Day, nat>, cursors: map<Day, Cursor>)
    requires Clean(c, files) && Sorted(files) && NoneAfter(files, today) && Numbered(Log(c, files))
    requires more == OpenDay(files, today) && cache == map[] && cursors == map[]
    ensures FilesOk(c, more, today) && CursorsOk(c, more, cursors) && CacheGood(cache, Decode(c, more))
    ensures Log(c, more) == Log(c, files)
  {
    OpenKeeps(c, files, today, cursors);
  }

  /** Rotating to a new day leaves the log and the cursors as they were. */
  lemma OpenKeeps<E>(c: Codec<E>, files: seq<DayFile<Byte>>, today: Day, cursors: map<Day, Cursor>)
    requires Clean(c, files) && Sorted(files) && NoneAfter(files, today) && Numbered(Log(c, files))
    requires CursorsOk(c, files, cursors) && forall d | d in cursors :: d < today || HasDay(files, today)
    ensures var more := OpenDay(files, today);
            && FilesOk(c, more, today) && NoneAfter(more, today) && CursorsOk(c, more, cursors)
            && Log(c, more) == Log(c, files)
  {
    OpenedFiles(c, files, today);
    var more := OpenDay(files, today);
    forall f | f in more && f.day in cursors
      ensures f in files
    {
      if f !in files {
        OpenDayThere(files, today);
      }
    }
  }

  /** The journals are whole, in order and numbered, and `current` is one of them. */
  ghost predicate FilesOk<E>(c: Codec<E>, files: seq<DayFile<Byte>>, current: Day) {
    Clean(c, files) && Sorted(files) && Numbered(Log(c, files)) && HasDay(files, current)
  }

  /** The part of a numbered log that one journal holds is numbered from where it starts. */
  lemma SliceNumbered<E>(dir: seq<DayFile<Record<E>>>, i: nat)
    requires i < |dir| && Numbered(Concat(dir))
    ensures NumberedAfter(dir[i].content, |Concat(dir[..i])|)
    ensures MaxSeq(dir[i].content) == if dir[i].content == [] then 0 else |Concat(dir[..i])| + |dir[i].content|
  {
    ConcatLast(dir, i);
    assert dir == dir[..i + 1] + dir[i + 1..];
    ConcatConcat(dir[..i + 1], dir[i + 1..]);
    var base, recs := |Concat(dir[..i])|, dir[i].content;
    forall k {:trigger recs[k]} | 0 <= k < |recs|
      ensures recs[k].seqNo == base + k + 1
    {
      assert Concat(dir)[base + k] == recs[k];
    }
    MaxSeqNumbered(recs, base);
  }
}
