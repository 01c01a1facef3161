/** What a handle's caches say about a directory, and when that can be trusted. */
module StoreView {
  import opened Wrappers
  import opened EventLog
  import opened Octets
  import opened Journal
  import opened Directory

  /** The records of a directory of byte files. */
  function Decode<E>(c: Codec<E>, files: seq<DayFile<Byte>>): seq<DayFile<Record<E>>> {
    seq(|files|, i requires 0 <= i < |files| => DayFile(files[i].day, ScanLines(c, files[i].content).recs))
  }

  /** Every file holds whole lines, each blank or a record. */
  ghost predicate Clean<E>(c: Codec<E>, files: seq<DayFile<Byte>>) {
    forall f | f in files :: WholeLines(f.content) && !ScanLines(c, f.content).bad
  }

  function Log<E>(c: Codec<E>, files: seq<DayFile<Byte>>): seq<Record<E>> {
    Concat(Decode(c, files))
  }

  /** No cached maximum is below what its file holds. */
  ghost predicate CacheSound<E>(maxSeq: map<Day, nat>, dir: seq<DayFile<Record<E>>>) {
    forall f | f in dir && f.day in maxSeq :: MaxSeq(f.content) <= maxSeq[f.day]
  }

  predicate Skips(maxSeq: map<Day, nat>, current: Option<Day>, day: Day, from: nat) {
    current != Some(day) && day in maxSeq && maxSeq[day] < from
  }

  /** What a reader is given when it leaves out the files its cache says are behind it. */
  function ReadSkipping<E>(maxSeq: map<Day, nat>, current: Option<Day>, dir: seq<DayFile<Record<E>>>, from: nat)
    : seq<Record<E>>
  {
    if dir == [] then []
    else
      (if Skips(maxSeq, current, dir[0].day, from) then [] else AtLeast(dir[0].content, from))
      + ReadSkipping(maxSeq, current, dir[1..], from)
  }

  /** A read caches the highest sequence of each file it reads, except the one it takes as current. */
  predicate Caches<E>(maxSeq: map<Day, nat>, current: Option<Day>, f: DayFile<Record<E>>, from: nat) {
    current != Some(f.day) && !Skips(maxSeq, current, f.day, from) && MaxSeq(f.content) > 0
  }

  function CacheTurn<E>(
      cache: map<Day, nat>, before: map<Day, nat>, current: Option<Day>, f: DayFile<Record<E>>, from: nat): map<Day, nat>
  {
    if Caches(cache, current, f, from) then before[f.day := MaxSeq(f.content)] else before
  }

  /** The cache after a `Scan` of `dir` that began with `cache`. */
  function ScanCache<E>(cache: map<Day, nat>, current: Option<Day>, dir: seq<DayFile<Record<E>>>, from: nat): map<Day, nat> {
    if dir == [] then cache
    else CacheTurn(cache, ScanCache(cache, current, dir[..|dir| - 1], from), current, dir[|dir| - 1], from)
  }

  /** The cache after a `ReadFrom` of at most `limit` records, which reads no file once its page is
      full. */
  function ReadCache<E>(
      cache: map<Day, nat>, current: Option<Day>, dir: seq<DayFile<Record<E>>>, from: nat, limit: nat): map<Day, nat>
  {
    if dir == [] then cache
    else
      var init := dir[..|dir| - 1];
      var before := ReadCache(cache, current, init, from, limit);
      if |ReadSkipping(cache, current, init, from)| >= limit then before
      else CacheTurn(cache, before, current, dir[|dir| - 1], from)
  }

  // ---- agreement ----

  lemma {:induction false} ConcatConcat<T>(xs: seq<DayFile<T>>, ys: seq<DayFile<T>>)
    ensures Concat(xs + ys) == Concat(xs) + Concat(ys)
  {
    if xs == [] {
      assert xs + ys == ys;
    } else {
      assert (xs + ys)[1..] == xs[1..] + ys;
      ConcatConcat(xs[1..], ys);
      assert xs[0].content + (Concat(xs[1..]) + Concat(ys)) == xs[0].content + Concat(xs[1..]) + Concat(ys);
    }
  }

  lemma ConcatLast<T>(dir: seq<DayFile<T>>, i: nat)
    requires i < |dir|
    ensures Concat(dir[..i + 1]) == Concat(dir[..i]) + dir[i].content
  {
    assert dir[..i + 1] == dir[..i] + [dir[i]];
    ConcatConcat(dir[..i], [dir[i]]);
    assert [dir[i]][1..] == [];
    assert Concat([dir[i]]) == dir[i].content;
  }

  lemma {:induction false} SkippingHarmless<E>(maxSeq: map<Day, nat>, current: Option<Day>, dir: seq<DayFile<Record<E>>>, from: nat)
    requires forall f | f in dir && Skips(maxSeq, current, f.day, from) :: AtLeast(f.content, from) == []
    ensures ReadSkipping(maxSeq, current, dir, from) == AtLeast(Concat(dir), from)
  {
    if dir != [] {
      assert dir[0] in dir;
      SkippingHarmless(maxSeq, current, dir[1..], from);
      AtLeastConcat(dir[0].content, Concat(dir[1..]), from);
    }
  }

  /** Nothing is owed from a file exactly when its highest sequence is below. */
  lemma {:induction false} AtLeastNoneIff<E>(log: seq<Record<E>>, from: nat)
    requires from > 0
    ensures AtLeast(log, from) == [] <==> MaxSeq(log) < from
  {
    if log != [] {
      AtLeastNoneIff(log[1..], from);
    }
  }

  lemma {:induction false} SkippingShortens<E>(maxSeq: map<Day, nat>, current: Option<Day>, dir: seq<DayFile<Record<E>>>, from: nat)
    ensures |ReadSkipping(maxSeq, current, dir, from)| <= |AtLeast(Concat(dir), from)|
  {
    if dir != [] {
      SkippingShortens(maxSeq, current, dir[1..], from);
      AtLeastConcat(dir[0].content, Concat(dir[1..]), from);
    }
  }

  /** The caches leave a file out although it has something a reader is owed. */
  predicate Hides<E>(maxSeq: map<Day, nat>, current: Option<Day>, f: DayFile<Record<E>>, from: nat) {
    Skips(maxSeq, current, f.day, from) && MaxSeq(f.content) >= from
  }

  /** With any cache at all, a reader is given what it is owed if and only if no file that is not
      taken as current has a cached maximum below `from` and a record at or above it. */
  lemma {:induction false} SkippingAgreesIff<E>(maxSeq: map<Day, nat>, current: Option<Day>, dir: seq<DayFile<Record<E>>>, from: nat)
    ensures ReadSkipping(maxSeq, current, dir, from) == AtLeast(Concat(dir), from)
       <==> forall f | f in dir :: !Hides(maxSeq, current, f, from)
  {
    if dir != [] {
      var own, rest := AtLeast(dir[0].content, from), AtLeast(Concat(dir[1..]), from);
      var read := ReadSkipping(maxSeq, current, dir[1..], from);
      SkippingAgreesIff(maxSeq, current, dir[1..], from);
      AtLeastConcat(dir[0].content, Concat(dir[1..]), from);
      if Skips(maxSeq, current, dir[0].day, from) {
        AtLeastNoneIff(dir[0].content, from);
        SkippingShortens(maxSeq, current, dir[1..], from);
        assert [] + read == read && |own + rest| == |own| + |rest|;
        assert Hides(maxSeq, current, dir[0], from) <==> own != [];
        assert own == [] ==> own + rest == rest;
      } else {
        SameTail(own, read, rest);
      }
      HeadOrTail(maxSeq, current, dir, from);
    }
  }

  lemma HeadOrTail<E>(maxSeq: map<Day, nat>, current: Option<Day>, dir: seq<DayFile<Record<E>>>, from: nat)
    requires dir != []
    ensures (forall f | f in dir :: !Hides(maxSeq, current, f, from))
       <==> !Hides(maxSeq, current, dir[0], from) && forall f | f in dir[1..] :: !Hides(maxSeq, current, f, from)
  {
    assert dir[0] in dir && forall f | f in dir[1..] :: f in dir;
  }

  lemma SameTail<T>(a: seq<T>, b: seq<T>, c: seq<T>)
    ensures a + b == a + c <==> b == c
  {
    assert (a + b)[|a|..] == b && (a + c)[|a|..] == c;
  }

  lemma {:induction false} NothingRead<E>(maxSeq: map<Day, nat>, current: Option<Day>, dir: seq<DayFile<Record<E>>>, from: nat)
    requires forall f | f in dir :: Skips(maxSeq, current, f.day, from) || AtLeast(f.content, from) == []
    ensures ReadSkipping(maxSeq, current, dir, from) == []
  {
    if dir != [] {
      assert dir[0] in dir;
      NothingRead(maxSeq, current, dir[1..], from);
    }
  }

  /** A trustworthy cache skips nothing a reader is owed. */
  lemma SkippingAgrees<E>(maxSeq: map<Day, nat>, current: Option<Day>, dir: seq<DayFile<Record<E>>>, from: nat)
    requires CacheSound(maxSeq, dir)
    ensures ReadSkipping(maxSeq, current, dir, from) == AtLeast(Concat(dir), from)
  {
    SkippingAgreesIff(maxSeq, current, dir, from);
  }

  /** No file holds a sequence above the log's length. */
  lemma {:induction false} FileBelow<E>(dir: seq<DayFile<Record<E>>>)
    ensures forall f | f in dir :: MaxSeq(f.content) <= MaxSeq(Concat(dir))
  {
    if dir != [] {
      FileBelow(dir[1..]);
      MaxSeqConcat(dir[0].content, Concat(dir[1..]));
    }
  }

  /** What a scan leaves in the cache for one file depends on that file alone. */
  lemma {:induction false} ScanCacheAt<E>(
      cache: map<Day, nat>, current: Option<Day>, dir: seq<DayFile<Record<E>>>, from: nat, f: DayFile<Record<E>>)
    requires Sorted(dir) && f in dir
    ensures var after, alone := ScanCache(cache, current, dir, from), CacheTurn(cache, cache, current, f, from);
            (f.day in after <==> f.day in alone) && (f.day in after ==> after[f.day] == alone[f.day])
  {
    var n := |dir| - 1;
    if f == dir[n] {
      ScanCacheElsewhere(cache, current, dir[..n], from, f.day);
    } else {
      assert f in dir[..n];
      ScanCacheAt(cache, current, dir[..n], from, f);
    }
  }

  lemma {:induction false} ScanCacheElsewhere<E>(
      cache: map<Day, nat>, current: Option<Day>, dir: seq<DayFile<Record<E>>>, from: nat, day: Day)
    requires !HasDay(dir, day)
    ensures var after := ScanCache(cache, current, dir, from);
            (day in after <==> day in cache) && (day in after ==> after[day] == cache[day])
  {
    if dir != [] {
      var n := |dir| - 1;
      assert dir[n] in dir;
      assert forall f | f in dir[..n] :: f in dir;
      ScanCacheElsewhere(cache, current, dir[..n], from, day);
    }
  }

  // ---- what reads leave in the cache ----

  lemma Associate<T>(a: seq<T>, b: seq<T>, c: seq<T>)
    ensures a + (b + c) == a + b + c
  {
  }

  lemma TailConcat<T>(xs: seq<T>, ys: seq<T>)
    requires xs != []
    ensures (xs + ys)[0] == xs[0] && (xs + ys)[1..] == xs[1..] + ys
  {
  }

  lemma {:induction false} SkippingConcat<E>(
      maxSeq: map<Day, nat>, current: Option<Day>, xs: seq<DayFile<Record<E>>>, ys: seq<DayFile<Record<E>>>, from: nat)
    ensures ReadSkipping(maxSeq, current, xs + ys, from)
         == ReadSkipping(maxSeq, current, xs, from) + ReadSkipping(maxSeq, current, ys, from)
  {
    if xs == [] {
      assert xs + ys == ys;
    } else {
      SkippingConcat(maxSeq, current, xs[1..], ys, from);
      TailConcat(xs, ys);
      Associate(if Skips(maxSeq, current, xs[0].day, from) then [] else AtLeast(xs[0].content, from),
                ReadSkipping(maxSeq, current, xs[1..], from), ReadSkipping(maxSeq, current, ys, from));
    }
  }

  lemma SkippingNext<E>(maxSeq: map<Day, nat>, current: Option<Day>, dir: seq<DayFile<Record<E>>>, i: nat, from: nat)
    requires i < |dir|
    ensures ReadSkipping(maxSeq, current, dir[..i + 1], from)
         == ReadSkipping(maxSeq, current, dir[..i], from)
            + if Skips(maxSeq, current, dir[i].day, from) then [] else AtLeast(dir[i].content, from)
  {
    assert dir[..i + 1] == dir[..i] + [dir[i]];
    assert [dir[i]][1..] == [];
    SkippingConcat(maxSeq, current, dir[..i], [dir[i]], from);
  }

  /** The files before a day's journal. */
  function Before<T>(dir: seq<DayFile<T>>, day: Day): seq<DayFile<T>> {
    if dir == [] || dir[0].day >= day then [] else [dir[0]] + Before(dir[1..], day)
  }

  lemma {:induction false} BeforeIs<T>(dir: seq<DayFile<T>>, i: nat)
    requires Sorted(dir) && i < |dir|
    ensures Before(dir, dir[i].day) == dir[..i]
  {
    if i > 0 {
      BeforeIs(dir[1..], i - 1);
      assert dir[1..][i - 1] == dir[i];
      assert dir[..i] == [dir[0]] + dir[1..][..i - 1];
    }
  }

  lemma {:induction false} ReadCacheElsewhere<E>(
      cache: map<Day, nat>, current: Option<Day>, dir: seq<DayFile<Record<E>>>, from: nat, limit: nat, day: Day)
    requires !HasDay(dir, day)
    ensures var after := ReadCache(cache, current, dir, from, limit);
            (day in after <==> day in cache) && (day in after ==> after[day] == cache[day])
  {
    if dir != [] {
      var n := |dir| - 1;
      assert dir[n] in dir;
      assert forall f | f in dir[..n] :: f in dir;
      ReadCacheElsewhere(cache, current, dir[..n], from, limit, day);
    }
  }

  predicate Agree(a: map<Day, nat>, b: map<Day, nat>, day: Day) {
    (day in a <==> day in b) && (day in a ==> a[day] == b[day])
  }

  /** What a read leaves in the cache for a file it comes to after those of `before`. */
  function ReadAlone<E>(
      cache: map<Day, nat>, current: Option<Day>, before: seq<DayFile<Record<E>>>, f: DayFile<Record<E>>, from: nat, limit: nat)
    : map<Day, nat>
  {
    if |ReadSkipping(cache, current, before, from)| >= limit then cache else CacheTurn(cache, cache, current, f, from)
  }

  lemma ReadCacheNext<E>(
      cache: map<Day, nat>, current: Option<Day>, init: seq<DayFile<Record<E>>>, last: DayFile<Record<E>>, from: nat, limit: nat,
      day: Day)
    ensures day != last.day ==>
              Agree(ReadCache(cache, current, init + [last], from, limit), ReadCache(cache, current, init, from, limit), day)
    ensures !HasDay(init, last.day) ==>
              Agree(ReadCache(cache, current, init + [last], from, limit), ReadAlone(cache, current, init, last, from, limit), last.day)
  {
    assert (init + [last])[..|init|] == init;
    if !HasDay(init, last.day) {
      ReadCacheElsewhere(cache, current, init, from, limit, last.day);
    }
  }

  /** What a read leaves in the cache for one file depends on that file, and on whether the page was
      full before it. */
  lemma {:induction false} ReadCacheAt<E>(
      cache: map<Day, nat>, current: Option<Day>, dir: seq<DayFile<Record<E>>>, from: nat, limit: nat, i: nat)
    requires Sorted(dir) && i < |dir|
    ensures Agree(ReadCache(cache, current, dir, from, limit), ReadAlone(cache, current, dir[..i], dir[i], from, limit), dir[i].day)
    decreases |dir|
  {
    var init, last := dir[..|dir| - 1], dir[|dir| - 1];
    assert dir == init + [last];
    ReadCacheNext(cache, current, init, last, from, limit, dir[i].day);
    if i < |init| {
      assert init[i] == dir[i] && init[..i] == dir[..i];
      ReadCacheAt(cache, current, init, from, limit, i);
    } else {
      assert init == dir[..i];
    }
  }

  lemma SkippingPrefix<E>(maxSeq: map<Day, nat>, current: Option<Day>, dir: seq<DayFile<Record<E>>>, i: nat, from: nat)
    requires i <= |dir|
    ensures ReadSkipping(maxSeq, current, dir[..i], from) <= ReadSkipping(maxSeq, current, dir, from)
  {
    assert dir[..i] + dir[i..] == dir;
    SkippingConcat(maxSeq, current, dir[..i], dir[i..], from);
  }

  /** A full page ends a read: the files behind add nothing to it or to the cache. */
  lemma {:induction false} ReadStops<E>(
      cache: map<Day, nat>, current: Option<Day>, dir: seq<DayFile<Record<E>>>, i: nat, from: nat, limit: nat)
    requires i <= |dir| && (i == |dir| || |ReadSkipping(cache, current, dir[..i], from)| >= limit)
    ensures ReadCache(cache, current, dir, from, limit) == ReadCache(cache, current, dir[..i], from, limit)
    ensures Take(ReadSkipping(cache, current, dir, from), limit) == Take(ReadSkipping(cache, current, dir[..i], from), limit)
    decreases |dir|
  {
    var n := |dir| - 1;
    if i == |dir| {
      assert dir[..i] == dir;
    } else {
      assert dir[..n][..i] == dir[..i];
      ReadStops(cache, current, dir[..n], i, from, limit);
      SkippingPrefix(cache, current, dir[..n], i, from);
      SkippingPrefix(cache, current, dir, n, from);
    }
  }

  /** No cached maximum is wrong, and the newest journal has none. */
  ghost predicate CacheGood<E>(cache: map<Day, nat>, dir: seq<DayFile<Record<E>>>) {
    && CacheSound(cache, dir)
    && forall d | d in cache :: Newest(dir).Some? && d < Newest(dir).value
  }

  /** One journal's turn, whatever the other journals' left. */
  lemma TurnGood<E>(cache: map<Day, nat>, after: map<Day, nat>, dir: seq<DayFile<Record<E>>>)
    requires Sorted(dir) && CacheGood(cache, dir)
    requires forall d | d in after :: (d in cache && after[d] == cache[d])
               || exists i :: 0 <= i < |dir| - 1 && dir[i].day == d && after[d] == MaxSeq(dir[i].content)
    ensures CacheGood(after, dir)
  {
  }

  /** A read that takes the newest journal as current leaves a good cache good. */
  lemma ReadCacheGood<E>(cache: map<Day, nat>, dir: seq<DayFile<Record<E>>>, from: nat, limit: nat)
    requires Sorted(dir) && CacheGood(cache, dir)
    ensures CacheGood(ReadCache(cache, Newest(dir), dir, from, limit), dir)
  {
    var after := ReadCache(cache, Newest(dir), dir, from, limit);
    forall d | d in after
      ensures (d in cache && after[d] == cache[d])
           || exists i :: 0 <= i < |dir| - 1 && dir[i].day == d && after[d] == MaxSeq(dir[i].content)
    {
      if HasDay(dir, d) {
        var f :| f in dir && f.day == d;
        var i :| 0 <= i < |dir| && dir[i] == f;
        ReadCacheAt(cache, Newest(dir), dir, from, limit, i);
      } else {
        ReadCacheElsewhere(cache, Newest(dir), dir, from, limit, d);
      }
    }
    TurnGood(cache, after, dir);
  }

  lemma ScanCacheGood<E>(cache: map<Day, nat>, dir: seq<DayFile<Record<E>>>, from: nat)
    requires Sorted(dir) && CacheGood(cache, dir)
    ensures CacheGood(ScanCache(cache, Newest(dir), dir, from), dir)
  {
    var after := ScanCache(cache, Newest(dir), dir, from);
    forall d | d in after
      ensures (d in cache && after[d] == cache[d])
           || exists i :: 0 <= i < |dir| - 1 && dir[i].day == d && after[d] == MaxSeq(dir[i].content)
    {
      if HasDay(dir, d) {
        var f :| f in dir && f.day == d;
        var i :| 0 <= i < |dir| && dir[i] == f;
        ScanCacheAt(cache, Newest(dir), dir, from, f);
      } else {
        ScanCacheElsewhere(cache, Newest(dir), dir, from, d);
      }
    }
    TurnGood(cache, after, dir);
  }

  /** The cache of a handle that others' appends and rotations go on around. */
  lemma AppendedGood<E>(cache: map<Day, nat>, dir: seq<DayFile<Record<E>>>, day: Day, recs: seq<Record<E>>)
    requires Sorted(dir) && CacheGood(cache, dir) && day !in cache
    ensures CacheGood(cache, AppendTo(dir, day, recs))
  {
    NewestAppended(dir, day, recs);
    forall f | f in AppendTo(dir, day, recs) && f.day in cache
      ensures MaxSeq(f.content) <= cache[f.day]
    {
      AppendToFile(dir, day, recs, f);
    }
  }

  lemma OpenedGood<E>(cache: map<Day, nat>, dir: seq<DayFile<Record<E>>>, day: Day)
    requires Sorted(dir) && CacheGood(cache, dir) && NoneAfter(dir, day)
    ensures CacheGood(cache, OpenDay(dir, day))
  {
    OpenDayMembers(dir, day);
    NewestOpened(dir, day);
  }

  /** A handle that has scanned everything, with another handle then appending to `day`: its
      next scan delivers the new records if and only if `day` is its own current journal or
      had nothing in it. Otherwise it delivers nothing, however often it is asked. */
  lemma SecondScanSees<E>(
      current: Option<Day>, dir: seq<DayFile<Record<E>>>, first: nat, file: DayFile<Record<E>>, recs: seq<Record<E>>)
    requires Sorted(dir) && Numbered(Concat(dir)) && file in dir && QuietAfter(dir, file.day)
    requires recs != [] && NumberedAfter(recs, |Concat(dir)|)
    ensures var from, grown := |Concat(dir)| + 1, AppendTo(dir, file.day, recs);
            && AtLeast(Concat(grown), from) == recs
            && ReadSkipping(ScanCache(map[], current, dir, first), current, grown, from)
            == if current == Some(file.day) || file.content == [] then recs else []
  {
    var n, grown := |Concat(dir)|, AppendTo(dir, file.day, recs);
    var cache := ScanCache(map[], current, dir, first);
    NewIsTail(dir, file.day, recs);
    OldIsBehind(dir);
    CachedSkips(current, dir, first, file);
    AppendToMembers(dir, file.day, recs);
    if Skips(cache, current, file.day, n + 1) {
      NothingRead(cache, current, grown, n + 1);
    } else {
      SkippingHarmless(cache, current, grown, n + 1);
    }
  }

  /** The appended records are what a reader past the old ones is owed. */
  lemma NewIsTail<E>(dir: seq<DayFile<Record<E>>>, day: Day, recs: seq<Record<E>>)
    requires Sorted(dir) && Numbered(Concat(dir)) && HasDay(dir, day) && QuietAfter(dir, day)
    requires NumberedAfter(recs, |Concat(dir)|)
    ensures AtLeast(Concat(AppendTo(dir, day, recs)), |Concat(dir)| + 1) == recs
  {
    var n := |Concat(dir)|;
    AppendToConcat(dir, day, recs);
    AtLeastNumbered(Concat(dir), 0, n + 1);
    AtLeastNumbered(recs, n, n + 1);
    AtLeastConcat(Concat(dir), recs, n + 1);
  }

  /** No file holds anything for a reader past all records. */
  lemma OldIsBehind<E>(dir: seq<DayFile<Record<E>>>)
    requires Numbered(Concat(dir))
    ensures forall f | f in dir :: MaxSeq(f.content) <= |Concat(dir)| && AtLeast(f.content, |Concat(dir)| + 1) == []
  {
    MaxSeqNumbered(Concat(dir), 0);
    FileBelow(dir);
    var n := |Concat(dir)|;
    forall f | f in dir
      ensures MaxSeq(f.content) <= n && AtLeast(f.content, n + 1) == []
    {
      AtLeastNone(f.content, n + 1);
    }
  }

  /** After a scan the cache leaves out a file exactly when it is not the handle's own and was not
      empty. */
  lemma CachedSkips<E>(current: Option<Day>, dir: seq<DayFile<Record<E>>>, first: nat, file: DayFile<Record<E>>)
    requires Sorted(dir) && Numbered(Concat(dir)) && file in dir && MaxSeq(file.content) <= |Concat(dir)|
    ensures Skips(ScanCache(map[], current, dir, first), current, file.day, |Concat(dir)| + 1)
       <==> current != Some(file.day) && file.content != []
  {
    ScanCacheAt(map[], current, dir, first, file);
    FileHasSeqs(dir, file);
  }

  /** In a numbered log a file has a positive sequence exactly when it has records. */
  lemma {:induction false} FileHasSeqs<E>(dir: seq<DayFile<Record<E>>>, file: DayFile<Record<E>>)
    requires file in dir && forall r | r in Concat(dir) :: r.seqNo > 0
    ensures MaxSeq(file.content) > 0 <==> file.content != []
  {
    if file == dir[0] {
      if file.content != [] {
        assert file.content[0] == Concat(dir)[0];
        MaxSeqBounds(file.content);
      }
    } else {
      FileHasSeqs(dir[1..], file);
    }
  }

  // ---- writing through the codec ----

  /** Appending encoded records to a file appends the records to what is read back. */
  lemma CleanGrows<E(!new)>(c: Codec<E>, b: Bytes, recs: seq<Record<E>>)
    requires Valid(c) && WholeLines(b) && !ScanLines(c, b).bad
    ensures WholeLines(b + EncodeAll(c, recs))
    ensures ScanLines(c, b + EncodeAll(c, recs)) == Scanned(ScanLines(c, b).recs + recs, false)
  {
    RoundTrip(c, recs);
    SplitConcat(b, EncodeAll(c, recs));
    ScanResumes(c, b, EncodeAll(c, recs));
  }

  lemma CleanCons<E>(c: Codec<E>, file: DayFile<Byte>, rest: seq<DayFile<Byte>>)
    ensures Clean(c, [file] + rest) <==> Clean(c, [file]) && Clean(c, rest)
    ensures Clean(c, [file] + rest) ==> Decode(c, [file] + rest) == Decode(c, [file]) + Decode(c, rest)
  {
    assert forall f | f in [file] + rest :: f == file || f in rest;
    assert file in [file] && file in [file] + rest && forall f | f in rest :: f in [file] + rest;
  }

  lemma CleanOne<E>(c: Codec<E>, file: DayFile<Byte>)
    ensures Clean(c, [file]) <==> WholeLines(file.content) && !ScanLines(c, file.content).bad
    ensures Clean(c, [file]) ==> Decode(c, [file]) == [DayFile(file.day, ScanLines(c, file.content).recs)]
  {
    assert file in [file];
  }

  lemma {:induction false} DecodeAppend<E(!new)>(c: Codec<E>, files: seq<DayFile<Byte>>, day: Day, recs: seq<Record<E>>)
    requires Valid(c) && Clean(c, files)
    ensures Clean(c, AppendTo(files, day, EncodeAll(c, recs)))
    ensures Decode(c, AppendTo(files, day, EncodeAll(c, recs))) == AppendTo(Decode(c, files), day, recs)
  {
    if files != [] {
      var file, rest := files[0], files[1..];
      assert files == [file] + rest;
      CleanCons(c, file, rest);
      CleanOne(c, file);
      var added := EncodeAll(c, recs);
      if file.day == day {
        var more := file.(content := file.content + added);
        CleanGrows(c, file.content, recs);
        CleanOne(c, more);
        CleanCons(c, more, rest);
      } else {
        DecodeAppend(c, rest, day, recs);
        CleanCons(c, file, AppendTo(rest, day, added));
      }
    }
  }

  lemma {:induction false} DecodeOpen<E>(c: Codec<E>, files: seq<DayFile<Byte>>, day: Day)
    requires Clean(c, files)
    ensures Clean(c, OpenDay(files, day))
    ensures Decode(c, OpenDay(files, day)) == OpenDay(Decode(c, files), day)
  {
    CleanOne(c, DayFile(day, []));
    if files != [] {
      var file, rest := files[0], files[1..];
      assert files == [file] + rest;
      CleanCons(c, file, rest);
      CleanOne(c, file);
      if file.day < day {
        DecodeOpen(c, rest, day);
        CleanCons(c, file, OpenDay(rest, day));
      } else {
        CleanCons(c, DayFile(day, []), files);
      }
    }
  }

  /** Reading a clean file whole and streaming it give the same records. */
  lemma CleanReads<E>(c: Codec<E>, b: Bytes)
    requires WholeLines(b) && !ScanLines(c, b).bad
    ensures ReadLines(c, b) == Ok(ScanLines(c, b).recs)
  {
  }
}
