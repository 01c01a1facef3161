/**
 The two discovery runners: page through the store to collect the identities it already
 holds, then append what is new. Both runners have this shape; they differ in how an
 item names itself and in how its identity is read back from a stored event.
 */
module Discovery {
  import opened Wrappers
  import opened EventLog
  import opened Directory
  import opened FileStores
  import opened Text
  import Filings

  const PAGE_SIZE := 512

  /** Item type D, event type E. `key` is what the reload loop makes of a stored event. */
  datatype Source<!D, !E> = Source(id: D -> string, event: D -> E, key: E -> Option<string>)

  /** A card of the wire's listing page: its headline, its URL once resolved, and the ID its URL ends
      in, "" when it ends in none. */
  datatype Card = Card(headline: string, url: string, extracted: string)

  /** A press release as the wire client returns it, and its stored event. */
  datatype Release = Release(id: string, url: string)
  datatype ReleaseEvent = PrDiscovered(partitionKey: string, url: string) | OtherEvent

  /** `Discover`: cards without a headline or a URL are dropped, and a URL stands in for an ID. */
  function Discover(cards: seq<Card>): seq<Release> {
    if cards == [] then []
    else
      var card := cards[0];
      (if card.headline == "" || card.url == "" then []
       else [Release(if card.extracted == "" then card.url else card.extracted, card.url)])
      + Discover(cards[1..])
  }

  /** `LoadSeenIDs`: the partition key, or the URL when there is none. */
  function ReleaseKey(e: ReleaseEvent): Option<string> {
    match e
    case OtherEvent => None
    case PrDiscovered(key, url) => if key != "" then Some(key) else if url != "" then Some(url) else None
  }

  function PressReleases(): Source<Release, ReleaseEvent> {
    Source((r: Release) => r.id, (r: Release) => PrDiscovered(r.id, r.url), ReleaseKey)
  }

  /** A filing as the feed lists it, and its stored event. */
  datatype Filing = Filing(cik: string, accession: string)
  datatype FilingEvent = FilingDiscovered(cik: string, accession: string) | UnrelatedEvent

  /** `parseFilingArrays`: the filings of one company, but those without an accession number. */
  function ParseFilings(cik: string, accessions: seq<string>): seq<Filing> {
    if accessions == [] then []
    else
      var accession := TrimSpace(accessions[0]);
      (if accession == "" then [] else [Filing(Filings.NormalizeCik(cik), accession)]) + ParseFilings(cik, accessions[1..])
  }

  /** `LoadSeenIdentities`: only an event with both a CIK and an accession number counts. */
  function FilingKey(e: FilingEvent): Option<string> {
    match e
    case UnrelatedEvent => None
    case FilingDiscovered(cik, accession) =>
      if cik != "" && accession != "" then Some(Filings.FilingIdentity(cik, accession)) else None
  }

  function FilingFeed(): Source<Filing, FilingEvent> {
    Source((f: Filing) => Filings.FilingIdentity(f.cik, f.accession),
           (f: Filing) => FilingDiscovered(f.cik, f.accession), FilingKey)
  }

  // ---- what the loops compute ----

  function Keys<D, E>(src: Source<D, E>, log: seq<Record<E>>): set<string> {
    if log == [] then {}
    else
      match src.key(log[0].event)
      case None => Keys(src, log[1..])
      case Some(k) => {k} + Keys(src, log[1..])
  }

  /** The items whose identity is new to `seen`, each identity once. */
  function Fresh<D, E>(src: Source<D, E>, items: seq<D>, seen: set<string>): seq<D> {
    if items == [] then []
    else if src.id(items[0]) in seen then Fresh(src, items[1..], seen)
    else [items[0]] + Fresh(src, items[1..], seen + {src.id(items[0])})
  }

  function EventsOf<D, E>(src: Source<D, E>, items: seq<D>): seq<E> {
    seq(|items|, i requires 0 <= i < |items| => src.event(items[i]))
  }

  function AppendAll<E>(log: seq<Record<E>>, events: seq<E>): seq<Record<E>> {
    log + Stamp(events, |log|)
  }

  /** The log after a run. */
  function Ran<D, E>(src: Source<D, E>, log: seq<Record<E>>, items: seq<D>): seq<Record<E>> {
    AppendAll(log, EventsOf(src, Fresh(src, items, Keys(src, log))))
  }

  // ---- other processes ----

  /** What other processes append to the store while a run goes on: before its k-th operation the
      k-th batch, on the k-th day, and after the last batch nothing any more. */
  datatype Others<+E> = Others(batches: seq<(Day, seq<E>)>, last: Day)

  function BatchAt<E>(o: Others<E>, k: nat): seq<E> {
    if k < |o.batches| then o.batches[k].1 else []
  }

  function DayAt<E>(o: Others<E>, k: nat): Day {
    if k < |o.batches| then o.batches[k].0 else o.last
  }

  /** The clock does not go back. */
  ghost predicate Forward<E>(o: Others<E>) {
    forall i, j {:trigger DayAt(o, i), DayAt(o, j)} | 0 <= i <= j :: DayAt(o, i) <= DayAt(o, j)
  }

  /** The first n batches. */
  function Gathered<E>(o: Others<E>, n: nat): seq<E> {
    if n == 0 then [] else Gathered(o, n - 1) + BatchAt(o, n - 1)
  }

  /** The n batches from the k-th on. */
  function GatheredFrom<E>(o: Others<E>, k: nat, n: nat): seq<E>
    decreases n
  {
    if n == 0 then [] else BatchAt(o, k) + GatheredFrom(o, k + 1, n - 1)
  }

  /** The appends of a run and of the others, in the order the store has them. */
  datatype Turn<+E> = Mine(event: E) | Theirs(event: E)

  function Events<E>(turns: seq<Turn<E>>): seq<E> {
    seq(|turns|, i requires 0 <= i < |turns| => turns[i].event)
  }

  function Own<E>(turns: seq<Turn<E>>): seq<E> {
    if turns == [] then [] else (if turns[0].Mine? then [turns[0].event] else []) + Own(turns[1..])
  }

  function Foreign<E>(turns: seq<Turn<E>>): seq<E> {
    if turns == [] then [] else (if turns[0].Theirs? then [turns[0].event] else []) + Foreign(turns[1..])
  }

  function AllTheirs<E>(events: seq<E>): seq<Turn<E>> {
    seq(|events|, i requires 0 <= i < |events| => Theirs(events[i]))
  }

  lemma {:induction false} TurnsConcat<E>(a: seq<Turn<E>>, b: seq<Turn<E>>)
    ensures Events(a + b) == Events(a) + Events(b)
    ensures Own(a + b) == Own(a) + Own(b)
    ensures Foreign(a + b) == Foreign(a) + Foreign(b)
  {
    if a == [] {
      assert a + b == b;
    } else {
      assert (a + b)[0] == a[0] && (a + b)[1..] == a[1..] + b;
      TurnsConcat(a[1..], b);
      var mine, theirs := if a[0].Mine? then [a[0].event] else [], if a[0].Theirs? then [a[0].event] else [];
      assert mine + (Own(a[1..]) + Own(b)) == mine + Own(a[1..]) + Own(b);
      assert theirs + (Foreign(a[1..]) + Foreign(b)) == theirs + Foreign(a[1..]) + Foreign(b);
    }
  }

  lemma {:induction false} AllTheirsAre<E>(events: seq<E>)
    ensures Events(AllTheirs(events)) == events && Own(AllTheirs(events)) == [] && Foreign(AllTheirs(events)) == events
  {
    if events != [] {
      AllTheirsAre(events[1..]);
      assert AllTheirs(events)[1..] == AllTheirs(events[1..]);
      assert [events[0]] + events[1..] == events;
    }
  }

  /** With no others there is only what the run appended. */
  lemma {:induction false} NoneTheirs<E>(turns: seq<Turn<E>>)
    requires Foreign(turns) == []
    ensures Events(turns) == Own(turns)
  {
    if turns != [] {
      NoneTheirs(turns[1..]);
      assert Events(turns) == [turns[0].event] + Events(turns[1..]);
    }
  }

  // ---- the loops ----

  method Meanwhile<E(!new)>(store: FileStore<E>, o: Others<E>, k: nat)
    requires store.Valid() && Forward(o) && Until(store.disk.files, DayAt(o, k))
    modifies store.disk
    ensures store.Valid() && Until(store.disk.files, DayAt(o, k))
    ensures store.Records() == AppendAll(old(store.Records()), BatchAt(o, k))
    ensures BatchAt(o, k) == [] ==> store.Records() == old(store.Records())
  {
    if BatchAt(o, k) != [] {
      store.Others(BatchAt(o, k), DayAt(o, k));
    }
  }

  /** `LoadSeenIDs` / `LoadSeenIdentities`: page after page, with others appending between them,
      until one is empty. The pages visit every record there then is once, in order. */
  method LoadSeen<D, E(!new)>(src: Source<D, E>, store: FileStore<E>, o: Others<E>)
    returns (r: Result<set<string>, Error>, ghost visited: seq<Record<E>>, n: nat)
    requires store.Valid() && Forward(o) && Until(store.disk.files, DayAt(o, 0))
    modifies store`fileMaxSeq, store.disk
    ensures store.Valid() && Until(store.disk.files, DayAt(o, n))
    ensures r == if store.closed then Err(Closed) else Ok(Keys(src, store.Records()))
    ensures store.closed ==> n == 0
    ensures !store.closed ==> visited == store.Records()
    ensures store.Records() == AppendAll(old(store.Records()), Gathered(o, n))
  {
    visited, n := [], 0;
    ghost var start, done := store.Records(), [];
    assert AppendAll(start, done) == start;
    if store.closed {
      return Err(Closed), visited, n;
    }
    var seen: set<string>, from: nat := {}, 1;
    while true
      invariant Appending(store, o, n, start, done) && done == Gathered(o, n)
      invariant Paged(src, store.Records(), from, visited, seen)
      decreases if n < |o.batches| then |o.batches| - n else 0, |store.Records()| + 1 - from
    {
      var more;
      more, seen, from, done, visited := VisitPage(src, store, o, n, seen, from, start, done, visited);
      n := n + 1;
      if !more {
        break;
      }
    }
    r := Ok(seen);
  }

  /** One turn of that loop: others append, a page is read and its identities are noted. */
  method VisitPage<D, E(!new)>(
      src: Source<D, E>, store: FileStore<E>, o: Others<E>, n: nat, known: set<string>, cursor: nat,
      ghost start: seq<Record<E>>, ghost before: seq<E>, ghost was: seq<Record<E>>)
    returns (more: bool, seen: set<string>, from: nat, ghost done: seq<E>, ghost visited: seq<Record<E>>)
    requires Forward(o) && Appending(store, o, n, start, before) && Paged(src, store.Records(), cursor, was, known)
    modifies store`fileMaxSeq, store.disk
    ensures done == before + BatchAt(o, n) && Appending(store, o, n + 1, start, done)
    ensures |store.Records()| == old(|store.Records()|) + |BatchAt(o, n)|
    ensures Paged(src, store.Records(), from, visited, seen)
    ensures if more then from > cursor else visited == store.Records()
  {
    ghost var log := store.Records();
    var recs;
    recs, done := NextPage(store, o, n, cursor, start, before);
    Visited(src, log, BatchAt(o, n), cursor, recs, was, known);
    more := recs != [];
    if more {
      seen, from, visited := known + Keys(src, recs), recs[|recs| - 1].seqNo + 1, was + recs;
    } else {
      seen, from, visited := known, cursor, was;
    }
  }

  /** One page, after the others' n-th batch, as the next stretch of the log there is then. */
  method NextPage<E(!new)>(
      store: FileStore<E>, o: Others<E>, n: nat, from: nat, ghost start: seq<Record<E>>, ghost done: seq<E>)
    returns (recs: seq<Record<E>>, ghost more: seq<E>)
    requires Forward(o) && Appending(store, o, n, start, done) && 1 <= from <= |store.Records()| + 1
    modifies store`fileMaxSeq, store.disk
    ensures more == done + BatchAt(o, n) && Appending(store, o, n + 1, start, more)
    ensures store.Records() == AppendAll(old(store.Records()), BatchAt(o, n)) && IsNext(store.Records(), from, recs)
  {
    more := done + BatchAt(o, n);
    AppendAllTwice(start, done, BatchAt(o, n));
    Meanwhile(store, o, n);
    assert DayAt(o, n) <= DayAt(o, n + 1);
    recs := ReadNext(store, from);
  }

  method ReadNext<E(!new)>(store: FileStore<E>, from: nat) returns (recs: seq<Record<E>>)
    requires store.Valid() && !store.closed && 1 <= from <= |store.Records()| + 1
    modifies store`fileMaxSeq
    ensures store.Valid() && IsNext(store.Records(), from, recs)
  {
    PageFollows(store.Records(), from);
    var page := store.ReadFrom(from, PAGE_SIZE);
    recs := page.value;
  }

  /** `recs` are the records of the log from `from` on, up to the last of them; none at its end only. */
  ghost predicate IsNext<E>(log: seq<Record<E>>, from: nat, recs: seq<Record<E>>) {
    && 1 <= from <= |log| + 1 && log[..from - 1] + recs <= log
    && (recs == [] ==> log[..from - 1] == log)
    && (recs != [] ==> recs[|recs| - 1].seqNo == from - 1 + |recs|)
  }

  lemma PageFollows<E>(log: seq<Record<E>>, from: nat)
    requires Numbered(log) && 1 <= from <= |log| + 1
    ensures IsNext(log, from, Page(log, from, PAGE_SIZE))
  {
    PageIsNext(log, from, PAGE_SIZE);
  }

  /** What has been visited is the log before `from`, and what has been seen are its keys. */
  ghost predicate Paged<D, E>(src: Source<D, E>, log: seq<Record<E>>, from: nat, visited: seq<Record<E>>, seen: set<string>) {
    1 <= from <= |log| + 1 && visited == log[..from - 1] && seen == Keys(src, visited)
  }

  /** A page behind what has been visited. */
  lemma PageBehind<E>(before: seq<Record<E>>, log: seq<Record<E>>, from: nat, recs: seq<Record<E>>)
    requires 1 <= from <= |before| + 1 && before <= log && IsNext(log, from, recs)
    ensures before[..from - 1] == log[..from - 1]
    ensures recs == [] ==> before[..from - 1] == log
    ensures recs != [] ==>
              var next := recs[|recs| - 1].seqNo + 1;
              from < next <= |log| + 1 && before[..from - 1] + recs == log[..next - 1]
  {
  }

  lemma Visited<D, E>(src: Source<D, E>, before: seq<Record<E>>, batch: seq<E>, from: nat, recs: seq<Record<E>>,
                      visited: seq<Record<E>>, seen: set<string>)
    requires Paged(src, before, from, visited, seen) && IsNext(AppendAll(before, batch), from, recs)
    ensures var log := AppendAll(before, batch);
            && |log| == |before| + |batch|
            && (recs == [] ==> Paged(src, log, from, visited, seen) && visited == log)
            && (recs != [] ==>
                  var next := recs[|recs| - 1].seqNo + 1;
                  from < next && Paged(src, log, next, visited + recs, seen + Keys(src, recs)))
  {
    PageBehind(before, AppendAll(before, batch), from, recs);
    KeysConcat(src, visited, recs);
  }

  /** `RunDiscovery`, from the opened store on, with others appending all the while. The run itself
      appends exactly the items whose identity the store did not have when it was loaded, each once
      and in order; a dry run appends nothing. */
  method RunDiscovery<D, E(!new)>(src: Source<D, E>, store: FileStore<E>, items: seq<D>, dryRun: bool, o: Others<E>)
    returns (ghost loaded: seq<Record<E>>, ghost turns: seq<Turn<E>>)
    requires store.Valid() && !store.closed && Forward(o) && Until(store.disk.files, DayAt(o, 0))
    modifies store, store.disk
    ensures store.Valid()
    ensures exists n :: loaded == AppendAll(old(store.Records()), Gathered(o, n))
                        && Foreign(turns) == GatheredFrom(o, n, if dryRun then 0 else |items|)
    ensures store.Records() == AppendAll(loaded, Events(turns))
    ensures Own(turns) == if dryRun then [] else EventsOf(src, Fresh(src, items, Keys(src, loaded)))
  {
    var seen, n;
    seen, loaded, n := LoadSeen(src, store, o);
    turns := [];
    assert AppendAll(loaded, Events(turns)) == loaded;
    if !dryRun {
      AppendFresh(src, store, items, seen.value, o, n);
      turns := MixedIs(src, items, seen.value, o, n);
    }
  }

  /** Alone, a run leaves the log that `Ran` says. */
  lemma RunsAlone<D, E>(src: Source<D, E>, log: seq<Record<E>>, items: seq<D>, turns: seq<Turn<E>>)
    requires Foreign(turns) == [] && Own(turns) == EventsOf(src, Fresh(src, items, Keys(src, log)))
    ensures AppendAll(log, Events(turns)) == Ran(src, log, items)
  {
    NoneTheirs(turns);
  }

  /** One item's turn: what the others append, then the run's own event if the item is new. */
  function TurnEvents<E>(batch: seq<E>, event: E, isNew: bool): seq<E> {
    batch + if isNew then [event] else []
  }

  /** What is appended while the others and the run take turns at the items. */
  function Mixed<D, E>(src: Source<D, E>, items: seq<D>, seen: set<string>, o: Others<E>, k: nat): seq<E>
    decreases |items|
  {
    if items == [] then []
    else
      var isNew := src.id(items[0]) !in seen;
      TurnEvents(BatchAt(o, k), src.event(items[0]), isNew)
      + Mixed(src, items[1..], if isNew then seen + {src.id(items[0])} else seen, o, k + 1)
  }

  /** Part-way through the items. */
  ghost predicate InStep<D, E>(
      src: Source<D, E>, items: seq<D>, known: set<string>, o: Others<E>, k: nat, done: seq<E>, seen: set<string>, i: nat)
  {
    i <= |items| && Mixed(src, items, known, o, k) == done + Mixed(src, items[i..], seen, o, k + i)
  }

  lemma NextInStep<D, E>(
      src: Source<D, E>, items: seq<D>, known: set<string>, o: Others<E>, k: nat, done: seq<E>, seen: set<string>, i: nat)
    requires InStep(src, items, known, o, k, done, seen, i) && i < |items|
    ensures var isNew := src.id(items[i]) !in seen;
            InStep(src, items, known, o, k, done + TurnEvents(BatchAt(o, k + i), src.event(items[i]), isNew),
                   if isNew then seen + {src.id(items[i])} else seen, i + 1)
  {
    var isNew := src.id(items[i]) !in seen;
    var turn := TurnEvents(BatchAt(o, k + i), src.event(items[i]), isNew);
    var rest := Mixed(src, items[i + 1..], if isNew then seen + {src.id(items[i])} else seen, o, k + (i + 1));
    assert items[i..][0] == items[i] && items[i..][1..] == items[i + 1..];
    assert done + (turn + rest) == done + turn + rest;
  }

  lemma InStepEnds<D, E>(src: Source<D, E>, items: seq<D>, known: set<string>, o: Others<E>, k: nat, done: seq<E>, seen: set<string>)
    ensures InStep(src, items, known, o, k, [], known, 0)
    ensures InStep(src, items, known, o, k, done, seen, |items|) ==> done == Mixed(src, items, known, o, k)
  {
    assert items[0..] == items && [] + Mixed(src, items, known, o, k) == Mixed(src, items, known, o, k);
    assert done + [] == done;
  }

  method AppendFresh<D, E(!new)>(src: Source<D, E>, store: FileStore<E>, items: seq<D>, known: set<string>, o: Others<E>, k: nat)
    requires store.Valid() && !store.closed && Forward(o) && Until(store.disk.files, DayAt(o, k))
    modifies store`latest, store`current, store.disk
    ensures store.Valid()
    ensures store.Records() == AppendAll(old(store.Records()), Mixed(src, items, known, o, k))
  {
    ghost var log, done := store.Records(), [];
    var seen, i := known, 0;
    InStepEnds(src, items, known, o, k, done, known);
    assert AppendAll(log, done) == log;
    while i < |items|
      invariant 0 <= i <= |items| && Appending(store, o, k + i, log, done)
      invariant InStep(src, items, known, o, k, done, seen, i)
    {
      seen, done := TakeOne(src, store, items, known, o, k, i, seen, log, done);
      i := i + 1;
    }
    InStepEnds(src, items, known, o, k, done, seen);
  }

  /** The turn of the i-th item: others append, then the run, if its identity is new. */
  method TakeOne<D, E(!new)>(
      src: Source<D, E>, store: FileStore<E>, items: seq<D>, ghost known: set<string>, o: Others<E>, k: nat, i: nat,
      seen: set<string>, ghost log: seq<Record<E>>, ghost done: seq<E>)
    returns (next: set<string>, ghost more: seq<E>)
    requires i < |items| && Forward(o) && Appending(store, o, k + i, log, done)
    requires InStep(src, items, known, o, k, done, seen, i)
    modifies store`latest, store`current, store.disk
    ensures Appending(store, o, k + i + 1, log, more) && InStep(src, items, known, o, k, more, next, i + 1)
  {
    var item := items[i];
    var isNew := src.id(item) !in seen;
    next := if isNew then seen + {src.id(item)} else seen;
    more := done + TurnEvents(BatchAt(o, k + i), src.event(item), isNew);
    NextInStep(src, items, known, o, k, done, seen, i);
    AppendTurn(store, o, k + i, src.event(item), isNew, log, done, more);
  }

  /** A store open before operation `k`, to which `done` has been appended since it held `log`. */
  ghost predicate Appending<E(!new)>(store: FileStore<E>, o: Others<E>, k: nat, log: seq<Record<E>>, done: seq<E>)
    reads store, store.disk
  {
    && store.Valid() && !store.closed && Until(store.disk.files, DayAt(o, k))
    && store.Records() == AppendAll(log, done)
  }

  /** The turn of one item. */
  method AppendTurn<E(!new)>(
      store: FileStore<E>, o: Others<E>, k: nat, event: E, isNew: bool,
      ghost log: seq<Record<E>>, ghost done: seq<E>, ghost more: seq<E>)
    requires Forward(o) && Appending(store, o, k, log, done) && more == done + TurnEvents(BatchAt(o, k), event, isNew)
    modifies store`latest, store`current, store.disk
    ensures Appending(store, o, k + 1, log, more)
  {
    AppendAllTwice(log, done, BatchAt(o, k));
    AppendAllTwice(log, done + BatchAt(o, k), [event]);
    assert more == if isNew then done + BatchAt(o, k) + [event] else done + BatchAt(o, k);
    Meanwhile(store, o, k);
    if isNew {
      var r := store.Append([event], DayAt(o, k));
    }
    assert DayAt(o, k) <= DayAt(o, k + 1);
  }

  lemma TurnIs<E>(batch: seq<E>, event: E, isNew: bool, rest: seq<Turn<E>>)
    ensures var turn := AllTheirs(batch) + if isNew then [Mine(event)] else [];
            && Events(turn + rest) == TurnEvents(batch, event, isNew) + Events(rest)
            && Own(turn + rest) == (if isNew then [event] else []) + Own(rest)
            && Foreign(turn + rest) == batch + Foreign(rest)
  {
    var ours: seq<Turn<E>> := if isNew then [Mine(event)] else [];
    TurnsConcat(AllTheirs(batch), ours);
    TurnsConcat(AllTheirs(batch) + ours, rest);
    AllTheirsAre(batch);
    OwnTurn(event, isNew);
    assert [] + Own(ours) == Own(ours) && batch + [] == batch;
  }

  lemma OwnTurn<E>(event: E, isNew: bool)
    ensures var ours: seq<Turn<E>> := if isNew then [Mine(event)] else [];
            var own := if isNew then [event] else [];
            Events(ours) == own && Own(ours) == own && Foreign(ours) == []
  {
    if isNew {
      assert [Turn<E>.Mine(event)][1..] == [] && [event] + [] == [event];
    }
  }

  /** However the others' appends fall between them, the run's own are the new items' events, each
      once and in order. */
  lemma {:induction false} MixedIs<D, E>(src: Source<D, E>, items: seq<D>, seen: set<string>, o: Others<E>, k: nat)
    returns (turns: seq<Turn<E>>)
    ensures Mixed(src, items, seen, o, k) == Events(turns)
    ensures Own(turns) == EventsOf(src, Fresh(src, items, seen)) && Foreign(turns) == GatheredFrom(o, k, |items|)
    decreases |items|
  {
    turns := [];
    if items != [] {
      var id, event := src.id(items[0]), src.event(items[0]);
      var isNew := id !in seen;
      var rest := MixedIs(src, items[1..], if isNew then seen + {id} else seen, o, k + 1);
      turns := (AllTheirs(BatchAt(o, k)) + if isNew then [Mine(event)] else []) + rest;
      TurnIs(BatchAt(o, k), event, isNew, rest);
      if isNew {
        EventsCons(src, items[0], Fresh(src, items[1..], seen + {id}));
      }
      assert [] + Own(rest) == Own(rest);
    }
  }

  lemma EventsCons<D, E>(src: Source<D, E>, d: D, rest: seq<D>)
    ensures EventsOf(src, [d] + rest) == [src.event(d)] + EventsOf(src, rest)
  {
  }

  // ---- paging ----

  /** The page from a cursor is the next stretch of the log. */
  lemma PageIsNext<E>(log: seq<Record<E>>, from: nat, limit: nat)
    requires Numbered(log) && 1 <= from <= |log| + 1 && limit > 0
    ensures var page := Page(log, from, limit);
            && from - 1 + |page| <= |log| && page == log[from - 1..from - 1 + |page|] && (page == [] <==> from == |log| + 1)
            && (page != [] ==> page[|page| - 1].seqNo == from - 1 + |page|)
  {
    var page := Page(log, from, limit);
    AtLeastNumbered(log, 0, from);
    assert AtLeast(log, from) == log[from - 1..];
    assert page == log[from - 1..][..|page|];
    if page != [] {
      assert page[|page| - 1] == log[from - 1 + |page| - 1];
    }
  }

  lemma {:induction false} KeysConcat<D, E>(src: Source<D, E>, a: seq<Record<E>>, b: seq<Record<E>>)
    ensures Keys(src, a + b) == Keys(src, a) + Keys(src, b)
  {
    if a == [] {
      assert a + b == b;
    } else {
      assert (a + b)[0] == a[0] && (a + b)[1..] == a[1..] + b;
      KeysConcat(src, a[1..], b);
    }
  }

  lemma {:induction false} KeysOf<D, E>(src: Source<D, E>, log: seq<Record<E>>)
    ensures forall k :: k in Keys(src, log) <==> exists r :: r in log && src.key(r.event) == Some(k)
  {
    if log != [] {
      KeysOf(src, log[1..]);
      assert forall r :: r in log <==> r == log[0] || r in log[1..];
    }
  }

  lemma AppendAllTwice<E>(log: seq<Record<E>>, xs: seq<E>, ys: seq<E>)
    ensures AppendAll(AppendAll(log, xs), ys) == AppendAll(log, xs + ys)
  {
    assert Stamp(xs + ys, |log|) == Stamp(xs, |log|) + Stamp(ys, |log| + |xs|);
    assert log + Stamp(xs, |log|) + Stamp(ys, |log| + |xs|) == log + (Stamp(xs, |log|) + Stamp(ys, |log| + |xs|));
  }

  // ---- deduplication over restarts ----

  /** The reload loop finds the identity the item was recorded under. */
  predicate Reloads<D, E>(src: Source<D, E>, d: D) {
    src.key(src.event(d)) == Some(src.id(d))
  }

  function Ids<D, E>(src: Source<D, E>, items: seq<D>): set<string> {
    if items == [] then {} else {src.id(items[0])} + Ids(src, items[1..])
  }

  lemma {:induction false} FreshAreItems<D, E>(src: Source<D, E>, items: seq<D>, seen: set<string>)
    ensures forall d | d in Fresh(src, items, seen) :: d in items
  {
    if items != [] {
      FreshAreItems(src, items[1..], seen);
      FreshAreItems(src, items[1..], seen + {src.id(items[0])});
    }
  }

  /** Every identity not seen before is taken. */
  lemma {:induction false} FreshCovers<D, E>(src: Source<D, E>, items: seq<D>, seen: set<string>, d: D)
    requires d in items && src.id(d) !in seen
    ensures src.id(d) in Ids(src, Fresh(src, items, seen))
  {
    if d != items[0] {
      var id := src.id(items[0]);
      if id in seen {
        FreshCovers(src, items[1..], seen, d);
      } else if src.id(d) != id {
        FreshCovers(src, items[1..], seen + {id}, d);
      }
    }
  }

  /** No identity is taken that was seen before or taken already. */
  lemma {:induction false} FreshOnce<D, E>(src: Source<D, E>, items: seq<D>, seen: set<string>)
    ensures Ids(src, Fresh(src, items, seen)) !! seen
    ensures |Ids(src, Fresh(src, items, seen))| == |Fresh(src, items, seen)|
  {
    if items != [] {
      var id := src.id(items[0]);
      FreshOnce(src, items[1..], if id in seen then seen else seen + {id});
      if id !in seen {
        var rest := Fresh(src, items[1..], seen + {id});
        assert ([items[0]] + rest)[1..] == rest;
        assert |{id} + Ids(src, rest)| == 1 + |Ids(src, rest)|;
      }
    }
  }

  lemma {:induction false} AddedKeys<D, E>(src: Source<D, E>, log: seq<Record<E>>, items: seq<D>)
    requires forall d | d in items :: Reloads(src, d)
    ensures Keys(src, AppendAll(log, EventsOf(src, items))) == Keys(src, log) + Ids(src, items)
    decreases |items|
  {
    if items == [] {
      assert AppendAll(log, EventsOf(src, items)) == log;
    } else {
      var one := [src.event(items[0])];
      assert EventsOf(src, items) == one + EventsOf(src, items[1..]);
      AppendAllTwice(log, one, EventsOf(src, items[1..]));
      AddedKeys(src, AppendAll(log, one), items[1..]);
      KeysConcat(src, log, Stamp(one, |log|));
      assert Reloads(src, items[0]);
      assert Stamp(one, |log|)[1..] == [];
    }
  }

  /** Fresh items split at any point: what is left is what is new to the larger set. */
  lemma {:induction false} FreshAfter<D, E>(src: Source<D, E>, items: seq<D>, seen: set<string>, k: nat)
    requires k <= |Fresh(src, items, seen)|
    ensures Fresh(src, items, seen + Ids(src, Fresh(src, items, seen)[..k])) == Fresh(src, items, seen)[k..]
  {
    var news := Fresh(src, items, seen);
    if k == 0 {
      assert seen + Ids(src, news[..0]) == seen;
    } else if src.id(items[0]) in seen {
      FreshAfter(src, items[1..], seen, k);
    } else {
      var id := src.id(items[0]);
      var rest := Fresh(src, items[1..], seen + {id});
      assert news[1..] == rest && news[..k][1..] == rest[..k - 1] && news[k..] == rest[k - 1..];
      FreshAfter(src, items[1..], seen + {id}, k - 1);
      assert seen + ({id} + Ids(src, rest[..k - 1])) == seen + {id} + Ids(src, rest[..k - 1]);
    }
  }

  /** A run cut short after any number of appends and then repeated ends where one whole run
      does; in particular repeating a whole run appends nothing. */
  lemma InterruptedRunResumes<D, E>(src: Source<D, E>, log: seq<Record<E>>, items: seq<D>, k: nat)
    requires forall d | d in items :: Reloads(src, d)
    requires k <= |Fresh(src, items, Keys(src, log))|
    ensures Ran(src, AppendAll(log, EventsOf(src, Fresh(src, items, Keys(src, log))[..k])), items) == Ran(src, log, items)
  {
    var news := Fresh(src, items, Keys(src, log));
    FreshAreItems(src, items, Keys(src, log));
    AddedKeys(src, log, news[..k]);
    FreshAfter(src, items, Keys(src, log), k);
    SplitEvents(src, news, k);
    AppendAllTwice(log, EventsOf(src, news[..k]), EventsOf(src, news[k..]));
  }

  lemma SplitEvents<D, E>(src: Source<D, E>, items: seq<D>, k: nat)
    requires k <= |items|
    ensures EventsOf(src, items[..k]) + EventsOf(src, items[k..]) == EventsOf(src, items)
  {
  }

  // ---- sources whose events are read back under their own identity or not at all ----

  lemma {:induction false} FreshDistinct<D, E>(src: Source<D, E>, items: seq<D>, seen: set<string>, d: D, e: D)
    requires d in Fresh(src, items, seen) && e in Fresh(src, items, seen) && src.id(d) == src.id(e)
    ensures d == e && src.id(d) !in seen
  {
    var id := src.id(items[0]);
    if id in seen {
      FreshDistinct(src, items[1..], seen, d, e);
    } else {
      var rest := Fresh(src, items[1..], seen + {id});
      if d in rest && e in rest {
        FreshDistinct(src, items[1..], seen + {id}, d, e);
      } else if d in rest {
        FreshDistinct(src, items[1..], seen + {id}, d, d);
      } else if e in rest {
        FreshDistinct(src, items[1..], seen + {id}, e, e);
      }
    }
  }

  /** An item that is taken but not read back stays unseen. */
  lemma LostNeverSeen<D, E>(src: Source<D, E>, log: seq<Record<E>>, items: seq<D>, d: D)
    requires forall e | e in items :: src.key(src.event(e)) == None || Reloads(src, e)
    requires d in Fresh(src, items, Keys(src, log)) && !Reloads(src, d)
    ensures src.id(d) !in Keys(src, Ran(src, log, items))
  {
    var news, once := Fresh(src, items, Keys(src, log)), Ran(src, log, items);
    FreshDistinct(src, items, Keys(src, log), d, d);
    FreshAreItems(src, items, Keys(src, log));
    KeysOf(src, once);
    KeysOf(src, log);
    forall r | r in once && src.key(r.event) == Some(src.id(d))
      ensures false
    {
      if r !in log {
        var i :| 0 <= i < |once| && once[i] == r;
        var e := news[i - |log|];
        assert r.event == src.event(e) && e in news && Reloads(src, e);
        FreshDistinct(src, items, Keys(src, log), d, e);
      }
    }
  }

  /** For a source whose events are read back under their own identity or not at all, repeating a run
      appends nothing if and only if every item it took is read back. */
  lemma RepeatAppendsNothingIff<D, E>(src: Source<D, E>, log: seq<Record<E>>, items: seq<D>)
    requires forall d | d in items :: src.key(src.event(d)) == None || Reloads(src, d)
    ensures var once := Ran(src, log, items);
            Ran(src, once, items) == once <==> forall d | d in Fresh(src, items, Keys(src, log)) :: Reloads(src, d)
  {
    var news, once := Fresh(src, items, Keys(src, log)), Ran(src, log, items);
    if forall d | d in news :: Reloads(src, d) {
      AddedKeys(src, log, news);
      FreshAfter(src, items, Keys(src, log), |news|);
      assert news[..|news|] == news;
      assert EventsOf(src, news[|news|..]) == [] && AppendAll(once, []) == once;
    } else {
      var d :| d in news && !Reloads(src, d);
      FreshAreItems(src, items, Keys(src, log));
      LostNeverSeen(src, log, items, d);
      FreshCovers(src, items, Keys(src, once), d);
    }
  }

  lemma {:induction false} DiscoverNames(cards: seq<Card>)
    ensures forall r | r in Discover(cards) :: r.id != "" && Reloads(PressReleases(), r)
  {
    if cards != [] {
      DiscoverNames(cards[1..]);
    }
  }

  /** For press releases: whatever the listing page holds, repeating a run appends nothing. */
  lemma RepeatAppendsNothing(log: seq<Record<ReleaseEvent>>, cards: seq<Card>)
    ensures var once := Ran(PressReleases(), log, Discover(cards));
            Ran(PressReleases(), once, Discover(cards)) == once
  {
    var src, items := PressReleases(), Discover(cards);
    DiscoverNames(cards);
    FreshAreItems(src, items, Keys(src, log));
    RepeatAppendsNothingIff(src, log, items);
  }

  lemma {:induction false} ParsedNames(cik: string, accessions: seq<string>)
    ensures forall f | f in ParseFilings(cik, accessions) :: f.cik == Filings.NormalizeCik(cik) && f.accession != ""
  {
    if accessions != [] {
      ParsedNames(cik, accessions[1..]);
    }
  }

  /** For filings as they are parsed: repeating a run appends nothing if and only if every filing it
      took came with a CIK. */
  lemma RepeatFilingsNothingIff(log: seq<Record<FilingEvent>>, items: seq<Filing>)
    requires forall f | f in items :: f.accession != ""
    ensures var src := FilingFeed();
            var once := Ran(src, log, items);
            Ran(src, once, items) == once <==> forall f | f in Fresh(src, items, Keys(src, log)) :: f.cik != ""
  {
    FreshAreItems(FilingFeed(), items, Keys(FilingFeed(), log));
    RepeatAppendsNothingIff(FilingFeed(), log, items);
  }

  /** The parser keeps a filing whose CIK has no digits, with a blank one. */
  lemma ParsedBlank(cik: string, accession: string)
    requires forall ch | ch in cik :: !Filings.IsDigit(ch)
    requires accession != "" && !IsSpace(accession[0]) && !IsSpace(accession[|accession| - 1])
    ensures ParseFilings(cik, [accession]) == [Filing("", accession)]
  {
    Filings.TrimKeepsDigits(cik);
    Filings.NoDigits(cik);
    TrimVisible(accession);
    assert [accession][1..] == [];
  }

  /** Such a filing is appended by one run, appended again by the next, and still not seen. */
  lemma BlankCikRepeats(log: seq<Record<FilingEvent>>, cik: string, accession: string)
    requires forall ch | ch in cik :: !Filings.IsDigit(ch)
    requires accession != "" && !IsSpace(accession[0]) && !IsSpace(accession[|accession| - 1])
    requires Filings.FilingIdentity("", accession) !in Keys(FilingFeed(), log)
    ensures var src, items := FilingFeed(), ParseFilings(cik, [accession]);
            var once := Ran(src, log, items);
            Ran(src, once, items) != once && Filings.FilingIdentity("", accession) !in Keys(src, once)
  {
    var src, items := FilingFeed(), ParseFilings(cik, [accession]);
    ParsedBlank(cik, accession);
    assert Fresh(src, items, Keys(src, log)) == [items[0]] + Fresh(src, items[1..], Keys(src, log) + {src.id(items[0])});
    LostNeverSeen(src, log, items, items[0]);
    RepeatFilingsNothingIff(log, items);
  }
}
