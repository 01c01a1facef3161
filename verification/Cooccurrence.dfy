/** The in-memory store of co-occurring tickers, and its seeding from a signal history. */
module Cooccurrence {
  import opened Text
  import opened Sorting

  const HOUR := 3_600_000_000_000 // in nanoseconds
  const WINDOW := 48 * HOUR
  const MAX_RELATED := 10

  datatype Edge = Edge(tickerA: string, tickerB: string, weight: nat, firstSeen: int, lastSeen: int)

  datatype Signal = Signal(ticker: string, time: int)

  /** One call of `Record`. */
  datatype Hit = Hit(a: string, b: string, at: int)

  function Lower(a: string, b: string): string {
    if Less(b, a) then b else a
  }

  function Higher(a: string, b: string): string {
    if Less(b, a) then a else b
  }

  /** `edgeKey`. */
  function EdgeKey(a: string, b: string): string {
    Lower(a, b) + ":" + Higher(a, b)
  }

  predicate Counts(h: Hit) {
    h.a != "" && h.b != "" && h.a != h.b
  }

  function Strengthen(e: Edge, at: int): Edge {
    e.(weight := e.weight + 1, lastSeen := if at > e.lastSeen then at else e.lastSeen)
  }

  function NewEdge(h: Hit): Edge {
    Edge(Lower(h.a, h.b), Higher(h.a, h.b), 1, h.at, h.at)
  }

  function Recorded(edges: map<string, Edge>, h: Hit): map<string, Edge> {
    var key := EdgeKey(h.a, h.b);
    if !Counts(h) then edges
    else if key in edges then edges[key := Strengthen(edges[key], h.at)]
    else edges[key := NewEdge(h)]
  }

  /** Record a list of hits in order. */
  function RecordAll(edges: map<string, Edge>, hits: seq<Hit>): map<string, Edge>
    decreases |hits|
  {
    if hits == [] then edges else RecordAll(Recorded(edges, hits[0]), hits[1..])
  }

  // ---- which hits a history gives ----

  function Midpoint(from: int, to: int): int
    requires from <= to
  {
    from + (to - from) / 2
  }

  function HitsWith(x: Signal, later: seq<Signal>): seq<Hit>
    requires forall y | y in later :: x.time <= y.time
  {
    if later == [] then []
    else
      var y := later[0];
      (if y.time - x.time <= WINDOW then [Hit(x.ticker, y.ticker, Midpoint(x.time, y.time))] else [])
      + HitsWith(x, later[1..])
  }

  predicate InOrder(s: seq<Signal>) {
    forall i, j | 0 <= i < j < |s| :: s[i].time <= s[j].time
  }

  /** All index pairs at most 48 hours apart. */
  function Hits(s: seq<Signal>): seq<Hit>
    requires InOrder(s)
  {
    if s == [] then [] else HitsWith(s[0], s[1..]) + Hits(s[1..])
  }

  /** The same pairs counted without any order: the midpoints of those recorded under a key. */
  predicate Paired(x: Signal, y: Signal, key: string) {
    && Counts(Hit(x.ticker, y.ticker, 0)) && EdgeKey(x.ticker, y.ticker) == key
    && -WINDOW <= x.time - y.time <= WINDOW
  }

  function Middle(x: Signal, y: Signal): int {
    if x.time <= y.time then Midpoint(x.time, y.time) else Midpoint(y.time, x.time)
  }

  function MidsWith(x: Signal, others: seq<Signal>, key: string): multiset<int> {
    if others == [] then multiset{}
    else (if Paired(x, others[0], key) then multiset{Middle(x, others[0])} else multiset{})
         + MidsWith(x, others[1..], key)
  }

  function Mids(s: seq<Signal>, key: string): multiset<int> {
    if s == [] then multiset{} else MidsWith(s[0], s[1..], key) + Mids(s[1..], key)
  }

  // ---- what a list of hits leaves in the store ----

  /** When the hits under a key were. */
  function Times(hits: seq<Hit>, key: string): seq<int> {
    if hits == [] then []
    else (if Counts(hits[0]) && EdgeKey(hits[0].a, hits[0].b) == key then [hits[0].at] else []) + Times(hits[1..], key)
  }

  function Max(s: seq<int>): int
    requires s != []
  {
    if |s| == 1 then s[0]
    else if s[0] > Max(s[1..]) then s[0] else Max(s[1..])
  }

  lemma {:induction false} RecordAllConcat(edges: map<string, Edge>, xs: seq<Hit>, ys: seq<Hit>)
    ensures RecordAll(edges, xs + ys) == RecordAll(RecordAll(edges, xs), ys)
    decreases |xs|
  {
    if xs == [] {
      assert xs + ys == ys;
    } else {
      assert (xs + ys)[0] == xs[0] && (xs + ys)[1..] == xs[1..] + ys;
      RecordAllConcat(Recorded(edges, xs[0]), xs[1..], ys);
    }
  }

  lemma TimesStep(hits: seq<Hit>, key: string)
    requires hits != []
    ensures var h, rest := hits[0], Times(hits[1..], key);
            if Counts(h) && EdgeKey(h.a, h.b) == key then
              && Times(hits, key) == [h.at] + rest
              && Max(Times(hits, key)) == (if rest == [] || h.at > Max(rest) then h.at else Max(rest))
            else Times(hits, key) == rest
  {
    var rest := Times(hits[1..], key);
    assert ([hits[0].at] + rest)[1..] == rest && [] + rest == rest;
  }

  /** An edge strengthened by later hits. */
  predicate Strengthened(e: Edge, f: Edge, times: seq<int>) {
    && f.weight == e.weight + |times| && f.firstSeen == e.firstSeen
    && f.tickerA == e.tickerA && f.tickerB == e.tickerB
    && f.lastSeen == (if times == [] || e.lastSeen >= Max(times) then e.lastSeen else Max(times))
  }

  lemma {:induction false} RecordAllKnown(edges: map<string, Edge>, hits: seq<Hit>, key: string)
    requires key in edges
    ensures key in RecordAll(edges, hits)
    ensures Strengthened(edges[key], RecordAll(edges, hits)[key], Times(hits, key))
    decreases |hits|
  {
    if hits != [] {
      RecordAllKnown(Recorded(edges, hits[0]), hits[1..], key);
      TimesStep(hits, key);
    }
  }

  lemma {:induction false} RecordAllNew(edges: map<string, Edge>, hits: seq<Hit>, key: string)
    requires key !in edges
    ensures key in RecordAll(edges, hits) <==> Times(hits, key) != []
    ensures var times := Times(hits, key);
            times != [] ==>
              var e := RecordAll(edges, hits)[key];
              e.weight == |times| && e.firstSeen == times[0] && e.lastSeen == Max(times)
              && e.tickerA + ":" + e.tickerB == key
    decreases |hits|
  {
    if hits != [] {
      var h, next := hits[0], Recorded(edges, hits[0]);
      if Counts(h) && EdgeKey(h.a, h.b) == key {
        RecordAllKnown(next, hits[1..], key);
        TimesStep(hits, key);
      } else {
        TimesStep(hits, key);
        RecordAllNew(next, hits[1..], key);
      }
    }
  }

  // ---- hits and midpoints ----

  lemma {:induction false} TimesConcat(xs: seq<Hit>, ys: seq<Hit>, key: string)
    ensures Times(xs + ys, key) == Times(xs, key) + Times(ys, key)
  {
    if xs == [] {
      assert xs + ys == ys;
    } else {
      assert (xs + ys)[0] == xs[0] && (xs + ys)[1..] == xs[1..] + ys;
      TimesConcat(xs[1..], ys, key);
      var head := if Counts(xs[0]) && EdgeKey(xs[0].a, xs[0].b) == key then [xs[0].at] else [];
      assert head + (Times(xs[1..], key) + Times(ys, key)) == head + Times(xs[1..], key) + Times(ys, key);
    }
  }

  lemma TimesOne(h: Hit, key: string)
    ensures Times([h], key) == if Counts(h) && EdgeKey(h.a, h.b) == key then [h.at] else []
  {
    assert [h][1..] == [];
  }

  lemma {:induction false} TimesWith(x: Signal, later: seq<Signal>, key: string)
    requires forall y | y in later :: x.time <= y.time
    ensures multiset(Times(HitsWith(x, later), key)) == MidsWith(x, later, key)
  {
    if later != [] {
      var y := later[0];
      var hit := Hit(x.ticker, y.ticker, Midpoint(x.time, y.time));
      var head := if y.time - x.time <= WINDOW then [hit] else [];
      TimesWith(x, later[1..], key);
      TimesConcat(head, HitsWith(x, later[1..]), key);
      TimesOne(hit, key);
    }
  }

  /** The hits under a key are at the midpoints of the pairs under it. */
  lemma {:induction false} TimesAreMids(s: seq<Signal>, key: string)
    requires InOrder(s)
    ensures multiset(Times(Hits(s), key)) == Mids(s, key)
  {
    if s != [] {
      TimesWith(s[0], s[1..], key);
      TimesAreMids(s[1..], key);
      TimesConcat(HitsWith(s[0], s[1..]), Hits(s[1..]), key);
    }
  }

  // ---- the order of the signals does not matter ----

  function MidsOne(x: Signal, y: Signal, key: string): multiset<int> {
    if Paired(x, y, key) then multiset{Middle(x, y)} else multiset{}
  }

  lemma {:induction false} MidsWithInsert(x: Signal, a: seq<Signal>, y: Signal, b: seq<Signal>, key: string)
    ensures MidsWith(x, a + [y] + b, key) == MidsOne(x, y, key) + MidsWith(x, a + b, key)
  {
    if a == [] {
      assert a + [y] + b == [y] + b && ([y] + b)[1..] == b && a + b == b;
    } else {
      assert (a + [y] + b)[0] == a[0] && (a + [y] + b)[1..] == a[1..] + [y] + b;
      assert (a + b)[0] == a[0] && (a + b)[1..] == a[1..] + b;
      MidsWithInsert(x, a[1..], y, b, key);
    }
  }

  lemma {:induction false} LessTotal(a: string, b: string)
    ensures Less(a, b) || Less(b, a) || a == b
  {
    if a != "" && b != "" && a[0] == b[0] {
      LessTotal(a[1..], b[1..]);
      assert a == [a[0]] + a[1..] && b == [b[0]] + b[1..];
    }
  }

  /** `edgeKey` does not depend on the order of the pair. */
  lemma KeySymmetric(a: string, b: string)
    ensures Lower(a, b) == Lower(b, a) && Higher(a, b) == Higher(b, a)
    ensures EdgeKey(a, b) == EdgeKey(b, a)
  {
    LessTotal(a, b);
    if Less(a, b) {
      LessAsymmetric(a, b);
    } else if Less(b, a) {
      LessAsymmetric(b, a);
    }
  }

  lemma MidsSymmetric(x: Signal, y: Signal, key: string)
    ensures MidsOne(x, y, key) == MidsOne(y, x, key)
  {
    KeySymmetric(x.ticker, y.ticker);
  }

  lemma {:induction false} MidsInsert(a: seq<Signal>, x: Signal, b: seq<Signal>, key: string)
    ensures Mids(a + [x] + b, key) == MidsWith(x, a + b, key) + Mids(a + b, key)
  {
    if a == [] {
      assert a + [x] + b == [x] + b && ([x] + b)[1..] == b && a + b == b;
    } else {
      var y, rest := a[0], a[1..];
      assert (a + [x] + b)[0] == y && (a + [x] + b)[1..] == rest + [x] + b;
      assert (a + b)[0] == y && (a + b)[1..] == rest + b;
      MidsInsert(rest, x, b, key);
      MidsWithInsert(y, rest, x, b, key);
      MidsSymmetric(x, y, key);
    }
  }

  lemma Without<T>(s: seq<T>, k: nat)
    requires k < |s|
    ensures multiset(s[..k] + s[k + 1..]) == multiset(s) - multiset{s[k]}
  {
    assert s == s[..k] + [s[k]] + s[k + 1..];
  }

  lemma Tail<T>(s: seq<T>)
    requires s != []
    ensures multiset(s[1..]) == multiset(s) - multiset{s[0]}
  {
    assert s == [s[0]] + s[1..];
  }

  lemma Remove<T>(s: seq<T>, t: seq<T>) returns (a: seq<T>, b: seq<T>)
    requires multiset(s) == multiset(t) && s != []
    ensures t == a + [s[0]] + b && multiset(a + b) == multiset(s[1..])
  {
    assert s[0] in multiset(t);
    var i :| 0 <= i < |t| && t[i] == s[0];
    a, b := t[..i], t[i + 1..];
    Without(t, i);
    Tail(s);
  }

  lemma {:induction false} MidsWithOrder(x: Signal, s: seq<Signal>, t: seq<Signal>, key: string)
    requires multiset(s) == multiset(t)
    ensures MidsWith(x, s, key) == MidsWith(x, t, key)
    decreases |s|
  {
    if s == [] {
      assert |multiset(t)| == 0;
    } else {
      var a, b := Remove(s, t);
      MidsWithInsert(x, a, s[0], b, key);
      MidsWithOrder(x, s[1..], a + b, key);
    }
  }

  /** Two histories that differ only in order have the same pairs. */
  lemma {:induction false} MidsOrder(s: seq<Signal>, t: seq<Signal>, key: string)
    requires multiset(s) == multiset(t)
    ensures Mids(s, key) == Mids(t, key)
    decreases |s|
  {
    if s == [] {
      assert |multiset(t)| == 0;
    } else {
      var a, b := Remove(s, t);
      MidsInsert(a, s[0], b, key);
      MidsWithOrder(s[0], s[1..], a + b, key);
      MidsOrder(s[1..], a + b, key);
    }
  }

  // ---- the first hit is the earliest ----

  /** The two ends of a pair that `key` counts. */
  predicate Ends(key: string, a: string, b: string) {
    Counts(Hit(a, b, 0)) && EdgeKey(a, b) == key
  }

  /** Of the history's tickers, only one pair has this key. */
  ghost predicate Only(s: seq<Signal>, key: string, a: string, b: string) {
    forall x, y | x in s && y in s && Ends(key, x.ticker, y.ticker) ::
      (x.ticker == a && y.ticker == b) || (x.ticker == b && y.ticker == a)
  }

  /** Pairs with `x` are at least as late as the first signal of the other ticker after it. */
  lemma {:induction false} MidsWithBound(x: Signal, later: seq<Signal>, key: string, lo: int, p: int)
    requires forall y | y in later :: x.time <= y.time
    requires lo <= x.time && lo <= p
    requires forall y | y in later && Ends(key, x.ticker, y.ticker) :: x.time >= p || y.time >= p
    ensures forall m | m in Times(HitsWith(x, later), key) :: m >= lo + (p - lo) / 2
  {
    if later != [] {
      var y := later[0];
      var hit := Hit(x.ticker, y.ticker, Midpoint(x.time, y.time));
      MidsWithBound(x, later[1..], key, lo, p);
      TimesConcat(if y.time - x.time <= WINDOW then [hit] else [], HitsWith(x, later[1..]), key);
      TimesOne(hit, key);
      assert y in later;
    }
  }

  lemma {:induction false} MidsBound(s: seq<Signal>, key: string, lo: int, p: int)
    requires InOrder(s) && lo <= p && forall x | x in s :: lo <= x.time
    requires forall x, y | x in s && y in s && Ends(key, x.ticker, y.ticker) :: x.time >= p || y.time >= p
    ensures forall m | m in Times(Hits(s), key) :: m >= lo + (p - lo) / 2
  {
    if s != [] {
      MidsWithBound(s[0], s[1..], key, lo, p);
      MidsBound(s[1..], key, lo, p);
      TimesConcat(HitsWith(s[0], s[1..]), Hits(s[1..]), key);
    }
  }

  /** Leaving the inner loop at the first signal outside the window drops nothing. */
  lemma {:induction false} BreakDropsNothing(x: Signal, later: seq<Signal>)
    requires InOrder(later) && forall y | y in later :: x.time <= y.time
    requires later != [] ==> later[0].time - x.time > WINDOW
    ensures HitsWith(x, later) == []
  {
    if later != [] {
      BreakDropsNothing(x, later[1..]);
    }
  }

  /** The first hit with `x`: the first later signal that pairs with it under the key. */
  lemma {:induction false} FirstWith(x: Signal, later: seq<Signal>, key: string) returns (y: Signal)
    requires InOrder(later) && forall z | z in later :: x.time <= z.time
    requires Times(HitsWith(x, later), key) != []
    ensures y in later && Ends(key, x.ticker, y.ticker)
    ensures Times(HitsWith(x, later), key)[0] == Midpoint(x.time, y.time)
    ensures forall z | z in later && Ends(key, x.ticker, z.ticker) :: y.time <= z.time
  {
    y := later[0];
    WithStep(x, later, key);
    if y.time - x.time > WINDOW {
      BreakDropsNothing(x, later);
      assert false;
    } else if !Ends(key, x.ticker, y.ticker) {
      y := FirstWith(x, later[1..], key);
    }
  }

  /** What the first later signal adds under a key. */
  lemma WithStep(x: Signal, later: seq<Signal>, key: string)
    requires later != [] && forall y | y in later :: x.time <= y.time
    ensures var y, rest := later[0], Times(HitsWith(x, later[1..]), key);
            Times(HitsWith(x, later), key)
            == if y.time - x.time <= WINDOW && Ends(key, x.ticker, y.ticker) then [Midpoint(x.time, y.time)] + rest else rest
  {
    var y := later[0];
    var hit := Hit(x.ticker, y.ticker, Midpoint(x.time, y.time));
    TimesConcat(if y.time - x.time <= WINDOW then [hit] else [], HitsWith(x, later[1..]), key);
    TimesOne(hit, key);
  }

  /** Any pair under the key has an end with the ticker of `y`, so one not before `y`. */
  lemma LaterPairs(x: Signal, later: seq<Signal>, key: string, y: Signal, a: string, b: string)
    requires Only([x] + later, key, a, b) && y in later && Ends(key, x.ticker, y.ticker)
    requires forall z | z in later && Ends(key, x.ticker, z.ticker) :: y.time <= z.time
    ensures forall v, w | v in later && w in later && Ends(key, v.ticker, w.ticker) :: v.time >= y.time || w.time >= y.time
  {
    assert x in [x] + later && forall z | z in later :: z in [x] + later;
  }

  /** When the first signal has a pair under the key, no pair is earlier than its first. */
  lemma PairsNotEarlier(x: Signal, later: seq<Signal>, key: string, y: Signal, a: string, b: string)
    requires InOrder(later) && (forall z | z in later :: x.time <= z.time)
    requires Only([x] + later, key, a, b) && y in later && Ends(key, x.ticker, y.ticker)
    requires forall z | z in later && Ends(key, x.ticker, z.ticker) :: y.time <= z.time
    ensures forall m | m in Times(HitsWith(x, later), key) :: m >= Midpoint(x.time, y.time)
    ensures forall m | m in Times(Hits(later), key) :: m >= Midpoint(x.time, y.time)
  {
    LaterPairs(x, later, key, y, a, b);
    MidsWithBound(x, later, key, x.time, y.time);
    MidsBound(later, key, x.time, y.time);
  }

  lemma LeastOf(own: seq<int>, others: seq<int>)
    requires own + others != []
    requires own == [] ==> forall m | m in others :: others[0] <= m
    requires own != [] ==> (forall m | m in own :: own[0] <= m) && (forall m | m in others :: own[0] <= m)
    ensures forall m | m in own + others :: (own + others)[0] <= m
  {
    if own == [] {
      assert own + others == others;
    }
  }

  /** Of the hits under a key no other pair shares, the first recorded is the earliest. */
  lemma {:induction false} FirstIsLeast(s: seq<Signal>, key: string, a: string, b: string)
    requires InOrder(s) && Only(s, key, a, b) && Times(Hits(s), key) != []
    ensures forall m | m in Times(Hits(s), key) :: Times(Hits(s), key)[0] <= m
  {
    var x, later := s[0], s[1..];
    var own, others := Times(HitsWith(x, later), key), Times(Hits(later), key);
    TimesConcat(HitsWith(x, later), Hits(later), key);
    assert s == [x] + later;
    if own == [] {
      FirstIsLeast(later, key, a, b);
    } else {
      var y := FirstWith(x, later, key);
      PairsNotEarlier(x, later, key, y, a, b);
    }
    LeastOf(own, others);
  }

  // ---- seeding ----

  /** An edge as the pairs under its key make it: their number, and the latest midpoint. */
  ghost predicate Tallied(edges: map<string, Edge>, mids: multiset<int>, key: string) {
    && (key in edges <==> mids != multiset{})
    && (key in edges ==>
          && edges[key].weight == |mids| && edges[key].tickerA + ":" + edges[key].tickerB == key
          && edges[key].lastSeen in mids && forall m | m in mids :: m <= edges[key].lastSeen)
  }

  /** The first midpoint of the edge is the earliest. */
  ghost predicate Dated(edges: map<string, Edge>, mids: multiset<int>, key: string) {
    key in edges ==> edges[key].firstSeen in mids && forall m | m in mids :: edges[key].firstSeen <= m
  }

  /** What the store holds under a key after an empty one is seeded: the number of index pairs at
      most 48 hours apart, whatever the order the signals came in, and the latest midpoint. */
  lemma Seeded(given: seq<Signal>, sorted: seq<Signal>, key: string)
    requires InOrder(sorted) && multiset(given) == multiset(sorted)
    ensures Tallied(RecordAll(map[], Hits(sorted)), Mids(given, key), key)
  {
    TimesAreMids(sorted, key);
    MidsOrder(given, sorted, key);
    RecordAllNew(map[], Hits(sorted), key);
    AsMultiset(Times(Hits(sorted), key), Mids(given, key));
  }

  lemma AsMultiset(times: seq<int>, mids: multiset<int>)
    requires multiset(times) == mids
    ensures |mids| == |times| && (times == [] <==> mids == multiset{})
    ensures times != [] ==> times[0] in mids && Max(times) in mids && forall m | m in mids :: m <= Max(times)
    ensures forall m | m in mids :: m in times
  {
    if times != [] {
      MaxIsMax(times);
      assert times[0] in times;
      forall m | m in mids
        ensures m <= Max(times)
      {
        assert m in times;
      }
    }
  }

  lemma {:induction false} MaxIsMax(s: seq<int>)
    requires s != []
    ensures Max(s) in s && forall x | x in s :: x <= Max(s)
  {
    if |s| > 1 {
      MaxIsMax(s[1..]);
      assert s == [s[0]] + s[1..];
    }
  }

  /** With keys that do not clash, the first midpoint is the earliest of them, although it is only
      ever written once. */
  lemma SeededFirst(given: seq<Signal>, sorted: seq<Signal>, key: string)
    requires InOrder(sorted) && multiset(given) == multiset(sorted)
    requires forall x | x in given :: ':' !in x.ticker
    ensures Dated(RecordAll(map[], Hits(sorted)), Mids(given, key), key)
  {
    var times := Times(Hits(sorted), key);
    Seeded(given, sorted, key);
    TimesAreMids(sorted, key);
    MidsOrder(given, sorted, key);
    RecordAllNew(map[], Hits(sorted), key);
    forall x | x in sorted
      ensures ':' !in x.ticker
    {
      assert x in multiset(sorted);
    }
    if times != [] {
      var a, b := ColonFreeOnly(sorted, key);
      FirstIsLeast(sorted, key, a, b);
    }
    AsMultiset(times, Mids(given, key));
  }

  /** Keys of tickers without a colon name their pair. */
  lemma KeyNamesPair(a: string, b: string, c: string, d: string)
    requires ':' !in a && ':' !in b && ':' !in c && ':' !in d
    ensures EdgeKey(a, b) == EdgeKey(c, d) <==> (a == c && b == d) || (a == d && b == c)
  {
    KeySymmetric(a, b);
    if EdgeKey(a, b) == EdgeKey(c, d) {
      CutAtColon(Lower(a, b), Higher(a, b), Lower(c, d), Higher(c, d));
    }
  }

  /** Which signals the store counts for a pair of tickers: one of each, at most 48 hours apart. */
  lemma PairedIff(x: Signal, y: Signal, a: string, b: string)
    requires ':' !in x.ticker && ':' !in y.ticker && ':' !in a && ':' !in b
    ensures Paired(x, y, EdgeKey(a, b))
       <==> && a != "" && b != "" && a != b
            && ((x.ticker == a && y.ticker == b) || (x.ticker == b && y.ticker == a))
            && -172_800_000_000_000 <= x.time - y.time <= 172_800_000_000_000
  {
    KeyNamesPair(x.ticker, y.ticker, a, b);
  }

  /** The lower ticker of one pair is the other's with ":" and `u` behind it; the rest of the key is
      the same. */
  predicate RunsOver(low: string, high: string, longer: string, rest: string, u: string) {
    longer == low + ":" + u && high == u + ":" + rest
  }

  /** Two pairs of tickers, whatever is in them, have one key if and only if they are one pair or
      the key can be cut at another of its colons. */
  lemma KeysClashIff(a: string, b: string, c: string, d: string)
    ensures var low, high, low', high' := Lower(a, b), Higher(a, b), Lower(c, d), Higher(c, d);
            EdgeKey(a, b) == EdgeKey(c, d) <==>
              || (low == low' && high == high')
              || (exists u :: RunsOver(low, high, low', high', u))
              || exists u :: RunsOver(low', high', low, high, u)
  {
    var low, high, low', high' := Lower(a, b), Higher(a, b), Lower(c, d), Higher(c, d);
    if u :| RunsOver(low, high, low', high', u) {
      Rejoined(low, u, high');
    }
    if u :| RunsOver(low', high', low, high, u) {
      Rejoined(low', u, high);
    }
    if EdgeKey(a, b) == EdgeKey(c, d) {
      if |low| < |low'| {
        CutBefore(low, high, low', high');
      } else if |low'| < |low| {
        CutBefore(low', high', low, high);
      } else {
        SameCut(low, high, low', high');
      }
    }
  }

  lemma Rejoined(low: string, u: string, rest: string)
    ensures low + ":" + (u + ":" + rest) == low + ":" + u + ":" + rest
  {
  }

  lemma SameCut(low: string, high: string, low': string, high': string)
    requires low + ":" + high == low' + ":" + high' && |low| == |low'|
    ensures low == low' && high == high'
  {
    var s := low + ":" + high;
    assert s[..|low|] == low && s[..|low'|] == low';
    assert s[|low| + 1..] == high && s[|low'| + 1..] == high';
  }

  lemma CutBefore(low: string, high: string, longer: string, rest: string)
    requires low + ":" + high == longer + ":" + rest && |low| < |longer|
    ensures RunsOver(low, high, longer, rest, longer[|low| + 1..])
  {
    var s, u := low + ":" + high, longer[|low| + 1..];
    assert longer == s[..|longer|] && s[|low|] == ':' && low == s[..|low|];
    assert longer == low + ":" + u;
    assert high == s[|low| + 1..] && u + ":" + rest == s[|low| + 1..];
  }

  /** There are such pairs. */
  lemma KeysClash()
    ensures EdgeKey("A:B", "C") == EdgeKey("A", "B:C")
  {
    assert Less("A:B", "C") && Less("A", "B:C");
    LessAsymmetric("A:B", "C");
    LessAsymmetric("A", "B:C");
    assert RunsOver("A", "B:C", "A:B", "C", "B");
    KeysClashIff("A:B", "C", "A", "B:C");
  }

  lemma ColonFreeOnly(s: seq<Signal>, key: string) returns (a: string, b: string)
    requires forall x | x in s :: ':' !in x.ticker
    ensures Only(s, key, a, b)
  {
    if x, y :| x in s && y in s && Ends(key, x.ticker, y.ticker) {
      a, b := x.ticker, y.ticker;
      forall v, w | v in s && w in s && Ends(key, v.ticker, w.ticker)
        ensures (v.ticker == a && w.ticker == b) || (v.ticker == b && w.ticker == a)
      {
        KeyNamesPair(v.ticker, w.ticker, a, b);
      }
    } else {
      a, b := "", "";
    }
  }

  /** A store as a history, in any order, makes it from an empty one. */
  ghost predicate SeededFrom(edges: map<string, Edge>, given: seq<Signal>) {
    && (forall key :: Tallied(edges, Mids(given, key), key))
    && ((forall x | x in given :: ':' !in x.ticker) ==> forall key :: Dated(edges, Mids(given, key), key))
  }

  lemma SeededAll(given: seq<Signal>, sorted: seq<Signal>)
    requires InOrder(sorted) && multiset(given) == multiset(sorted)
    ensures SeededFrom(RecordAll(map[], Hits(sorted)), given)
  {
    forall key
      ensures Tallied(RecordAll(map[], Hits(sorted)), Mids(given, key), key)
    {
      Seeded(given, sorted, key);
    }
    if forall x | x in given :: ':' !in x.ticker {
      forall key
        ensures Dated(RecordAll(map[], Hits(sorted)), Mids(given, key), key)
      {
        SeededFirst(given, sorted, key);
      }
    }
  }

  /** What the pairs of the i-th signal with those from the j-th on add to the store. */
  function Remaining(edges: map<string, Edge>, s: seq<Signal>, i: nat, j: nat): map<string, Edge>
    requires InOrder(s) && i < j <= |s|
  {
    RecordAll(edges, HitsWith(s[i], s[j..]))
  }

  lemma InnerStep(edges: map<string, Edge>, s: seq<Signal>, i: nat, j: nat)
    requires InOrder(s) && i < j < |s|
    ensures s[j].time - s[i].time > WINDOW ==> Remaining(edges, s, i, j) == edges
    ensures s[i].time <= s[j].time
    ensures s[j].time - s[i].time <= WINDOW ==>
              var hit := Hit(s[i].ticker, s[j].ticker, Midpoint(s[i].time, s[j].time));
              Remaining(edges, s, i, j) == Remaining(Recorded(edges, hit), s, i, j + 1)
  {
    var x, y := s[i], s[j];
    assert s[j..][0] == y && s[j..][1..] == s[j + 1..];
    if y.time - x.time > WINDOW {
      BreakDropsNothing(x, s[j..]);
    } else {
      RecordFirst(edges, Hit(x.ticker, y.ticker, Midpoint(x.time, y.time)), HitsWith(x, s[j + 1..]));
    }
  }

  lemma OuterStep(edges: map<string, Edge>, s: seq<Signal>, i: nat)
    requires InOrder(s) && i < |s|
    ensures RecordAll(edges, Hits(s[i..])) == RecordAll(Remaining(edges, s, i, i + 1), Hits(s[i + 1..]))
  {
    assert s[i..][0] == s[i] && s[i..][1..] == s[i + 1..];
    RecordAllConcat(edges, HitsWith(s[i], s[i + 1..]), Hits(s[i + 1..]));
  }

  // ---- the store ----

  datatype Related = Related(ticker: string, weight: nat, lastSeen: int)

  predicate Touches(e: Edge, ticker: string) {
    e.tickerA == ticker || e.tickerB == ticker
  }

  /** The edge is between these two tickers, in either place. */
  predicate Joins(e: Edge, ticker: string, other: string) {
    (e.tickerA == ticker && e.tickerB == other) || (e.tickerB == ticker && e.tickerA == other)
  }

  function EntryOf(e: Edge, ticker: string): Related {
    Related(if e.tickerA == ticker then e.tickerB else e.tickerA, e.weight, e.lastSeen)
  }

  /** Heavier edges first, and of equally heavy ones the later seen. */
  function Heavier(): (Related, Related) -> bool {
    (x: Related, y: Related) => x.weight > y.weight || (x.weight == y.weight && x.lastSeen > y.lastSeen)
  }

  function Earlier(): (Signal, Signal) -> bool {
    (x: Signal, y: Signal) => x.time < y.time
  }

  /** The hits of `RecordGroup`: all index pairs, at one time. */
  function Together(tickers: seq<string>, at: int): seq<Signal> {
    seq(|tickers|, i requires 0 <= i < |tickers| => Signal(tickers[i], at))
  }

  lemma GroupStep(edges: map<string, Edge>, tickers: seq<string>, at: int, i: nat, j: nat)
    requires i < j < |tickers|
    ensures Remaining(edges, Together(tickers, at), i, j)
         == Remaining(Recorded(edges, Hit(tickers[i], tickers[j], at)), Together(tickers, at), i, j + 1)
  {
    InnerStep(edges, Together(tickers, at), i, j);
  }

  class Store {
    var edges: map<string, Edge>

    constructor ()
      ensures edges == map[]
    {
      edges := map[];
    }

    method Record(tickerA: string, tickerB: string, at: int)
      modifies this
      ensures edges == Recorded(old(edges), Hit(tickerA, tickerB, at))
    {
      if tickerA == "" || tickerB == "" || tickerA == tickerB {
        return;
      }
      var key := EdgeKey(tickerA, tickerB);
      if key in edges {
        var e := edges[key];
        e := e.(weight := e.weight + 1);
        if at > e.lastSeen {
          e := e.(lastSeen := at);
        }
        edges := edges[key := e];
      } else {
        var a, b := tickerA, tickerB;
        if Less(b, a) {
          a, b := b, a;
        }
        edges := edges[key := Edge(a, b, 1, at, at)];
      }
    }

    /** The inner loop of the seeding, from signal `i` on. */
    method SeedFrom(signals: array<Signal>, i: nat)
      requires i < signals.Length && InOrder(signals[..])
      modifies this
      ensures edges == Remaining(old(edges), signals[..], i, i + 1)
    {
      ghost var s := signals[..];
      var x, j := signals[i], i + 1;
      while j < signals.Length
        invariant i + 1 <= j <= signals.Length
        invariant Remaining(old(edges), s, i, i + 1) == Remaining(edges, s, i, j)
      {
        var y := signals[j];
        InnerStep(edges, s, i, j);
        if y.time - x.time > WINDOW {
          return;
        }
        if x.ticker != y.ticker {
          Record(x.ticker, y.ticker, x.time + (y.time - x.time) / 2);
        }
        j := j + 1;
      }
    }

    /** `SeedFromSignals`. */
    method SeedFromSignals(signals: array<Signal>)
      modifies this, signals
      ensures InOrder(signals[..]) && multiset(signals[..]) == old(multiset(signals[..]))
      ensures edges == RecordAll(old(edges), Hits(signals[..]))
      ensures old(edges) == map[] ==> SeededFrom(edges, old(signals[..]))
    {
      ghost var given := signals[..];
      SortSlice(signals, Earlier());
      ghost var s := signals[..];
      assert s[0..] == s;
      var i := 0;
      while i < signals.Length
        invariant i <= signals.Length && signals[..] == s && InOrder(s)
        invariant RecordAll(old(edges), Hits(s)) == RecordAll(edges, Hits(s[i..]))
      {
        OuterStep(edges, s, i);
        SeedFrom(signals, i);
        i := i + 1;
      }
      if old(edges) == map[] {
        SeededAll(given, s);
      }
    }

    /** `RecordGroup`: as seeding with the group's tickers, all at one time. */
    method RecordGroup(tickers: seq<string>, at: int)
      modifies this
      ensures edges == RecordAll(old(edges), Hits(Together(tickers, at)))
    {
      ghost var s := Together(tickers, at);
      assert s[0..] == s;
      for i := 0 to |tickers|
        invariant RecordAll(old(edges), Hits(s)) == RecordAll(edges, Hits(s[i..]))
      {
        OuterStep(edges, s, i);
        RecordWith(tickers, at, i);
      }
    }

    method RecordWith(tickers: seq<string>, at: int, i: nat)
      requires i < |tickers|
      modifies this
      ensures edges == Remaining(old(edges), Together(tickers, at), i, i + 1)
    {
      ghost var s := Together(tickers, at);
      for j := i + 1 to |tickers|
        invariant Remaining(old(edges), s, i, i + 1) == Remaining(edges, s, i, j)
      {
        GroupStep(edges, tickers, at, i, j);
        Record(tickers[i], tickers[j], at);
      }
    }

    /** `Related`: the first ten of the ticker's edges, ranked. `keys` are its edges, each once. */
    method RelatedTo(ticker: string) returns (out: seq<Related>, ghost keys: seq<string>, ghost ranked: seq<Related>)
      ensures (forall k :: k in keys <==> k in edges && (edges[k].tickerA == ticker || edges[k].tickerB == ticker))
      ensures forall i, j | 0 <= i < j < |keys| :: keys[i] != keys[j]
      ensures multiset(ranked) == multiset(Entries(edges, ticker, keys)) && SortedBy(ranked, Heavier())
      ensures out == if |ranked| > 10 then ranked[..10] else ranked
      ensures forall i, j | 0 <= i < j < |out| ::
                out[i].weight >= out[j].weight && (out[i].weight == out[j].weight ==> out[i].lastSeen >= out[j].lastSeen)
      ensures forall e | e in out :: exists k | k in keys ::
                Joins(edges[k], ticker, e.ticker) && edges[k].weight == e.weight && edges[k].lastSeen == e.lastSeen
    {
      var candidates;
      candidates, keys := Candidates(ticker);
      var a := new Related[|candidates|](i requires 0 <= i < |candidates| => candidates[i]);
      assert a[..] == candidates;
      SortSlice(a, Heavier());
      ranked := a[..];
      out := if a.Length > MAX_RELATED then a[..MAX_RELATED] else a[..];
      forall e | e in out
        ensures exists k | k in keys ::
                  Joins(edges[k], ticker, e.ticker) && edges[k].weight == e.weight && edges[k].lastSeen == e.lastSeen
      {
        assert e in ranked && e in multiset(ranked);
        var i :| 0 <= i < |keys| && Entries(edges, ticker, keys)[i] == e;
        assert keys[i] in keys;
      }
    }

    method Candidates(ticker: string) returns (candidates: seq<Related>, ghost keys: seq<string>)
      ensures (forall k :: k in keys <==> k in edges && Touches(edges[k], ticker))
      ensures forall i, j | 0 <= i < j < |keys| :: keys[i] != keys[j]
      ensures candidates == Entries(edges, ticker, keys)
    {
      candidates, keys := [], [];
      var left := edges.Keys;
      while left != {}
        invariant left <= edges.Keys
        invariant forall k :: k in keys <==> k in edges && k !in left && Touches(edges[k], ticker)
        invariant forall i, j | 0 <= i < j < |keys| :: keys[i] != keys[j]
        invariant candidates == Entries(edges, ticker, keys)
        decreases |left|
      {
        var k :| k in left;
        left := left - {k};
        if Touches(edges[k], ticker) {
          candidates := candidates + [EntryOf(edges[k], ticker)];
          keys := keys + [k];
        }
      }
    }
  }

  function Entries(edges: map<string, Edge>, ticker: string, keys: seq<string>): seq<Related>
    requires forall k | k in keys :: k in edges
  {
    seq(|keys|, i requires 0 <= i < |keys| => EntryOf(edges[keys[i]], ticker))
  }

  lemma RecordFirst(edges: map<string, Edge>, h: Hit, rest: seq<Hit>)
    ensures RecordAll(edges, [h] + rest) == RecordAll(Recorded(edges, h), rest)
  {
    assert ([h] + rest)[1..] == rest;
  }
}
