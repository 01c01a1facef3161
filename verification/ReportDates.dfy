/**
 What the earnings calendar comes to hold, said in the statuses of its records and the fields of
 what its sources read.
 */
module ReportDates {
  import opened Wrappers
  import opened Runs
  import opened EarningsCalendar

  /** A backfilled date, an announced one, a confirmed one: only ever in this order. */
  predicate Before(a: Status, b: Status) {
    || (a == Backfilled && (b == Announced || b == Confirmed))
    || (a == Announced && b == Confirmed)
  }

  lemma TrustIsOrder(a: EarningsDate, b: EarningsDate)
    requires 1 <= Trust(a)
    ensures a.status != OtherStatus
    ensures Trust(a) < Trust(b) <==> Before(a.status, b.status)
  {
  }

  // ---- one item ----

  /** What is live under an ID, if anything, is of one of these statuses. */
  predicate Free(live: Calendar, id: string, under: set<Status>) {
    id in live ==> live[id].status in under
  }

  function Written(w: State, d: EarningsDate): State {
    State(w.file + [d], w.live[d.id := d])
  }

  /** An article, when it has a ticker, a time that parses and a quarter, fills in a date where there
      is none, and never replaces a confirmed, announced or backfilled one. */
  lemma ArticleWrites(w: State, ticker: string, published: Option<string>, quarter: string, year: int, sourceId: string)
    ensures var id := MakeId(ticker, quarter, year);
            Offered(w, Article(ticker, published, quarter, year, sourceId), true)
            == if ticker != "" && published.Some? && quarter != "" && Free(w.live, id, {OtherStatus})
               then Written(w, EarningsDate(id, ticker, quarter, year, published.value, Backfilled, sourceId))
               else w
  {
  }

  /** A press release, when it is long enough and yields a date, a quarter or year, and a ticker, also
      replaces a backfilled date. */
  lemma PressWrites(w: State, longEnough: bool, date: Option<string>, quarter: string, year: int, ticker: string, sourceId: string)
    ensures var id := MakeId(ticker, quarter, year);
            Offered(w, Press(longEnough, date, quarter, year, ticker, sourceId), true)
            == if longEnough && date.Some? && (quarter != "" || year != 0) && ticker != ""
                  && Free(w.live, id, {OtherStatus, Backfilled})
               then Written(w, EarningsDate(id, ticker, quarter, year, date.value, Announced, sourceId))
               else w
  {
  }

  /** A document, when it is an 8-K of the right item with a ticker, a filing date, and a quarter or
      year, replaces all but a confirmed date; a missing year is that of the filing date. */
  lemma DocumentWrites(w: State, is8K: bool, ticker: string, filingDate: string, hasItem: bool, quarter: string, year: int,
                       dateYear: Option<int>, sourceId: string)
    ensures var y := if year != 0 || dateYear.None? then year else dateYear.value;
            var id := MakeId(ticker, quarter, y);
            Offered(w, Document(is8K, ticker, filingDate, hasItem, quarter, year, dateYear, sourceId), true)
            == if is8K && hasItem && ticker != "" && filingDate != "" && (quarter != "" || year != 0)
                  && Free(w.live, id, {OtherStatus, Backfilled, Announced})
               then Written(w, EarningsDate(id, ticker, quarter, y, filingDate, Confirmed, sourceId))
               else w
  {
  }

  // ---- every run ----

  /** Records of one ID after one that survives a reload are of later statuses than it. */
  ghost predicate Ascending(file: seq<EarningsDate>) {
    forall i, j | 0 <= i < j < |file| && file[i].id == file[j].id && Kept(file[i]) :: Before(file[i].status, file[j].status)
  }

  /** Over every run the surviving records of an ID go from backfilled over announced to confirmed,
      each at most once. */
  lemma StatusesAscend(ls: seq<Label>)
    requires Run(Next, EMPTY, ls).Some?
    ensures var w := Run(Next, EMPTY, ls).value;
            Ascending(w.file) && forall d | d in w.file :: d.status != OtherStatus
  {
    RunInv(ls);
    var file := Run(Next, EMPTY, ls).value.file;
    forall i, j | 0 <= i < j < |file| && file[i].id == file[j].id && Kept(file[i])
      ensures Before(file[i].status, file[j].status)
    {
      assert file[i] in file;
      TrustIsOrder(file[i], file[j]);
    }
    forall d | d in file
      ensures d.status != OtherStatus
    {
      TrustIsOrder(d, d);
    }
  }

  lemma {:induction false} FileGrows(w: State, ls: seq<Label>)
    requires Inv(w) && Run(Next, w, ls).Some?
    ensures var v := Run(Next, w, ls).value; Inv(v) && w.file <= v.file
    decreases |ls|
  {
    if ls != [] {
      StepKeeps(w, ls[0]);
      FileGrows(Next(w, ls[0]).value, ls[1..]);
    }
  }

  /** A date that survives a reload is only ever followed by one of a later status, restarts
      included: no article takes the place of an announcement, nor anything that of a filing. */
  lemma StatusNeverFalls(ls: seq<Label>, more: seq<Label>, id: string)
    requires Run(Next, EMPTY, ls).Some? && Run(Next, Run(Next, EMPTY, ls).value, more).Some?
    requires id in Run(Next, EMPTY, ls).value.live && Kept(Run(Next, EMPTY, ls).value.live[id])
    ensures var w := Run(Next, EMPTY, ls).value;
            var v := Run(Next, w, more).value;
            id in v.live && (v.live[id].status == w.live[id].status || Before(w.live[id].status, v.live[id].status))
  {
    RunInv(ls);
    var w := Run(Next, EMPTY, ls).value;
    var v, d := Run(Next, w, more).value, w.live[id];
    FileGrows(w, more);
    LiveInFile(w, id);
    assert d in v.file && d.id == id;
    assert Trust(d) <= Trust(Reload(v.file)[id]) <= Trust(v.live[id]);
    TrustIsOrder(d, v.live[id]);
  }

  /** The last record of an ID that has an ID, a ticker, a date and a year. */
  predicate LastWhole(file: seq<EarningsDate>, id: string, i: int) {
    && 0 <= i < |file| && file[i].id == id && Whole(file[i])
    && forall j | i < j < |file| && file[j].id == id :: !Whole(file[j])
  }

  predicate Whole(d: EarningsDate) {
    !(d.id == "" || d.ticker == "" || d.reportDate == "") && d.fiscalYear != 0
  }

  /** What a restart loads under an ID is that record, and nothing when there is none. */
  lemma {:induction false} LoadedIff(file: seq<EarningsDate>, id: string)
    ensures id in Reload(file) <==> exists i | 0 <= i < |file| :: LastWhole(file, id, i)
    ensures forall i | LastWhole(file, id, i) :: id in Reload(file) && Reload(file)[id] == file[i]
    decreases |file|
  {
    if file != [] {
      var n := |file| - 1;
      var init, last := file[..n], file[n];
      LoadedIff(init, id);
      if Whole(last) && last.id == id {
        assert LastWhole(file, id, n);
      } else {
        forall i | 0 <= i < n
          ensures LastWhole(file, id, i) <==> LastWhole(init, id, i)
        {
          if LastWhole(init, id, i) {
            forall j | i < j < |file| && file[j].id == id
              ensures !Whole(file[j])
            {
              assert j < n ==> file[j] == init[j];
            }
          }
        }
      }
    }
  }

  lemma {:induction false} ReloadedInFile(file: seq<EarningsDate>, id: string)
    requires id in Reload(file)
    ensures Reload(file)[id] in file
    decreases |file|
  {
    var init, last := file[..|file| - 1], file[|file| - 1];
    assert file == init + [last];
    if !(Kept(last) && last.id == id) {
      ReloadedInFile(init, id);
    }
  }

  lemma LiveInFile(w: State, id: string)
    requires Inv(w) && id in w.live && Kept(w.live[id])
    ensures w.live[id] in w.file && w.live[id].id == id
  {
    ReloadedInFile(w.file, id);
  }

  // ---- IDs ----

  lemma {:induction false} NoHyphen(n: int)
    ensures '-' !in Digits(n)
  {
    if n > 0 {
      NoHyphen(n / 10);
    }
  }

  lemma {:induction false} DigitsDiffer(m: int, n: int)
    requires Digits(m) == Digits(n)
    ensures m == n || (m <= 0 && n <= 0)
    decreases if m > 0 then m else 0
  {
    if m > 0 && n > 0 {
      var a, b := Digits(m), Digits(n);
      assert a[|a| - 1] == ('0' as int + m % 10) as char && b[|b| - 1] == ('0' as int + n % 10) as char;
      assert m % 10 == n % 10;
      assert a[..|a| - 1] == Digits(m / 10) && b[..|b| - 1] == Digits(n / 10);
      DigitsDiffer(m / 10, n / 10);
    }
  }

  function Year(y: int): string {
    if y == 0 then "0" else Digits(y)
  }

  /** The decimal digits name a year, but for the negative ones. */
  lemma YearDiffers(m: int, n: int)
    ensures '-' !in Year(m)
    ensures Year(m) == Year(n) <==> m == n || (m < 0 && n < 0)
  {
    NoHyphen(m);
    if m != 0 && n != 0 {
      if Year(m) == Year(n) {
        DigitsDiffer(m, n);
      }
    } else if m != n {
      NotZero(if m == 0 then n else m);
    }
  }

  lemma NotZero(n: int)
    requires n != 0
    ensures Digits(n) != "0"
  {
    if n > 0 {
      assert Digits(n)[|Digits(n)| - 1] == ('0' as int + n % 10) as char;
      assert n < 10 ==> n % 10 == n;
    }
  }

  /** What follows the last hyphen. */
  function LastPart(s: string): string
    decreases |s|
  {
    if s == "" || s[|s| - 1] == '-' then "" else LastPart(s[..|s| - 1]) + [s[|s| - 1]]
  }

  lemma {:induction false} LastPartIs(s: string, t: string)
    requires '-' !in t
    ensures LastPart(s + "-" + t) == t
    decreases |t|
  {
    var x := s + "-" + t;
    if t != "" {
      assert x[..|x| - 1] == s + "-" + t[..|t| - 1];
      LastPartIs(s, t[..|t| - 1]);
    }
  }

  lemma CutAtLast(s: string, t: string, u: string, v: string)
    requires '-' !in t && '-' !in v && s + "-" + t == u + "-" + v
    ensures s == u && t == v
  {
    LastPartIs(s, t);
    LastPartIs(u, v);
    assert s == (s + "-" + t)[..|s|] && u == (u + "-" + v)[..|u|];
  }

  /** Two IDs are the same exactly when ticker and quarter read the same with a hyphen between them, and
      the years are the same or both negative; with quarters free of hyphens, exactly when tickers and
      quarters are the same too. */
  lemma SameIdIff(t: string, q: string, y: int, u: string, r: string, z: int)
    ensures MakeId(t, q, y) == MakeId(u, r, z)
       <==> t + "-" + q == u + "-" + r && (y == z || (y < 0 && z < 0))
    ensures '-' !in q && '-' !in r ==> (t + "-" + q == u + "-" + r <==> t == u && q == r)
  {
    var a, b := "earncal-" + (t + "-" + q), "earncal-" + (u + "-" + r);
    assert MakeId(t, q, y) == a + "-" + Year(y) && MakeId(u, r, z) == b + "-" + Year(z);
    YearDiffers(y, z);
    YearDiffers(z, y);
    if MakeId(t, q, y) == MakeId(u, r, z) {
      CutAtLast(a, Year(y), b, Year(z));
      assert t + "-" + q == a[8..] && u + "-" + r == b[8..];
    }
    if '-' !in q && '-' !in r && t + "-" + q == u + "-" + r {
      CutAtLast(t, q, u, r);
    }
  }
}
