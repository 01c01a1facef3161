/**
 The earnings calendar: an append-only file of report dates, the last record of an ID
 winning, fed by three sources that each write only what they trust more than what is there.
 */
module EarningsCalendar {
  import opened Wrappers
  import opened EventLog
  import opened Runs

  datatype Status = Confirmed | Announced | Backfilled | OtherStatus

  datatype EarningsDate = EarningsDate(
    id: string, ticker: string, fiscalQuarter: string, fiscalYear: int, reportDate: string,
    status: Status, sourceId: string)

  type Calendar = map<string, EarningsDate>

  function StatusPriority(s: Status): nat {
    match s
    case Confirmed => 3
    case Announced => 2
    case Backfilled => 1
    case OtherStatus => 0
  }

  function Trust(d: EarningsDate): nat {
    StatusPriority(d.status)
  }

  function Digits(n: int): string {
    if n <= 0 then "" else Digits(n / 10) + [('0' as int + n % 10) as char]
  }

  /** `MakeID`; a negative year leaves its place empty. */
  function MakeId(ticker: string, quarter: string, year: int): string {
    "earncal-" + ticker + "-" + quarter + "-" + if year == 0 then "0" else Digits(year)
  }

  // ---- the three sources ----

  /** An EPS article, a press release body and a filed document, with what is extracted from their
      text; a date or year that cannot be had is None. */
  datatype Item =
    | Article(ticker: string, published: Option<string>, quarter: string, year: int, sourceId: string)
    | Press(longEnough: bool, date: Option<string>, quarter: string, year: int, ticker: string, sourceId: string)
    | Document(is8K: bool, ticker: string, filingDate: string, hasItem: bool, quarter: string, year: int,
               dateYear: Option<int>, sourceId: string)
    | Unrelated

  function Dated(ticker: string, quarter: string, year: int, date: string, status: Status, sourceId: string): EarningsDate {
    EarningsDate(MakeId(ticker, quarter, year), ticker, quarter, year, date, status, sourceId)
  }

  /** The record a source would write. */
  function Candidate(item: Item): Option<EarningsDate> {
    match item
    case Article(ticker, published, quarter, year, sourceId) =>
      if ticker == "" || published.None? || quarter == "" then None
      else Some(Dated(ticker, quarter, year, published.value, Backfilled, sourceId))
    case Press(longEnough, date, quarter, year, ticker, sourceId) =>
      if !longEnough || date.None? || (quarter == "" && year == 0) || ticker == "" then None
      else Some(Dated(ticker, quarter, year, date.value, Announced, sourceId))
    case Document(is8K, ticker, filingDate, hasItem, quarter, year, dateYear, sourceId) =>
      if !is8K || ticker == "" || filingDate == "" || !hasItem || (quarter == "" && year == 0) then None
      else
        var y := if year == 0 && dateYear.Some? then dateYear.value else year;
        Some(Dated(ticker, quarter, y, filingDate, Confirmed, sourceId))
    case Unrelated => None
  }

  /** Each source writes only over less trust. */
  predicate Accepts(live: Calendar, d: EarningsDate) {
    d.id in live ==> Trust(live[d.id]) < Trust(d)
  }

  // ---- the file and what is loaded from it ----

  predicate Kept(d: EarningsDate) {
    d.id != "" && d.ticker != "" && d.reportDate != "" && d.fiscalYear != 0
  }

  /** `Refresh`. */
  function Reload(file: seq<EarningsDate>): Calendar
    decreases |file|
  {
    if file == [] then map[]
    else
      var before, d := Reload(file[..|file| - 1]), file[|file| - 1];
      if Kept(d) then before[d.id := d] else before
  }

  lemma ReloadNext(file: seq<EarningsDate>, d: EarningsDate)
    ensures Reload(file + [d]) == if Kept(d) then Reload(file)[d.id := d] else Reload(file)
  {
    assert (file + [d])[..|file|] == file;
  }

  datatype State = State(file: seq<EarningsDate>, live: Calendar)

  /** An item is offered by its source, whose append may fail; or the program restarts. */
  datatype Label = Offer(item: Item, appended: bool) | Restart

  function Offered(w: State, item: Item, appended: bool): State {
    var c := Candidate(item);
    if c.None? || !Accepts(w.live, c.value) || !appended then w
    else State(w.file + [c.value], w.live[c.value.id := c.value])
  }

  function Next(w: State, l: Label): Option<State> {
    match l
    case Offer(item, appended) => Some(Offered(w, item, appended))
    case Restart => Some(w.(live := Reload(w.file)))
  }

  const EMPTY := State([], map[])

  // ---- the invariant ----

  /** Of the records that survive a reload, each is trusted more than those of its ID before it. */
  ghost predicate Rising(file: seq<EarningsDate>) {
    forall i, j | 0 <= i < j < |file| && file[i].id == file[j].id && Kept(file[i]) :: Trust(file[i]) < Trust(file[j])
  }

  /** What a reload finds for an ID is the most trusted surviving record, and the live calendar has
      it, or one trusted no less that will not survive. */
  ghost predicate Loaded(file: seq<EarningsDate>, live: Calendar) {
    && (forall d | d in file && Kept(d) :: d.id in Reload(file) && Trust(d) <= Trust(Reload(file)[d.id]))
    && (forall id | id in Reload(file) ::
          && Reload(file)[id].id == id && Kept(Reload(file)[id])
          && id in live && Trust(Reload(file)[id]) <= Trust(live[id]))
    && (forall id | id in live && Kept(live[id]) :: id in Reload(file) && Reload(file)[id] == live[id])
  }

  ghost predicate Inv(w: State) {
    && Rising(w.file) && Loaded(w.file, w.live)
    && (forall d | d in w.file :: 1 <= Trust(d))
    && forall id | id in w.live :: w.live[id].id == id
  }

  lemma RisingNext(file: seq<EarningsDate>, d: EarningsDate)
    requires Rising(file) && forall e | e in file && Kept(e) && e.id == d.id :: Trust(e) < Trust(d)
    ensures Rising(file + [d])
  {
  }

  lemma LoadedNext(file: seq<EarningsDate>, live: Calendar, d: EarningsDate)
    requires Loaded(file, live) && Accepts(live, d)
    ensures Loaded(file + [d], live[d.id := d])
  {
    ReloadNext(file, d);
    var more := file + [d];
    forall e | e in more && Kept(e)
      ensures e.id in Reload(more) && Trust(e) <= Trust(Reload(more)[e.id])
    {
      if e in file {
        assert e.id in Reload(file);
      }
    }
  }

  lemma LessTrusted(file: seq<EarningsDate>, live: Calendar, d: EarningsDate)
    requires Loaded(file, live) && Accepts(live, d)
    ensures forall e | e in file && Kept(e) && e.id == d.id :: Trust(e) < Trust(d)
  {
    forall e | e in file && Kept(e) && e.id == d.id
      ensures Trust(e) < Trust(d)
    {
      assert d.id in Reload(file);
    }
  }

  lemma AppendKeeps(w: State, d: EarningsDate)
    requires Inv(w) && Accepts(w.live, d) && 1 <= Trust(d)
    ensures Inv(State(w.file + [d], w.live[d.id := d]))
  {
    LoadedNext(w.file, w.live, d);
    LessTrusted(w.file, w.live, d);
    RisingNext(w.file, d);
  }

  lemma OfferKeeps(w: State, item: Item, appended: bool)
    requires Inv(w)
    ensures Inv(Offered(w, item, appended))
  {
    var c := Candidate(item);
    if c.Some? && Accepts(w.live, c.value) && appended {
      AppendKeeps(w, c.value);
    }
  }

  lemma StepKeeps(w: State, l: Label)
    requires Inv(w)
    ensures Inv(Next(w, l).value)
  {
    if l.Offer? {
      OfferKeeps(w, l.item, l.appended);
    }
  }

  lemma RunInv(ls: seq<Label>)
    requires Run(Next, EMPTY, ls).Some?
    ensures Inv(Run(Next, EMPTY, ls).value)
  {
    forall w, l | Inv(w) && Next(w, l).Some?
      ensures Inv(Next(w, l).value)
    {
      StepKeeps(w, l);
    }
    var any := (w: State, l: Label) => true;
    AllAllowed(Next, any, EMPTY, ls);
    Keeps(Next, Inv, any, EMPTY, ls);
  }

  // ---- the properties of every run ----

  function Count(file: seq<EarningsDate>, id: string): nat
    decreases |file|
  {
    if file == [] then 0
    else Count(file[..|file| - 1], id) + if file[|file| - 1].id == id && Kept(file[|file| - 1]) then 1 else 0
  }

  lemma {:induction false} CountBelowTrust(file: seq<EarningsDate>, id: string)
    requires Rising(file) && forall d | d in file :: 1 <= Trust(d)
    ensures Count(file, id) == 0 || exists d :: d in file && d.id == id && Kept(d) && Count(file, id) <= Trust(d)
    decreases |file|
  {
    if file != [] {
      var init, last := file[..|file| - 1], file[|file| - 1];
      assert last in file;
      CountBelowTrust(init, id);
      if Count(init, id) > 0 {
        var d :| d in init && d.id == id && Kept(d) && Count(init, id) <= Trust(d);
        assert d in file;
        if last.id == id && Kept(last) {
          var i :| 0 <= i < |init| && init[i] == d;
          assert file[i] == d;
        }
      }
    }
  }

  /** Over any interleaving of the sources, failures and restarts, the surviving records of an ID
      are each trusted more than the last, so there are at most three. */
  lemma AtMostThree(ls: seq<Label>, id: string)
    requires Run(Next, EMPTY, ls).Some?
    ensures var w := Run(Next, EMPTY, ls).value; Rising(w.file) && Count(w.file, id) <= 3
  {
    RunInv(ls);
    CountBelowTrust(Run(Next, EMPTY, ls).value.file, id);
  }

  lemma ConfirmedStep(w: State, l: Label, id: string)
    requires Inv(w) && id in w.live && w.live[id].status == Confirmed && Kept(w.live[id])
    ensures id in Next(w, l).value.live && Next(w, l).value.live[id] == w.live[id]
  {
  }

  /** A confirmed date that survives a reload is never replaced. */
  lemma {:induction false} ConfirmedStays(w: State, ls: seq<Label>, id: string)
    requires Inv(w) && Run(Next, w, ls).Some?
    requires id in w.live && w.live[id].status == Confirmed && Kept(w.live[id])
    ensures var v := Run(Next, w, ls).value; id in v.live && v.live[id] == w.live[id]
    decreases |ls|
  {
    if ls != [] {
      StepKeeps(w, ls[0]);
      ConfirmedStep(w, ls[0], id);
      ConfirmedStays(Next(w, ls[0]).value, ls[1..], id);
    }
  }

  /** After any run the live calendar is what a restart would load if and only if each of its
      records survives: none has a fiscal year of 0. */
  lemma LiveIsReloadIff(ls: seq<Label>)
    requires Run(Next, EMPTY, ls).Some?
    ensures var w := Run(Next, EMPTY, ls).value;
            w.live == Reload(w.file) <==> forall id | id in w.live :: Kept(w.live[id])
  {
    RunInv(ls);
    var w := Run(Next, EMPTY, ls).value;
    if forall id | id in w.live :: Kept(w.live[id]) {
      assert w.live.Keys == Reload(w.file).Keys;
    }
  }

  /** A record just written is written once more after a restart if and only if it does not
      survive; for a source's own records that have dates, if and only if the year is 0. */
  lemma WrittenAgainIff(ls: seq<Label>, item: Item)
    requires Run(Next, EMPTY, ls).Some? && Candidate(item).Some?
    requires Accepts(Run(Next, EMPTY, ls).value.live, Candidate(item).value)
    ensures var w, d := Run(Next, EMPTY, ls).value, Candidate(item).value;
            var once := Offered(w, item, true);
            var again := Offered(once.(live := Reload(once.file)), item, true);
            && (again.file == once.file <==> Kept(d))
            && (d.reportDate != "" ==> (Kept(d) <==> d.fiscalYear != 0))
  {
    RunInv(ls);
    var w, d := Run(Next, EMPTY, ls).value, Candidate(item).value;
    ReloadNext(w.file, d);
    IdNotBlank(item);
  }

  lemma IdNotBlank(item: Item)
    requires Candidate(item).Some?
    ensures Candidate(item).value.id != "" && Candidate(item).value.ticker != ""
  {
  }

  // ---- the store and the scans ----

  class Store {
    var file: seq<EarningsDate>
    var byId: Calendar

    function Now(): State
      reads this
    {
      State(file, byId)
    }

    constructor (file: seq<EarningsDate>)
      ensures this.file == file && byId == map[]
    {
      this.file, this.byId := file, map[];
    }

    method Refresh()
      modifies this`byId
      ensures byId == Reload(file)
    {
      var loaded: Calendar := map[];
      for i := 0 to |file|
        invariant loaded == Reload(file[..i])
      {
        ReloadNext(file[..i], file[i]);
        assert file[..i] + [file[i]] == file[..i + 1];
        if file[i].id == "" || file[i].ticker == "" || file[i].reportDate == "" {
          continue;
        }
        if file[i].fiscalYear == 0 {
          continue;
        }
        loaded := loaded[file[i].id := file[i]];
      }
      assert file[..|file|] == file;
      byId := loaded;
    }

    /** `Append`: one line and the live entry, or nothing. */
    method Append(d: EarningsDate) returns (ok: bool)
      modifies this
      ensures file == if ok then old(file) + [d] else old(file)
      ensures byId == if ok then old(byId)[d.id := d] else old(byId)
    {
      ok := *;
      if ok {
        file := file + [d];
        byId := byId[d.id := d];
      }
    }

    method GetById(id: string) returns (d: Option<EarningsDate>)
      ensures d == if id in byId then Some(byId[id]) else None
    {
      d := if id in byId then Some(byId[id]) else None;
    }

    /** What each scan does with one item. */
    method Consider(item: Item) returns (ok: bool)
      modifies this
      ensures Now() == Offered(old(Now()), item, ok)
    {
      ok := false;
      var c := Candidate(item);
      if c.Some? {
        var d := c.value;
        var existing := GetById(d.id);
        if existing.Some? && StatusPriority(existing.value.status) >= StatusPriority(d.status) {
          return;
        }
        ok := Append(d);
      }
    }

    /** `backfillFromEPS`: every article, each time. */
    method BackfillFromEps(articles: seq<Item>) returns (ghost steps: seq<Label>)
      requires forall a | a in articles :: a.Article?
      modifies this
      ensures Offers(steps, articles) && Run(Next, old(Now()), steps) == Some(Now())
    {
      steps := ConsiderAll(articles);
    }

    /** `scanPRBodies` and `scanSecFilings`: one page of a feed; the cursor moves past all of it,
        whatever was skipped or could not be appended. */
    method ScanPage(feed: seq<Record<Item>>, cursor: nat, size: nat) returns (next: nat, ghost steps: seq<Label>)
      modifies this
      ensures var page := Page(feed, cursor, size);
              && Offers(steps, ItemsOf(page))
              && next == (if page == [] then cursor else page[|page| - 1].seqNo + 1)
      ensures Run(Next, old(Now()), steps) == Some(Now())
    {
      var page := Page(feed, cursor, size);
      steps := ConsiderAll(ItemsOf(page));
      next := if page == [] then cursor else page[|page| - 1].seqNo + 1;
    }

    method ConsiderAll(items: seq<Item>) returns (ghost steps: seq<Label>)
      modifies this
      ensures Offers(steps, items) && Run(Next, old(Now()), steps) == Some(Now())
    {
      steps := [];
      for i := 0 to |items|
        invariant |steps| == i && forall k | 0 <= k < i :: steps[k].Offer? && steps[k].item == items[k]
        invariant Run(Next, old(Now()), steps) == Some(Now())
      {
        ghost var before := Now();
        var ok := Consider(items[i]);
        RunOne(Next, before, Offer(items[i], ok), Now());
        RunConcat(Next, old(Now()), steps, [Offer(items[i], ok)]);
        steps := steps + [Offer(items[i], ok)];
      }
    }
  }

  function ItemsOf(page: seq<Record<Item>>): seq<Item> {
    seq(|page|, i requires 0 <= i < |page| => page[i].event)
  }

  predicate Offers(steps: seq<Label>, items: seq<Item>) {
    |steps| == |items| && forall k | 0 <= k < |steps| :: steps[k].Offer? && steps[k].item == items[k]
  }
}
