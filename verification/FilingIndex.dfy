/**
 The filing index: a table of each filing's date and form that stands in for a scan of
 the whole store. It is filled once from a scan and then from each batch.
 */
module FilingIndex {
  import opened Wrappers
  import opened Filings
  import opened Text

  /** A stored event: a filing, or one the index does not read. */
  datatype Event = Filing(cik: string, accession: string, date: string, form: string, formType: string) | Unrelated

  datatype Row = Row(date: string, form: string)

  type Table = map<string, Row>

  datatype Indexes = Indexes(dates: map<string, string>, forms: map<string, string>)

  predicate Listed(e: Event) {
    e.Filing? && e.cik != "" && e.accession != ""
  }

  function IdOf(e: Event): string
    requires e.Filing?
  {
    FilingIdentity(e.cik, e.accession)
  }

  /** `EffectiveForm`: the older field when it is there, the newer one otherwise. */
  function FormOf(e: Event): string
    requires e.Filing?
  {
    if e.form != "" then e.form else e.formType
  }

  function RowOf(e: Event): Row
    requires e.Filing?
  {
    Row(e.date, FormOf(e))
  }

  predicate Is(e: Event, id: string) {
    Listed(e) && IdOf(e) == id
  }

  // ---- the scan ----

  function AddFirst(m: map<string, string>, id: string, v: string): map<string, string> {
    if v != "" && id !in m then m[id := v] else m
  }

  function Noted(ix: Indexes, e: Event): Indexes {
    if !Listed(e) then ix
    else Indexes(AddFirst(ix.dates, IdOf(e), e.date), AddFirst(ix.forms, IdOf(e), FormOf(e)))
  }

  /** `buildFilingIndexes`: the first date and the first form known of each filing. */
  function Build(log: seq<Event>): Indexes
    decreases |log|
  {
    if log == [] then Indexes(map[], map[]) else Noted(Build(log[..|log| - 1]), log[|log| - 1])
  }

  // ---- the table ----

  function Insert(t: Table, id: string, row: Row): Table {
    if id in t then t else t[id := row]
  }

  function InsertAll(t: Table, recs: seq<Event>): Table
    decreases |recs|
  {
    if recs == [] then t
    else
      var before, e := InsertAll(t, recs[..|recs| - 1]), recs[|recs| - 1];
      if Listed(e) then Insert(before, IdOf(e), RowOf(e)) else before
  }

  function OrBlank(m: map<string, string>, id: string): string {
    if id in m then m[id] else ""
  }

  function Backfilled(t: Table, ix: Indexes): Table {
    map id | id in t.Keys + ix.dates.Keys + ix.forms.Keys ::
      if id in t then t[id] else Row(OrBlank(ix.dates, id), OrBlank(ix.forms, id))
  }

  /** `loadFilingIndexes`. */
  function Load(t: Table): Indexes {
    Indexes(map id | id in t && t[id].date != "" :: t[id].date,
            map id | id in t && t[id].form != "" :: t[id].form)
  }

  // ---- the first record of each filing ----

  function FirstOf(log: seq<Event>, id: string): (e: Option<Event>)
    ensures e.Some? ==> Is(e.value, id)
    decreases |log|
  {
    if log == [] then None
    else
      var before := FirstOf(log[..|log| - 1], id);
      if before.Some? then before
      else if Is(log[|log| - 1], id) then Some(log[|log| - 1]) else None
  }

  /** What the first record of a filing leaves blank, no later record fills in. */
  ghost predicate Settled(log: seq<Event>) {
    forall e | e in log && Listed(e) ::
      FirstOf(log, IdOf(e)).Some? &&
      var first := FirstOf(log, IdOf(e)).value;
      (first.date == "" ==> e.date == "") && (FormOf(first) == "" ==> FormOf(e) == "")
  }

  /** The row of one filing: none but its first record's, and there if that says anything. */
  predicate Right(t: Table, log: seq<Event>, id: string) {
    var first := FirstOf(log, id);
    && (id in t ==> first.Some? && t[id] == RowOf(first.value))
    && (first.Some? && RowOf(first.value) != Row("", "") ==> id in t)
  }

  /** The table after the first records of `log`. */
  ghost predicate Holds(t: Table, log: seq<Event>) {
    forall id :: Right(t, log, id)
  }

  lemma {:induction false} FirstOfPrefix(log: seq<Event>, n: nat, id: string)
    requires n <= |log|
    ensures FirstOf(log[..n], id).Some? ==> FirstOf(log, id) == FirstOf(log[..n], id)
    decreases |log|
  {
    if n < |log| {
      var init := log[..|log| - 1];
      assert init[..n] == log[..n];
      FirstOfPrefix(init, n, id);
    } else {
      assert log[..n] == log;
    }
  }

  lemma {:induction false} FirstOfIs(log: seq<Event>, id: string)
    ensures FirstOf(log, id).None? <==> forall e | e in log :: !Is(e, id)
    ensures FirstOf(log, id).Some? ==> FirstOf(log, id).value in log
    decreases |log|
  {
    if log != [] {
      var init := log[..|log| - 1];
      FirstOfIs(init, id);
      assert log == init + [log[|log| - 1]];
    }
  }

  lemma SettledPrefix(log: seq<Event>, n: nat)
    requires Settled(log) && n <= |log|
    ensures Settled(log[..n])
  {
    forall e | e in log[..n] && Listed(e)
      ensures FirstOf(log[..n], IdOf(e)).Some?
      ensures FirstOf(log[..n], IdOf(e)) == FirstOf(log, IdOf(e))
    {
      FirstOfIs(log[..n], IdOf(e));
      FirstOfPrefix(log, n, IdOf(e));
    }
  }

  /** In settled history the scan finds what the first records say. */
  lemma {:induction false} BuildIs(log: seq<Event>, id: string)
    requires Settled(log)
    ensures var first, ix := FirstOf(log, id), Build(log);
            && (id in ix.dates <==> first.Some? && first.value.date != "")
            && (id in ix.dates ==> ix.dates[id] == first.value.date)
            && (id in ix.forms <==> first.Some? && FormOf(first.value) != "")
            && (id in ix.forms ==> ix.forms[id] == FormOf(first.value))
    decreases |log|
  {
    if log != [] {
      var init, last := log[..|log| - 1], log[|log| - 1];
      SettledPrefix(log, |log| - 1);
      BuildIs(init, id);
      assert last in log;
      if Is(last, id) && FirstOf(init, id).Some? {
        SettledAt(log, last);
        assert FirstOf(log, id) == FirstOf(init, id);
      }
    }
  }

  lemma SettledAt(log: seq<Event>, e: Event)
    requires Settled(log) && e in log && Listed(e)
    ensures FirstOf(log, IdOf(e)).Some?
    ensures FirstOf(log, IdOf(e)).value.date == "" ==> e.date == ""
    ensures FormOf(FirstOf(log, IdOf(e)).value) == "" ==> FormOf(e) == ""
  {
  }

  /** A table that holds the first records loads as the scan. */
  lemma LoadIsBuild(t: Table, log: seq<Event>)
    requires Settled(log) && Holds(t, log)
    ensures Load(t) == Build(log)
  {
    forall id: string
      ensures id in Load(t).dates <==> id in Build(log).dates
      ensures id in Load(t).forms <==> id in Build(log).forms
      ensures id in Build(log).dates ==> Load(t).dates[id] == Build(log).dates[id]
      ensures id in Build(log).forms ==> Load(t).forms[id] == Build(log).forms[id]
    {
      assert Right(t, log, id);
      BuildIs(log, id);
    }
    assert Load(t).dates == Build(log).dates;
    assert Load(t).forms == Build(log).forms;
  }

  // ---- backfill and batches ----

  lemma HoldsBackfill(log: seq<Event>)
    requires Settled(log)
    ensures Holds(Backfilled(map[], Build(log)), log)
  {
    forall id: string
      ensures var t, first := Backfilled(map[], Build(log)), FirstOf(log, id);
              && (id in t <==> first.Some? && RowOf(first.value) != Row("", ""))
              && (id in t ==> t[id] == RowOf(first.value))
    {
      BuildIs(log, id);
    }
  }

  /** Inserting a record that has been covered before changes nothing that matters. */
  lemma HoldsAgain(t: Table, log: seq<Event>, e: Event)
    requires Settled(log) && Holds(t, log) && Listed(e) && e in log
    ensures Holds(Insert(t, IdOf(e), RowOf(e)), log)
  {
    forall id
      ensures Right(Insert(t, IdOf(e), RowOf(e)), log, id)
    {
      assert Right(t, log, id);
    }
  }

  lemma FirstOfNext(log: seq<Event>, e: Event, id: string)
    ensures FirstOf(log + [e], id)
         == if FirstOf(log, id).Some? then FirstOf(log, id) else if Is(e, id) then Some(e) else None
  {
    assert (log + [e])[..|log|] == log;
  }

  lemma HoldsNext(t: Table, log: seq<Event>, e: Event)
    requires Settled(log + [e]) && Holds(t, log)
    ensures Holds(if Listed(e) then Insert(t, IdOf(e), RowOf(e)) else t, log + [e])
  {
    assert e in log + [e];
    var next := if Listed(e) then Insert(t, IdOf(e), RowOf(e)) else t;
    forall id
      ensures Right(next, log + [e], id)
    {
      assert Right(t, log, id);
      FirstOfNext(log, e, id);
    }
  }

  /** A batch that starts no later than the covered part ends, covered ground included. */
  lemma {:induction false} HoldsBatch(t: Table, log: seq<Event>, covered: nat, lo: nat, hi: nat)
    requires Settled(log) && lo <= covered <= |log| && lo <= hi <= |log|
    requires Holds(t, log[..covered])
    ensures Holds(InsertAll(t, log[lo..hi]), log[..if hi > covered then hi else covered])
    decreases hi
  {
    if lo < hi {
      var k := hi - 1;
      HoldsBatch(t, log, covered, lo, k);
      InsertNext(t, log, lo, k);
      HoldsRecord(InsertAll(t, log[lo..k]), log, if k > covered then k else covered, k);
    }
  }

  lemma InsertNext(t: Table, log: seq<Event>, lo: nat, k: nat)
    requires lo <= k < |log|
    ensures var before := InsertAll(t, log[lo..k]);
            InsertAll(t, log[lo..k + 1]) == if Listed(log[k]) then Insert(before, IdOf(log[k]), RowOf(log[k])) else before
  {
    assert log[lo..k + 1][..k - lo] == log[lo..k] && log[lo..k + 1][k - lo] == log[k];
  }

  lemma HoldsRecord(t: Table, log: seq<Event>, covered: nat, k: nat)
    requires Settled(log) && k <= covered <= |log| && k < |log| && Holds(t, log[..covered])
    ensures Holds(if Listed(log[k]) then Insert(t, IdOf(log[k]), RowOf(log[k])) else t,
                  log[..if k == covered then k + 1 else covered])
  {
    if k < covered {
      SettledPrefix(log, covered);
      assert log[k] in log[..covered];
      if Listed(log[k]) {
        HoldsAgain(t, log[..covered], log[k]);
      }
    } else {
      SettledPrefix(log, k + 1);
      assert log[..k + 1] == log[..k] + [log[k]];
      HoldsNext(t, log[..k], log[k]);
    }
  }

  /** Batches as ranges of the log: each may overlap what is covered, none leaves a gap. */
  predicate Chain(batches: seq<(nat, nat)>, covered: nat, end: nat) {
    if batches == [] then covered == end
    else
      var (lo, hi) := batches[0];
      lo <= covered && lo <= hi <= end && Chain(batches[1..], if hi > covered then hi else covered, end)
  }

  function Applied(t: Table, log: seq<Event>, batches: seq<(nat, nat)>): Table
    requires forall b | b in batches :: b.0 <= b.1 <= |log|
    decreases |batches|
  {
    if batches == [] then t
    else
      var b := batches[0];
      assert b in batches;
      Applied(InsertAll(t, log[b.0..b.1]), log, batches[1..])
  }

  lemma {:induction false} HoldsChain(t: Table, log: seq<Event>, covered: nat, batches: seq<(nat, nat)>)
    requires Settled(log) && Chain(batches, covered, |log|)
    requires covered <= |log| && forall b | b in batches :: b.0 <= b.1 <= |log|
    requires Holds(t, log[..covered])
    ensures Holds(Applied(t, log, batches), log)
    decreases |batches|
  {
    if batches == [] {
      assert log[..covered] == log;
    } else {
      var b := batches[0];
      assert b in batches;
      HoldsBatch(t, log, covered, b.0, b.1);
      HoldsChain(InsertAll(t, log[b.0..b.1]), log, if b.1 > covered then b.1 else covered, batches[1..]);
    }
  }

  /** The index a history leaves: backfilled from the first `n` events, then batch by batch. */
  function Indexed(log: seq<Event>, n: nat, batches: seq<(nat, nat)>): Table
    requires n <= |log| && forall b | b in batches :: b.0 <= b.1 <= |log|
  {
    Applied(Backfilled(map[], Build(log[..n])), log, batches)
  }

  predicate Splits(log: seq<Event>, n: nat, batches: seq<(nat, nat)>) {
    n <= |log| && Chain(batches, n, |log|) && forall b | b in batches :: b.0 <= b.1 <= |log|
  }

  lemma IndexAgrees(log: seq<Event>, n: nat, batches: seq<(nat, nat)>)
    requires Settled(log) && Splits(log, n, batches)
    ensures Load(Indexed(log, n, batches)) == Build(log)
  {
    SettledPrefix(log, n);
    HoldsBackfill(log[..n]);
    HoldsChain(Backfilled(map[], Build(log[..n])), log, n, batches);
    LoadIsBuild(Indexed(log, n, batches), log);
  }

  lemma {:induction false} BuildHas(log: seq<Event>, e: Event)
    requires e in log && Listed(e)
    ensures e.date != "" ==> IdOf(e) in Build(log).dates
    ensures FormOf(e) != "" ==> IdOf(e) in Build(log).forms
    decreases |log|
  {
    var init, last := log[..|log| - 1], log[|log| - 1];
    if e != last {
      BuildHas(init, e);
    }
  }

  lemma {:induction false} AllFirsts(log: seq<Event>, id: string)
    ensures id in InsertAll(map[], log) <==> FirstOf(log, id).Some?
    ensures FirstOf(log, id).Some? ==> InsertAll(map[], log)[id] == RowOf(FirstOf(log, id).value)
    decreases |log|
  {
    if log != [] {
      AllFirsts(log[..|log| - 1], id);
    }
  }

  lemma OneBatch(log: seq<Event>)
    ensures Splits(log, 0, [(0, |log|)]) && Indexed(log, 0, [(0, |log|)]) == InsertAll(map[], log)
  {
    var b := [(0, |log|)];
    assert b[1..] == [] && log[..0] == [] && log[0..|log|] == log;
    var none: Table := map[];
    assert Backfilled(none, Build(log[..0])) == none;
    assert Applied(none, log, b) == Applied(InsertAll(none, log), log, []);
  }

  /** One batch of everything shows a record that fills in a blank. */
  lemma UnsettledFails(log: seq<Event>, e: Event)
    requires e in log && Listed(e)
    requires FirstOf(log, IdOf(e)).Some? ==>
               var first := FirstOf(log, IdOf(e)).value;
               !((first.date == "" ==> e.date == "") && (FormOf(first) == "" ==> FormOf(e) == ""))
    ensures exists n, batches :: Splits(log, n, batches) && Load(Indexed(log, n, batches)) != Build(log)
  {
    FirstOfIs(log, IdOf(e));
    BuildHas(log, e);
    AllFirsts(log, IdOf(e));
    OneBatch(log);
  }

  /** However a history is split into a backfilled prefix and batches, the index loads as one scan
      would give it, if and only if no record fills in what the first of its filing left blank. */
  lemma IndexAgreesIff(log: seq<Event>)
    ensures (forall n, batches | Splits(log, n, batches) :: Load(Indexed(log, n, batches)) == Build(log))
       <==> Settled(log)
  {
    if Settled(log) {
      forall n, batches | Splits(log, n, batches)
        ensures Load(Indexed(log, n, batches)) == Build(log)
      {
        IndexAgrees(log, n, batches);
      }
    } else {
      var e :| e in log && Listed(e)
               && !(FirstOf(log, IdOf(e)).Some? &&
                    var first := FirstOf(log, IdOf(e)).value;
                    (first.date == "" ==> e.date == "") && (FormOf(first) == "" ==> FormOf(e) == ""));
      UnsettledFails(log, e);
    }
  }

  /** In particular when every filing record carries a date and a form. */
  lemma CompleteIsSettled(log: seq<Event>)
    requires forall e | e in log && Listed(e) :: e.date != "" && FormOf(e) != ""
    ensures Settled(log)
  {
    forall e | e in log && Listed(e)
      ensures FirstOf(log, IdOf(e)).Some? && FirstOf(log, IdOf(e)).value in log
    {
      FirstOfIs(log, IdOf(e));
    }
  }

  // ---- what the scan says, record by record ----

  /** A filing of this company and accession number, with both on record. */
  predicate Same(e: Event, cik: string, accession: string) {
    && e.Filing? && e.cik != "" && e.accession != ""
    && NormalizeCik(e.cik) == NormalizeCik(cik) && TrimSpace(e.accession) == TrimSpace(accession)
  }

  lemma SameIs(e: Event, cik: string, accession: string)
    ensures Same(e, cik, accession) <==> Is(e, FilingIdentity(cik, accession))
  {
    if e.Filing? {
      IdentityIff(e.cik, e.accession, cik, accession);
    }
  }

  /** The dates, and the forms of either kind, on a filing's records, blank for all others. */
  function DatesOf(log: seq<Event>, cik: string, accession: string): seq<string> {
    seq(|log|, i requires 0 <= i < |log| => if Same(log[i], cik, accession) then log[i].date else "")
  }

  function FormsOf(log: seq<Event>, cik: string, accession: string): seq<string> {
    seq(|log|, i requires 0 <= i < |log| =>
      if !Same(log[i], cik, accession) then "" else if log[i].form != "" then log[i].form else log[i].formType)
  }

  lemma SayOne(log: seq<Event>, e: Event, cik: string, accession: string)
    ensures DatesOf(log + [e], cik, accession)
         == DatesOf(log, cik, accession) + [if Same(e, cik, accession) then e.date else ""]
    ensures FormsOf(log + [e], cik, accession)
         == FormsOf(log, cik, accession) + [if Same(e, cik, accession) then FormOf(e) else ""]
  {
  }

  lemma NotedIs(ix: Indexes, e: Event, cik: string, accession: string)
    ensures var id, next := FilingIdentity(cik, accession), Noted(ix, e);
            var date, form := if Same(e, cik, accession) then e.date else "", if Same(e, cik, accession) then FormOf(e) else "";
            && (id in next.dates <==> id in ix.dates || date != "") && (id in next.forms <==> id in ix.forms || form != "")
            && (id in next.dates ==> next.dates[id] == if id in ix.dates then ix.dates[id] else date)
            && (id in next.forms ==> next.forms[id] == if id in ix.forms then ix.forms[id] else form)
  {
    SameIs(e, cik, accession);
  }

  /** The scan finds for a filing the date of its first record with one, and the form, or in its place
      the newer form type, of its first record with either; and nothing for one that has none. */
  lemma {:induction false} BuildSays(log: seq<Event>, cik: string, accession: string)
    ensures var id, ix := FilingIdentity(cik, accession), Build(log);
            && FirstText(DatesOf(log, cik, accession), OrBlank(ix.dates, id))
            && FirstText(FormsOf(log, cik, accession), OrBlank(ix.forms, id))
            && (id in ix.dates ==> ix.dates[id] != "") && (id in ix.forms ==> ix.forms[id] != "")
    decreases |log|
  {
    if log != [] {
      var init, last := log[..|log| - 1], log[|log| - 1];
      var id := FilingIdentity(cik, accession);
      BuildSays(init, cik, accession);
      assert log == init + [last];
      SayOne(init, last, cik, accession);
      NotedIs(Build(init), last, cik, accession);
      FirstTextNext(DatesOf(init, cik, accession), OrBlank(Build(init).dates, id),
                    if Same(last, cik, accession) then last.date else "");
      FirstTextNext(FormsOf(init, cik, accession), OrBlank(Build(init).forms, id),
                    if Same(last, cik, accession) then FormOf(last) else "");
    }
  }

  // ---- the loops ----

  lemma BuildNext(log: seq<Event>, i: nat)
    requires i < |log|
    ensures Build(log[..i + 1]) == Noted(Build(log[..i]), log[i])
  {
    assert log[..i + 1][..i] == log[..i];
  }

  method BuildFilingIndexes(log: seq<Event>) returns (ix: Indexes)
    ensures ix == Build(log)
  {
    var dates: map<string, string>, forms: map<string, string> := map[], map[];
    for i := 0 to |log|
      invariant Indexes(dates, forms) == Build(log[..i])
    {
      BuildNext(log, i);
      if !log[i].Filing? || log[i].cik == "" || log[i].accession == "" {
        continue;
      }
      var id, form := IdOf(log[i]), FormOf(log[i]);
      if log[i].date != "" && id !in dates {
        dates := dates[id := log[i].date];
      }
      if form != "" && id !in forms {
        forms := forms[id := form];
      }
    }
    assert log[..|log|] == log;
    ix := Indexes(dates, forms);
  }

  /** The inserts of a backfill, filing by filing in any order. */
  method InsertRows(t: Table, ix: Indexes) returns (tx: Table)
    ensures tx == Backfilled(t, ix)
  {
    var left := ix.dates.Keys + ix.forms.Keys;
    tx := t;
    PartlyNone(t, ix);
    while left != {}
      invariant left <= ix.dates.Keys + ix.forms.Keys && tx == Partly(t, ix, left)
      decreases |left|
    {
      var id :| id in left;
      PartlyNext(t, ix, left, id);
      left := left - {id};
      tx := Insert(tx, id, Row(OrBlank(ix.dates, id), OrBlank(ix.forms, id)));
    }
    PartlyAll(t, ix);
  }

  /** The filings database. */
  class Database {
    var filings: Table
    var backfillDone: bool

    constructor ()
      ensures filings == map[] && !backfillDone
    {
      filings, backfillDone := map[], false;
    }

    /** `ensureFilingIndexBackfilled`: once a database, in one transaction that may fail and then leaves
        nothing. An error of the scan is logged only, so a backfill from the part of the history scanned
        until then is marked as done too. */
    method EnsureBackfilled(log: seq<Event>, scanned: nat) returns (ok: bool)
      requires scanned <= |log|
      modifies this
      ensures old(backfillDone) ==> ok
      ensures backfillDone == ok
      ensures filings == if !old(backfillDone) && ok then Backfilled(old(filings), Build(log[..scanned])) else old(filings)
    {
      if backfillDone {
        return true;
      }
      var ix := BuildFilingIndexes(log[..scanned]);
      var tx := InsertRows(filings, ix);
      ok := *;
      if ok {
        filings, backfillDone := tx, true;
      }
    }

    /** `upsertFilingIndexFromBatch`: one transaction. A failed one is logged and leaves nothing. */
    method UpsertBatch(recs: seq<Event>) returns (ok: bool)
      modifies this`filings
      ensures filings == if ok then InsertAll(old(filings), recs) else old(filings)
    {
      var tx := filings;
      for i := 0 to |recs|
        invariant filings == old(filings) && tx == InsertAll(filings, recs[..i])
      {
        InsertNext(filings, recs, 0, i);
        assert recs[0..i] == recs[..i];
        assert recs[0..i + 1] == recs[..i + 1];
        if Listed(recs[i]) {
          tx := Insert(tx, IdOf(recs[i]), RowOf(recs[i]));
        }
      }
      assert recs[..|recs|] == recs;
      ok := *;
      if ok {
        filings := tx;
      }
    }

    /** `loadFilingIndexes`: rows in any order. */
    method LoadIndexes() returns (ix: Indexes)
      ensures ix == Load(filings)
    {
      var left := filings.Keys;
      ix := Indexes(map[], map[]);
      while left != {}
        invariant left <= filings.Keys && ix == Load(Without(filings, left))
        decreases |left|
      {
        var id :| id in left;
        LoadNext(filings, left, id);
        left := left - {id};
        if filings[id].date != "" {
          ix := ix.(dates := ix.dates[id := filings[id].date]);
        }
        if filings[id].form != "" {
          ix := ix.(forms := ix.forms[id := filings[id].form]);
        }
      }
      assert Without(filings, {}) == filings;
    }
  }

  /** A table with some rows still to be read. */
  function Without(t: Table, left: set<string>): Table {
    map id | id in t && id !in left :: t[id]
  }

  lemma LoadNext(t: Table, left: set<string>, id: string)
    requires id in left && left <= t.Keys
    ensures var ix, next := Load(Without(t, left)), Load(Without(t, left - {id}));
            && next.dates == (if t[id].date != "" then ix.dates[id := t[id].date] else ix.dates)
            && next.forms == (if t[id].form != "" then ix.forms[id := t[id].form] else ix.forms)
  {
  }

  /** A backfill with some rows left to insert. */
  function Partly(t: Table, ix: Indexes, left: set<string>): Table {
    map id | id in Backfilled(t, ix) && (id in t || id !in left) :: Backfilled(t, ix)[id]
  }

  lemma PartlyNone(t: Table, ix: Indexes)
    ensures Partly(t, ix, ix.dates.Keys + ix.forms.Keys) == t
  {
  }

  lemma PartlyAll(t: Table, ix: Indexes)
    ensures Partly(t, ix, {}) == Backfilled(t, ix)
  {
  }

  lemma PartlyNext(t: Table, ix: Indexes, left: set<string>, id: string)
    requires id in left && left <= ix.dates.Keys + ix.forms.Keys
    ensures Insert(Partly(t, ix, left), id, Row(OrBlank(ix.dates, id), OrBlank(ix.forms, id))) == Partly(t, ix, left - {id})
  {
  }
}
