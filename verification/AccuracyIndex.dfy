/**
 The accuracy index: one row per signal with its current verdict, kept beside an
 append-only history that is written only when something changes.
 */
module AccuracyIndex {
  import opened Wrappers
  import opened Runs

  datatype Key = Key(id: string, typ: string)

  datatype Facts = Facts(ticker: string, predictedAt: string, validThrough: string, outcome: string,
                         evidenceDate: string, evidenceType: string, notes: string)

  datatype Verdict = Verdict(signalId: string, signalType: string, facts: Facts, recordedAt: string)

  type Rows = map<Key, Verdict>

  function KeyOf(r: Verdict): Key {
    Key(r.signalId, r.signalType)
  }

  /** Equal in all but when they were recorded. */
  predicate Same(a: Verdict, b: Verdict) {
    a.(recordedAt := "") == b.(recordedAt := "")
  }

  function Put(rows: Rows, r: Verdict): Rows {
    if r.signalId == "" then rows else rows[KeyOf(r) := r]
  }

  /** `upsertAccuracyRecords`: the last record of a key wins; a blank ID is skipped. */
  function Upsert(rows: Rows, rs: seq<Verdict>): Rows
    decreases |rs|
  {
    if rs == [] then rows else Upsert(Put(rows, rs[0]), rs[1..])
  }

  /** What a fresh index holds once the history has been read into it. */
  function Replay(log: seq<Verdict>): Rows {
    Upsert(map[], log)
  }

  predicate Known(rows: Rows, r: Verdict) {
    KeyOf(r) in rows && Same(rows[KeyOf(r)], r)
  }

  function ChangedFrom(rows: Rows, rs: seq<Verdict>, seen: set<Key>): seq<Verdict> {
    if rs == [] then []
    else if Known(rows, rs[0]) || KeyOf(rs[0]) in seen then ChangedFrom(rows, rs[1..], seen)
    else [rs[0]] + ChangedFrom(rows, rs[1..], seen + {KeyOf(rs[0])})
  }

  /** `changedAccuracyRecords`. */
  function Changed(rows: Rows, rs: seq<Verdict>): seq<Verdict> {
    ChangedFrom(rows, rs, {})
  }

  /** Records of one signal in a batch say the same thing. A batch with no key twice is consistent. */
  predicate Consistent(rs: seq<Verdict>) {
    forall a, b | a in rs && b in rs && a.signalId != "" && KeyOf(a) == KeyOf(b) :: Same(a, b)
  }

  function View(rows: Rows): map<Key, Facts> {
    map k | k in rows :: rows[k].facts
  }

  /** Rows are filed under their own keys. */
  predicate Filed(rows: Rows) {
    forall k | k in rows :: KeyOf(rows[k]) == k && k.id != ""
  }

  // ---- rows after an upsert ----

  function LastOf(rs: seq<Verdict>, k: Key): Option<Verdict>
    decreases |rs|
  {
    if rs == [] then None
    else if KeyOf(rs[|rs| - 1]) == k then Some(rs[|rs| - 1])
    else LastOf(rs[..|rs| - 1], k)
  }

  /** The first record of a key that is not what the index has. */
  function FirstNew(rows: Rows, rs: seq<Verdict>, k: Key): Option<Verdict> {
    if rs == [] then None
    else if KeyOf(rs[0]) == k && !Known(rows, rs[0]) then Some(rs[0])
    else FirstNew(rows, rs[1..], k)
  }

  lemma {:induction false} UpsertConcat(rows: Rows, xs: seq<Verdict>, ys: seq<Verdict>)
    ensures Upsert(rows, xs + ys) == Upsert(Upsert(rows, xs), ys)
    decreases |xs|
  {
    if xs == [] {
      assert xs + ys == ys;
    } else {
      assert (xs + ys)[0] == xs[0] && (xs + ys)[1..] == xs[1..] + ys;
      UpsertConcat(Put(rows, xs[0]), xs[1..], ys);
    }
  }

  lemma UpsertOne(rows: Rows, r: Verdict)
    ensures Upsert(rows, [r]) == Put(rows, r)
  {
    assert [r][1..] == [];
  }

  /** The row of a key after an upsert. */
  lemma {:induction false} UpsertAt(rows: Rows, rs: seq<Verdict>, k: Key)
    requires k.id != ""
    ensures k in Upsert(rows, rs) <==> k in rows || LastOf(rs, k).Some?
    ensures LastOf(rs, k).Some? ==> Upsert(rows, rs)[k] == LastOf(rs, k).value
    ensures LastOf(rs, k).None? && k in rows ==> Upsert(rows, rs)[k] == rows[k]
    decreases |rs|
  {
    if rs != [] {
      var init, r := rs[..|rs| - 1], rs[|rs| - 1];
      assert rs == init + [r];
      UpsertConcat(rows, init, [r]);
      UpsertOne(Upsert(rows, init), r);
      UpsertAt(rows, init, k);
    }
  }

  lemma {:induction false} UpsertFiled(rows: Rows, rs: seq<Verdict>)
    requires Filed(rows)
    ensures Filed(Upsert(rows, rs))
    decreases |rs|
  {
    if rs != [] {
      UpsertFiled(Put(rows, rs[0]), rs[1..]);
    }
  }

  lemma {:induction false} LastOfConcat(xs: seq<Verdict>, ys: seq<Verdict>, k: Key)
    ensures LastOf(xs + ys, k) == if LastOf(ys, k).Some? then LastOf(ys, k) else LastOf(xs, k)
    decreases |ys|
  {
    if ys == [] {
      assert xs + ys == xs;
    } else {
      assert (xs + ys)[..|xs + ys| - 1] == xs + ys[..|ys| - 1];
      LastOfConcat(xs, ys[..|ys| - 1], k);
    }
  }

  lemma LastOfOne(r: Verdict, k: Key)
    ensures LastOf([r], k) == if KeyOf(r) == k then Some(r) else None
  {
    assert [r][..0] == [];
  }

  /** The filter lets through, for each key, the first record that is new to the index. */
  lemma {:induction false} ChangedAt(rows: Rows, rs: seq<Verdict>, seen: set<Key>, k: Key)
    ensures LastOf(ChangedFrom(rows, rs, seen), k) == if k in seen then None else FirstNew(rows, rs, k)
  {
    if rs != [] {
      var r, rest := rs[0], rs[1..];
      if Known(rows, r) || KeyOf(r) in seen {
        ChangedAt(rows, rest, seen, k);
      } else {
        ChangedAt(rows, rest, seen + {KeyOf(r)}, k);
        LastOfConcat([r], ChangedFrom(rows, rest, seen + {KeyOf(r)}), k);
        LastOfOne(r, k);
      }
    }
  }

  lemma {:induction false} LastOfIs(rs: seq<Verdict>, k: Key)
    ensures LastOf(rs, k).Some? ==> LastOf(rs, k).value in rs && KeyOf(LastOf(rs, k).value) == k
    ensures LastOf(rs, k).None? ==> forall r | r in rs :: KeyOf(r) != k
    decreases |rs|
  {
    if rs != [] {
      LastOfIs(rs[..|rs| - 1], k);
      assert forall r | r in rs :: r in rs[..|rs| - 1] || r == rs[|rs| - 1];
    }
  }

  lemma {:induction false} FirstNewIs(rows: Rows, rs: seq<Verdict>, k: Key)
    ensures FirstNew(rows, rs, k).Some? ==>
              var r := FirstNew(rows, rs, k).value; r in rs && KeyOf(r) == k && !Known(rows, r)
    ensures FirstNew(rows, rs, k).None? ==> forall r | r in rs && KeyOf(r) == k :: Known(rows, r)
  {
    if rs != [] {
      FirstNewIs(rows, rs[1..], k);
    }
  }

  // ---- filtering loses nothing but the time of recording ----

  lemma AgreeAt(rows: Rows, rs: seq<Verdict>, k: Key)
    requires Consistent(rs) && k.id != ""
    ensures var a, b := Upsert(rows, Changed(rows, rs)), Upsert(rows, rs);
            (k in a <==> k in b) && (k in a ==> a[k].facts == b[k].facts)
  {
    UpsertAt(rows, rs, k);
    UpsertAt(rows, Changed(rows, rs), k);
    ChangedAt(rows, rs, {}, k);
    LastOfIs(rs, k);
    FirstNewIs(rows, rs, k);
  }

  lemma FilterAgrees(rows: Rows, rs: seq<Verdict>)
    requires Consistent(rs) && Filed(rows)
    ensures View(Upsert(rows, Changed(rows, rs))) == View(Upsert(rows, rs))
  {
    UpsertFiled(rows, rs);
    UpsertFiled(rows, Changed(rows, rs));
    forall k: Key | k.id != ""
      ensures var a, b := Upsert(rows, Changed(rows, rs)), Upsert(rows, rs);
              (k in a <==> k in b) && (k in a ==> a[k].facts == b[k].facts)
    {
      AgreeAt(rows, rs, k);
    }
  }

  lemma DisagreesAt(rs: seq<Verdict>, x: Verdict, y: Verdict) returns (rows: Rows)
    requires x in rs && y in rs && x.signalId != "" && KeyOf(x) == KeyOf(y) && !Same(x, y)
    ensures Filed(rows) && View(Upsert(rows, Changed(rows, rs))) != View(Upsert(rows, rs))
  {
    var k := KeyOf(x);
    LastOfIs(rs, k);
    var last := LastOf(rs, k).value;
    rows := map[k := last];
    UpsertAt(rows, rs, k);
    UpsertAt(rows, Changed(rows, rs), k);
    ChangedAt(rows, rs, {}, k);
    FirstNewIs(rows, rs, k);
    assert View(Upsert(rows, rs))[k] == last.facts;
    assert k in View(Upsert(rows, Changed(rows, rs)));
  }

  /** A batch may be filtered, whatever the index holds, if and only if its records of one signal
      agree. (Otherwise the first of them that is news stays in the index, not the last.) */
  lemma FilterAgreesIff(rs: seq<Verdict>)
    ensures (forall rows | Filed(rows) :: View(Upsert(rows, Changed(rows, rs))) == View(Upsert(rows, rs)))
       <==> Consistent(rs)
  {
    if Consistent(rs) {
      forall rows | Filed(rows)
        ensures View(Upsert(rows, Changed(rows, rs))) == View(Upsert(rows, rs))
      {
        FilterAgrees(rows, rs);
      }
    } else {
      var x, y :| x in rs && y in rs && x.signalId != "" && KeyOf(x) == KeyOf(y) && !Same(x, y);
      var rows := DisagreesAt(rs, x, y);
    }
  }

  lemma {:induction false} NothingChanged(rows: Rows, rs: seq<Verdict>, seen: set<Key>)
    ensures (forall r | r in rs :: Known(rows, r) || KeyOf(r) in seen) <==> ChangedFrom(rows, rs, seen) == []
  {
    if rs != [] {
      NothingChanged(rows, rs[1..], seen);
    }
  }

  /** Repeating a batch appends nothing if and only if no record has a blank ID and the records of
      one signal agree. */
  lemma RepeatAppendsNothingIff(rows: Rows, rs: seq<Verdict>)
    requires Filed(rows)
    ensures Changed(Upsert(rows, Changed(rows, rs)), rs) == []
       <==> Consistent(rs) && forall r | r in rs :: r.signalId != ""
  {
    var after := Upsert(rows, Changed(rows, rs));
    NothingChanged(after, rs, {});
    UpsertFiled(rows, Changed(rows, rs));
    if Consistent(rs) && forall r | r in rs :: r.signalId != "" {
      forall r | r in rs
        ensures Known(after, r)
      {
        KnownAfter(rows, rs, r);
      }
    }
  }

  lemma KnownAfter(rows: Rows, rs: seq<Verdict>, r: Verdict)
    requires Filed(rows) && Consistent(rs) && r in rs && r.signalId != ""
    ensures Known(Upsert(rows, Changed(rows, rs)), r)
  {
    var k := KeyOf(r);
    UpsertAt(rows, Changed(rows, rs), k);
    ChangedAt(rows, rs, {}, k);
    FirstNewIs(rows, rs, k);
  }

  // ---- the index over time ----

  /** `plain` is what the index would hold had every batch been upserted whole. */
  datatype State = State(log: seq<Verdict>, rows: Rows, plain: Rows)

  /** A batch whose index read, history write or upsert may fail; a start that finds the database
      gone, or finds it without its backfill mark. */
  datatype Label =
    | Batch(records: seq<Verdict>, readFails: bool, wrote: bool, upserted: bool)
    | Start(lost: bool)

  function Filtered(w: State, l: Label): seq<Verdict>
    requires l.Batch?
  {
    if l.readFails then l.records else Changed(w.rows, l.records)
  }

  function Next(w: State, l: Label): Option<State> {
    match l
    case Batch(records, _, wrote, upserted) =>
      var changed := Filtered(w, l);
      Some(State(if wrote then w.log + changed else w.log,
                 if upserted then Upsert(w.rows, changed) else w.rows,
                 Upsert(w.plain, records)))
    case Start(lost) => Some(w.(rows := Upsert(if lost then map[] else w.rows, w.log)))
  }

  const EMPTY := State([], map[], map[])

  predicate Exact(w: State) {
    w.rows == Replay(w.log)
  }

  /** Writing and upserting succeed, and the batch is consistent. */
  predicate Sound(w: State, l: Label) {
    l.Batch? ==> l.wrote && l.upserted && Consistent(l.records)
  }

  ghost predicate Inv(w: State) {
    Exact(w) && Filed(w.rows) && Filed(w.plain) && View(w.rows) == View(w.plain)
  }

  lemma {:induction false} UpsertSelf(rows: Rows, rs: seq<Verdict>)
    requires Filed(rows)
    requires forall k: Key | k.id != "" && LastOf(rs, k).Some? :: k in rows && rows[k] == LastOf(rs, k).value
    ensures Upsert(rows, rs) == rows
  {
    UpsertFiled(rows, rs);
    var after := Upsert(rows, rs);
    forall k: Key | k.id != ""
      ensures (k in after <==> k in rows) && (k in after ==> after[k] == rows[k])
    {
      UpsertAt(rows, rs, k);
    }
    assert after.Keys == rows.Keys;
  }

  /** Reading the history into an index that already holds it changes nothing. */
  lemma BackfillTwice(log: seq<Verdict>)
    ensures Upsert(Replay(log), log) == Replay(log)
  {
    UpsertFiled(map[], log);
    forall k: Key | k.id != "" && LastOf(log, k).Some?
      ensures k in Replay(log) && Replay(log)[k] == LastOf(log, k).value
    {
      UpsertAt(map[], log, k);
    }
    UpsertSelf(Replay(log), log);
  }

  lemma ViewAt(a: Rows, b: Rows, rs: seq<Verdict>, k: Key)
    requires View(a) == View(b) && k.id != ""
    ensures var x, y := Upsert(a, rs), Upsert(b, rs); (k in x <==> k in y) && (k in x ==> x[k].facts == y[k].facts)
  {
    UpsertAt(a, rs, k);
    UpsertAt(b, rs, k);
    assert k in a <==> k in View(a);
    assert k in b <==> k in View(b);
  }

  lemma UpsertViews(a: Rows, b: Rows, rs: seq<Verdict>)
    requires View(a) == View(b) && Filed(a) && Filed(b)
    ensures View(Upsert(a, rs)) == View(Upsert(b, rs))
  {
    UpsertFiled(a, rs);
    UpsertFiled(b, rs);
    forall k: Key | k.id != ""
      ensures var x, y := Upsert(a, rs), Upsert(b, rs); (k in x <==> k in y) && (k in x ==> x[k].facts == y[k].facts)
    {
      ViewAt(a, b, rs, k);
    }
  }

  lemma StepKeeps(w: State, l: Label)
    requires Inv(w) && Sound(w, l)
    ensures Inv(Next(w, l).value)
  {
    if l.Batch? {
      UpsertConcat(map[], w.log, Filtered(w, l));
      UpsertFiled(w.rows, Filtered(w, l));
      UpsertFiled(w.plain, l.records);
      UpsertViews(w.rows, w.plain, l.records);
      FilterAgrees(w.rows, l.records);
    } else if !l.lost {
      BackfillTwice(w.log);
    }
  }

  /** After any sequence of batches, starts and lost databases the index is the last-wins replay
      of the filtered history, and but for the times of recording it is what upserting every
      unfiltered batch would have given. */
  lemma IndexIsReplay(ls: seq<Label>)
    requires Allowed(Next, Sound, EMPTY, ls)
    requires Run(Next, EMPTY, ls).Some?
    ensures var w := Run(Next, EMPTY, ls).value;
            w.rows == Replay(w.log) && View(w.rows) == View(w.plain)
  {
    forall w, l | Inv(w) && Sound(w, l) && Next(w, l).Some?
      ensures Inv(Next(w, l).value)
    {
      StepKeeps(w, l);
    }
    Keeps(Next, Inv, Sound, EMPTY, ls);
  }

  // ---- when a failure breaks the agreement ----

  lemma {:induction false} ChangedDistinct(rows: Rows, rs: seq<Verdict>, seen: set<Key>)
    ensures forall r | r in ChangedFrom(rows, rs, seen) :: !Known(rows, r) && KeyOf(r) !in seen
    ensures Distinct(ChangedFrom(rows, rs, seen))
  {
    if rs != [] {
      var r := rs[0];
      if Known(rows, r) || KeyOf(r) in seen {
        ChangedDistinct(rows, rs[1..], seen);
      } else {
        var rest := ChangedFrom(rows, rs[1..], seen + {KeyOf(r)});
        ChangedDistinct(rows, rs[1..], seen + {KeyOf(r)});
        forall i, j | 0 <= i < j < |rest| + 1
          ensures KeyOf(([r] + rest)[i]) != KeyOf(([r] + rest)[j])
        {
          assert ([r] + rest)[j] == rest[j - 1] && rest[j - 1] in rest;
        }
      }
    }
  }

  predicate Distinct(rs: seq<Verdict>) {
    forall i, j | 0 <= i < j < |rs| :: KeyOf(rs[i]) != KeyOf(rs[j])
  }

  predicate Named(rs: seq<Verdict>) {
    exists r | r in rs :: r.signalId != ""
  }

  lemma {:induction false} UpsertUnnamed(rows: Rows, rs: seq<Verdict>)
    requires !Named(rs)
    ensures Upsert(rows, rs) == rows
    decreases |rs|
  {
    if rs != [] {
      UpsertUnnamed(rows, rs[1..]);
    }
  }

  /** Records that are news change the index, if any of them has an ID. */
  lemma UpsertChangesIff(rows: Rows, rs: seq<Verdict>)
    requires Filed(rows)
    ensures Upsert(rows, Changed(rows, rs)) == rows <==> !Named(Changed(rows, rs))
  {
    var c := Changed(rows, rs);
    if Named(c) {
      var r :| r in c && r.signalId != "";
      LastOfIs(c, KeyOf(r));
      ChangedDistinct(rows, rs, {});
      UpsertAt(rows, c, KeyOf(r));
    } else {
      UpsertUnnamed(rows, c);
    }
  }

  /** A batch keeps the index the replay of the history if and only if the write and the upsert went
      the same way, or there was nothing in it for the index: none of the news had an ID, or, when the
      index could not be read and nothing was filtered, it held all of the batch already. */
  lemma StepExactIff(w: State, l: Label)
    requires Exact(w) && l.Batch?
    ensures Exact(Next(w, l).value) <==>
              || l.wrote == l.upserted
              || (if l.readFails then Upsert(w.rows, l.records) == w.rows else !Named(Changed(w.rows, l.records)))
  {
    UpsertFiled(map[], w.log);
    UpsertConcat(map[], w.log, Filtered(w, l));
    UpsertChangesIff(w.rows, l.records);
  }

  // ---- the history holds only real changes ----

  /** Each record with an ID differs, by more than its time, from the verdict before it. */
  ghost predicate NewsOnly(log: seq<Verdict>) {
    forall i {:trigger log[i]} | 0 <= i < |log| && log[i].signalId != "" :: !Known(Replay(log[..i]), log[i])
  }

  lemma NewsAt(log: seq<Verdict>, rs: seq<Verdict>, j: nat)
    requires var c := Changed(Replay(log), rs); j < |c| && c[j].signalId != ""
    ensures var c := Changed(Replay(log), rs); !Known(Replay((log + c)[..|log| + j]), c[j])
  {
    var c := Changed(Replay(log), rs);
    ChangedDistinct(Replay(log), rs, {});
    assert (log + c)[..|log| + j] == log + c[..j];
    UpsertConcat(map[], log, c[..j]);
    UpsertAt(Replay(log), c[..j], KeyOf(c[j]));
    LastOfIs(c[..j], KeyOf(c[j]));
    forall r | r in c[..j]
      ensures KeyOf(r) != KeyOf(c[j])
    {
      var i :| 0 <= i < j && c[i] == r;
    }
    assert c[j] in c;
  }

  lemma BatchAddsNews(log: seq<Verdict>, rs: seq<Verdict>)
    requires NewsOnly(log)
    ensures NewsOnly(log + Changed(Replay(log), rs))
  {
    var c := Changed(Replay(log), rs);
    var more := log + c;
    forall i {:trigger more[i]} | 0 <= i < |more| && more[i].signalId != ""
      ensures !Known(Replay(more[..i]), more[i])
    {
      if i < |log| {
        assert more[..i] == log[..i] && more[i] == log[i];
      } else {
        NewsAt(log, rs, i - |log|);
      }
    }
  }

  /** In runs whose writes and upserts go the same way, and in which nothing is written unfiltered,
      the history never holds the same verdict twice running. */
  lemma HistoryIsNews(ls: seq<Label>)
    requires Allowed(Next, Reading, EMPTY, ls)
    requires Run(Next, EMPTY, ls).Some?
    ensures NewsOnly(Run(Next, EMPTY, ls).value.log)
  {
    var inv := (w: State) => Exact(w) && NewsOnly(w.log);
    forall w, l | inv(w) && Reading(w, l) && Next(w, l).Some?
      ensures inv(Next(w, l).value)
    {
      if l.Batch? {
        StepExactIff(w, l);
        BatchAddsNews(w.log, l.records);
      } else {
        BackfillTwice(w.log);
      }
    }
    Keeps(Next, inv, Reading, EMPTY, ls);
  }

  predicate Reading(w: State, l: Label) {
    l.Batch? ==>
      && (l.wrote == l.upserted || (!l.readFails && !Named(Changed(w.rows, l.records))))
      && (l.wrote ==> !l.readFails)
  }

  // ---- the database ----

  class Index {
    var rows: Rows
    var backfillDone: bool

    constructor ()
      ensures rows == map[] && !backfillDone
    {
      rows, backfillDone := map[], false;
    }

    /** `upsertAccuracyRecords`: a transaction, committed whole or not at all. */
    method UpsertRecords(records: seq<Verdict>) returns (ok: bool)
      modifies this`rows
      ensures rows == if ok then Upsert(old(rows), records) else old(rows)
    {
      var tx := rows;
      assert records[0..] == records;
      for i := 0 to |records|
        invariant Upsert(rows, records) == Upsert(tx, records[i..])
      {
        assert records[i..][0] == records[i] && records[i..][1..] == records[i + 1..];
        if records[i].signalId != "" {
          tx := tx[KeyOf(records[i]) := records[i]];
        }
      }
      ok := *;
      if ok {
        rows := tx;
      }
    }

    /** `ensureAccuracyIndexBackfilled`: once per database. The mark may fail to be set. */
    method EnsureBackfilled(log: seq<Verdict>) returns (ok: bool)
      modifies this
      ensures old(backfillDone) ==> ok && rows == old(rows) && backfillDone
      ensures !old(backfillDone) && ok ==> rows == Upsert(old(rows), log) && backfillDone
      ensures !ok ==> (rows == old(rows) || rows == Upsert(old(rows), log)) && !backfillDone
    {
      if backfillDone {
        return true;
      }
      ok := UpsertRecords(log);
      if ok {
        ok := *;
        backfillDone := ok;
      }
    }

    /** `changedAccuracyRecords`; on a read error every record counts as changed. */
    method ChangedRecords(records: seq<Verdict>) returns (out: seq<Verdict>, readFails: bool)
      ensures out == if readFails then records else Changed(rows, records)
    {
      readFails := *;
      if readFails {
        return records, readFails;
      }
      out := [];
      var seen: set<Key> := {};
      assert records[0..] == records && forall s: seq<Verdict> :: [] + s == s;
      for i := 0 to |records|
        invariant Changed(rows, records) == out + ChangedFrom(rows, records[i..], seen)
      {
        var r := records[i];
        ChangedStep(rows, records, i, seen, out);
        if KeyOf(r) in rows && Same(rows[KeyOf(r)], r) {
          continue;
        }
        if KeyOf(r) in seen {
          continue;
        }
        seen := seen + {KeyOf(r)};
        out := out + [r];
      }
      assert out + [] == out;
    }

    /** The write-then-upsert step of a batch. */
    method WriteBatch(log: seq<Verdict>, records: seq<Verdict>) returns (more: seq<Verdict>, ghost l: Label)
      modifies this`rows
      ensures l.Batch? && l.records == records
      ensures forall plain :: Next(State(log, old(rows), plain), l) == Some(State(more, rows, Upsert(plain, records)))
    {
      var changed, readFails := ChangedRecords(records);
      var wrote: bool := *;
      more := if wrote then log + changed else log;
      var upserted := UpsertRecords(changed);
      l := Batch(records, readFails, wrote, upserted);
    }
  }

  lemma ChangedStep(rows: Rows, rs: seq<Verdict>, i: nat, seen: set<Key>, out: seq<Verdict>)
    requires i < |rs|
    ensures out + ChangedFrom(rows, rs[i..], seen)
         == if Known(rows, rs[i]) || KeyOf(rs[i]) in seen then out + ChangedFrom(rows, rs[i + 1..], seen)
            else out + [rs[i]] + ChangedFrom(rows, rs[i + 1..], seen + {KeyOf(rs[i])})
  {
    assert rs[i..][0] == rs[i] && rs[i..][1..] == rs[i + 1..];
    var rest := ChangedFrom(rows, rs[i + 1..], seen + {KeyOf(rs[i])});
    assert out + ([rs[i]] + rest) == out + [rs[i]] + rest;
  }
}
