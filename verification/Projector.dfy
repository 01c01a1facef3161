/** The SQL projector: it pages through the event store and keeps one row per signal. */
module Projector {
  import opened Wrappers
  import opened EventLog
  import opened Runs

  // ---- signals and their rows ----

  /** A signal as decoded, with the parts of its event the projection reads. Dates are as formatted. */
  datatype Signal = Signal(
    ticker: string, signalType: string, importance: int, summary: string, timestamp: Option<string>,
    metadata: map<string, string>, raw: string, appendedAt: string, accession: string)

  datatype Event = SignalEvent(signal: Signal) | Undecodable | OtherEvent

  datatype SignalRow = SignalRow(
    ticker: string, eventType: string, filingId: string, entityName: string, skuldmarkId: Option<string>,
    score: real, headline: string, rawJson: string, filingDate: string, publishedAt: string)

  datatype TimelineRow = TimelineRow(
    ticker: string, entityName: string, entityType: string, eventType: string, eventDate: string,
    description: string, sourceFiling: string, skuldmarkId: Option<string>)

  const TIMELINE_TYPES: map<string, (string, string)> := map[
    "auditor_change" := ("auditor", "changed"),
    "leadership_departure" := ("director", "resigned"),
    "cfo_departure" := ("director", "resigned"),
    "director_friction" := ("director", "flagged"),
    "director_decay" := ("director", "flagged"),
    "director_long_tenure" := ("director", "flagged"),
    "nomination_rejection" := ("director", "rejected"),
    "activist_risk" := ("activist", "flagged"),
    "insider_buy" := ("director", "insider_buy"),
    "insider_sell_cluster" := ("director", "insider_sell")]

  function SignalScore(importance: int): real {
    if importance <= 0 then 0.0 else if importance >= 10 then 1.0 else importance as real / 10.0
  }

  function Truncate(s: string, max: nat): string {
    if |s| <= max then s else s[..max]
  }

  function Meta(s: Signal, key: string): string {
    if key in s.metadata then s.metadata[key] else ""
  }

  /** The first that is not blank. */
  function FirstOf(values: seq<string>): string {
    if values == [] then "" else if values[0] != "" then values[0] else FirstOf(values[1..])
  }

  function FilingDate(s: Signal): string {
    if s.timestamp.Some? then s.timestamp.value else s.appendedAt
  }

  function Accession(s: Signal): string {
    FirstOf([Meta(s, "accession_number"), s.accession])
  }

  function EntityName(s: Signal): string {
    FirstOf([Meta(s, "entity_name"), Meta(s, "director_name"), Meta(s, "auditor_name")])
  }

  function Skuldmark(s: Signal): Option<string> {
    if Meta(s, "skuldmark_id") == "" then None else Some(Meta(s, "skuldmark_id"))
  }

  function RowOf(s: Signal): SignalRow {
    SignalRow(s.ticker, s.signalType, Accession(s), EntityName(s), Skuldmark(s), SignalScore(s.importance),
              Truncate(s.summary, 511), s.raw, FilingDate(s),
              FirstOf([Meta(s, "source_published_at"), Meta(s, "filing_date"), FilingDate(s)]))
  }

  predicate Timed(s: Signal) {
    s.signalType in TIMELINE_TYPES
  }

  function TimelineOf(s: Signal): TimelineRow
    requires Timed(s)
  {
    var kind := TIMELINE_TYPES[s.signalType];
    TimelineRow(s.ticker, EntityName(s), kind.0, kind.1, FilingDate(s), Truncate(s.summary, 4000), Accession(s), Skuldmark(s))
  }

  // ---- the tables, unique on the store's sequence ----

  datatype Tables = Tables(signals: map<nat, SignalRow>, timeline: map<nat, TimelineRow>)

  /** On a duplicate sequence only some columns are updated. */
  function PutSignal(t: Tables, seqNo: nat, row: SignalRow): Tables {
    t.(signals := t.signals[seqNo :=
      if seqNo in t.signals
      then t.signals[seqNo].(score := row.score, headline := row.headline, rawJson := row.rawJson,
                             publishedAt := row.publishedAt, skuldmarkId := row.skuldmarkId)
      else row])
  }

  function PutTimeline(t: Tables, seqNo: nat, row: TimelineRow): Tables {
    t.(timeline := t.timeline[seqNo :=
      if seqNo in t.timeline
      then t.timeline[seqNo].(description := row.description, skuldmarkId := row.skuldmarkId)
      else row])
  }

  function Projected(t: Tables, seqNo: nat, s: Signal): Tables {
    var u := PutSignal(t, seqNo, RowOf(s));
    if Timed(s) then PutTimeline(u, seqNo, TimelineOf(s)) else u
  }

  // ---- a batch ----

  /** A database failure at the `at`-th record of a batch: at its first write or at its second. */
  datatype Failure = Failure(at: nat, second: bool)

  datatype Progress = Progress(tables: Tables, cursor: nat, projected: nat)

  function Later(f: Option<Failure>): Option<Failure> {
    if f.Some? && f.value.at > 0 then Some(Failure(f.value.at - 1, f.value.second)) else None
  }

  /** The failure strikes now: a second write fails only when there is one. */
  predicate Strikes(f: Option<Failure>, s: Signal) {
    f.Some? && f.value.at == 0 && (f.value.second ==> Timed(s))
  }

  function Walk(p: Progress, recs: seq<Record<Event>>, f: Option<Failure>): Progress
    decreases |recs|
  {
    if recs == [] then p
    else
      var r := recs[0];
      if !r.event.SignalEvent? then Walk(p.(cursor := r.seqNo), recs[1..], Later(f))
      else if Strikes(f, r.event.signal) then
        if f.value.second then p.(tables := PutSignal(p.tables, r.seqNo, RowOf(r.event.signal))) else p
      else
        Walk(Progress(Projected(p.tables, r.seqNo, r.event.signal), r.seqNo, p.projected + 1), recs[1..], Later(f))
  }

  datatype State = State(log: seq<Record<Event>>, cursor: nat, saved: nat, tables: Tables)

  datatype Label =
    | Grow(event: Event)
    | Batch(size: nat, failure: Option<Failure>, saves: bool)
    | Restart

  /** `runBatch`. The cursor is saved only when something was projected. */
  function Batched(w: State, size: nat, f: Option<Failure>, saves: bool): State {
    var p := Walk(Progress(w.tables, w.cursor, 0), Page(w.log, w.cursor, size), f);
    State(w.log, p.cursor, if p.projected > 0 && saves then p.cursor else w.saved, p.tables)
  }

  function Next(w: State, l: Label): Option<State> {
    match l
    case Grow(event) => Some(w.(log := w.log + [Record(|w.log| + 1, event)]))
    case Batch(size, f, saves) => Some(Batched(w, size, f, saves))
    case Restart => Some(w.(cursor := w.saved))
  }

  const EMPTY := State([], 0, 0, Tables(map[], map[]))

  // ---- what the tables hold ----

  /** The signal stored at a sequence, if it is one that decodes. */
  function SignalAt(log: seq<Record<Event>>, seqNo: nat): Option<Signal> {
    if 1 <= seqNo <= |log| && log[seqNo - 1].event.SignalEvent? then Some(log[seqNo - 1].event.signal) else None
  }

  /** A sequence's rows are those of its signal. */
  predicate Right(t: Tables, log: seq<Record<Event>>, n: nat) {
    && (n in t.signals ==> SignalAt(log, n).Some? && t.signals[n] == RowOf(SignalAt(log, n).value))
    && (n in t.timeline ==> SignalAt(log, n).Some? && Timed(SignalAt(log, n).value)
                            && t.timeline[n] == TimelineOf(SignalAt(log, n).value))
  }

  /** Every row a sequence ought to have is there. */
  predicate Complete(t: Tables, log: seq<Record<Event>>, n: nat) {
    SignalAt(log, n).Some? ==> n in t.signals && (Timed(SignalAt(log, n).value) ==> n in t.timeline)
  }

  ghost predicate AllRight(t: Tables, log: seq<Record<Event>>) {
    forall n: nat :: Right(t, log, n)
  }

  ghost predicate CompleteTo(t: Tables, log: seq<Record<Event>>, cursor: nat) {
    forall n: nat | n <= cursor :: Complete(t, log, n)
  }

  ghost predicate Inv(w: State) {
    && Numbered(w.log) && w.saved <= w.cursor <= |w.log|
    && AllRight(w.tables, w.log) && CompleteTo(w.tables, w.log, w.cursor)
  }

  /** Projecting a record writes its rows and no others. */
  lemma ProjectedRight(t: Tables, log: seq<Record<Event>>, seqNo: nat)
    requires AllRight(t, log) && SignalAt(log, seqNo).Some?
    ensures var s := SignalAt(log, seqNo).value;
            && AllRight(Projected(t, seqNo, s), log) && Complete(Projected(t, seqNo, s), log, seqNo)
            && AllRight(PutSignal(t, seqNo, RowOf(s)), log)
    ensures var u := Projected(t, seqNo, SignalAt(log, seqNo).value);
            t.signals.Keys <= u.signals.Keys && t.timeline.Keys <= u.timeline.Keys
  {
    var s := SignalAt(log, seqNo).value;
    assert Right(t, log, seqNo);
    forall n: nat
      ensures Right(Projected(t, seqNo, s), log, n) && Right(PutSignal(t, seqNo, RowOf(s)), log, n)
    {
      assert Right(t, log, n);
    }
  }

  // ---- every batch, every run ----

  ghost predicate Grown(t: Tables, u: Tables) {
    t.signals.Keys <= u.signals.Keys && t.timeline.Keys <= u.timeline.Keys
  }

  /** Complete to one sequence further. */
  lemma CompleteNext(t: Tables, u: Tables, log: seq<Record<Event>>, cursor: nat, next: nat)
    requires CompleteTo(t, log, cursor) && Grown(t, u) && Complete(u, log, next) && next <= cursor + 1
    ensures CompleteTo(u, log, next)
  {
    forall n: nat | n <= next
      ensures Complete(u, log, n)
    {
      if n <= cursor {
        assert Complete(t, log, n);
      }
    }
  }

  ghost predicate Fine(t: Tables, log: seq<Record<Event>>, cursor: nat) {
    AllRight(t, log) && CompleteTo(t, log, cursor)
  }

  lemma SkipStep(t: Tables, log: seq<Record<Event>>, cursor: nat, n: nat)
    requires Fine(t, log, cursor) && n <= cursor + 1 && SignalAt(log, n).None?
    ensures Fine(t, log, n)
  {
    CompleteNext(t, t, log, cursor, n);
  }

  lemma ProjectStep(t: Tables, log: seq<Record<Event>>, cursor: nat, n: nat)
    requires Fine(t, log, cursor) && n <= cursor + 1 && SignalAt(log, n).Some?
    ensures var u := Projected(t, n, SignalAt(log, n).value); Fine(u, log, n) && Grown(t, u)
  {
    ProjectedRight(t, log, n);
    CompleteNext(t, Projected(t, n, SignalAt(log, n).value), log, cursor, n);
  }

  lemma HalfStep(t: Tables, log: seq<Record<Event>>, cursor: nat, n: nat)
    requires Fine(t, log, cursor) && SignalAt(log, n).Some?
    ensures var u := PutSignal(t, n, RowOf(SignalAt(log, n).value)); Fine(u, log, cursor) && Grown(t, u)
  {
    var u := PutSignal(t, n, RowOf(SignalAt(log, n).value));
    ProjectedRight(t, log, n);
    forall m: nat | m <= cursor
      ensures Complete(u, log, m)
    {
      assert Complete(t, log, m);
    }
  }

  lemma FirstOfSlice(log: seq<Record<Event>>, from: nat, recs: seq<Record<Event>>)
    requires Numbered(log) && 1 <= from && recs != []
    requires from - 1 + |recs| <= |log| && recs == log[from - 1..from - 1 + |recs|]
    ensures recs[0] == log[from - 1] && recs[0].seqNo == from && recs[1..] == log[from..from + |recs[1..]|]
  {
  }

  /** A walk over the stretch of the log at the cursor. */
  lemma {:induction false} WalkKeeps(p: Progress, log: seq<Record<Event>>, from: nat, recs: seq<Record<Event>>, f: Option<Failure>)
    requires Numbered(log) && Fine(p.tables, log, p.cursor) && 1 <= from && p.cursor <= from <= p.cursor + 1
    requires from - 1 + |recs| <= |log| && recs == log[from - 1..from - 1 + |recs|]
    ensures var q := Walk(p, recs, f);
            && Fine(q.tables, log, q.cursor) && Grown(p.tables, q.tables)
            && p.cursor <= q.cursor && (q.cursor == p.cursor || q.cursor <= from - 1 + |recs|)
            && (f == None && recs != [] ==> q.cursor == from - 1 + |recs|)
    decreases |recs|
  {
    if recs != [] {
      FirstOfSlice(log, from, recs);
      if recs[0].event.SignalEvent? && Strikes(f, recs[0].event.signal) {
        HalfStep(p.tables, log, p.cursor, from);
      } else {
        TurnFine(p, log, from);
        WalkKeeps(Turned(p, recs[0]), log, from + 1, recs[1..], Later(f));
      }
    }
  }

  /** A record dealt with. */
  function Turned(p: Progress, r: Record<Event>): Progress {
    if r.event.SignalEvent? then Progress(Projected(p.tables, r.seqNo, r.event.signal), r.seqNo, p.projected + 1)
    else p.(cursor := r.seqNo)
  }

  lemma TurnFine(p: Progress, log: seq<Record<Event>>, n: nat)
    requires Numbered(log) && Fine(p.tables, log, p.cursor) && 1 <= n <= |log| && n <= p.cursor + 1
    ensures var q := Turned(p, log[n - 1]); Fine(q.tables, log, n) && Grown(p.tables, q.tables) && q.cursor == n
  {
    if log[n - 1].event.SignalEvent? {
      ProjectStep(p.tables, log, p.cursor, n);
    } else {
      SkipStep(p.tables, log, p.cursor, n);
    }
  }

  /** A page starts at the record the cursor names, or at the first. */
  lemma PageAt(log: seq<Record<Event>>, cursor: nat, size: nat)
    requires Numbered(log) && cursor <= |log|
    ensures var from := if cursor == 0 then 1 else cursor;
            var page := Page(log, cursor, size);
            && from - 1 + |page| <= |log| && page == log[from - 1..from - 1 + |page|]
            && |page| == (if size <= |log| - from + 1 then size else |log| - from + 1)
  {
    AtLeastNumbered(log, 0, cursor);
  }

  function Start(cursor: nat): nat {
    if cursor == 0 then 1 else cursor
  }

  /** The walk over the page at the cursor. */
  lemma PageWalk(w: State, size: nat, f: Option<Failure>)
    requires Numbered(w.log) && w.cursor <= |w.log| && Fine(w.tables, w.log, w.cursor)
    ensures var p, page := Walk(Progress(w.tables, w.cursor, 0), Page(w.log, w.cursor, size), f), Page(w.log, w.cursor, size);
            && Fine(p.tables, w.log, p.cursor) && Grown(w.tables, p.tables) && w.cursor <= p.cursor <= |w.log|
            && (f == None && page != [] ==> p.cursor == Start(w.cursor) - 1 + |page|)
  {
    PageAt(w.log, w.cursor, size);
    WalkKeeps(Progress(w.tables, w.cursor, 0), w.log, Start(w.cursor), Page(w.log, w.cursor, size), f);
  }

  lemma BatchKeeps(w: State, size: nat, f: Option<Failure>, saves: bool)
    requires Numbered(w.log) && w.cursor <= |w.log| && Fine(w.tables, w.log, w.cursor)
    ensures var v := Batched(w, size, f, saves);
            && v.log == w.log && Fine(v.tables, v.log, v.cursor) && Grown(w.tables, v.tables)
            && w.cursor <= v.cursor <= |v.log| && (v.saved == w.saved || v.saved == v.cursor)
  {
    PageWalk(w, size, f);
  }

  lemma GrowKeeps(w: State, event: Event)
    requires Inv(w)
    ensures Inv(w.(log := w.log + [Record(|w.log| + 1, event)]))
  {
    var more := w.log + [Record(|w.log| + 1, event)];
    forall n: nat
      ensures Right(w.tables, more, n) && (n <= w.cursor ==> Complete(w.tables, more, n))
    {
      assert Right(w.tables, w.log, n);
      assert n <= w.cursor ==> Complete(w.tables, w.log, n);
    }
  }

  lemma RestartKeeps(w: State)
    requires Inv(w)
    ensures Inv(w.(cursor := w.saved))
  {
    forall n: nat | n <= w.saved
      ensures Complete(w.tables, w.log, n)
    {
    }
  }

  /** Whatever fails and whenever the projector restarts, every decodable signal at or below its
      cursor has its rows, every row is that of the signal at its sequence, and the saved cursor is
      not ahead. */
  lemma RunKeeps(ls: seq<Label>)
    requires Run(Next, EMPTY, ls).Some?
    ensures Inv(Run(Next, EMPTY, ls).value)
  {
    forall w, l | Inv(w) && Next(w, l).Some?
      ensures Inv(Next(w, l).value)
    {
      match l
      case Grow(event) => GrowKeeps(w, event);
      case Batch(size, f, saves) => BatchKeeps(w, size, f, saves);
      case Restart => RestartKeeps(w);
    }
    var any := (w: State, l: Label) => true;
    AllAllowed(Next, any, EMPTY, ls);
    Keeps(Next, Inv, any, EMPTY, ls);
  }

  // ---- replay ----

  /** Two tables whose rows are right agree wherever both have a row. */
  predicate SameAt(t: Tables, u: Tables, n: nat) {
    && (n in t.signals <==> n in u.signals) && (n in t.signals ==> t.signals[n] == u.signals[n])
    && (n in t.timeline <==> n in u.timeline) && (n in t.timeline ==> t.timeline[n] == u.timeline[n])
  }

  lemma RightRowsSame(t: Tables, u: Tables, log: seq<Record<Event>>, n: nat)
    requires AllRight(t, log) && AllRight(u, log) && Complete(t, log, n) && Complete(u, log, n)
    ensures SameAt(t, u, n)
  {
    assert Right(t, log, n) && Right(u, log, n);
  }

  /** Replaying a batch from any earlier cursor, failures included, leaves the rows of every
      sequence up to the cursor as they were; so when all of the store has been projected, it
      leaves the tables unchanged. */
  lemma ReplayChangesNothing(w: State, earlier: nat, size: nat, f: Option<Failure>, saves: bool)
    requires Inv(w) && earlier <= w.cursor
    ensures var v := Batched(w.(cursor := earlier), size, f, saves);
            && (forall n: nat | n <= w.cursor :: SameAt(w.tables, v.tables, n))
            && (w.cursor == |w.log| ==> v.tables == w.tables)
  {
    var back := w.(cursor := earlier);
    forall n: nat | n <= earlier
      ensures Complete(w.tables, w.log, n)
    {
    }
    BatchKeeps(back, size, f, saves);
    var v := Batched(back, size, f, saves);
    forall n: nat | n <= w.cursor
      ensures SameAt(w.tables, v.tables, n)
    {
      assert Complete(w.tables, w.log, n);
      StillComplete(w.tables, v.tables, w.log, n);
      RightRowsSame(w.tables, v.tables, w.log, n);
    }
    if w.cursor == |w.log| {
      SameTables(w.tables, v.tables, w.log);
    }
  }

  lemma StillComplete(t: Tables, u: Tables, log: seq<Record<Event>>, n: nat)
    requires Complete(t, log, n) && Grown(t, u)
    ensures Complete(u, log, n)
  {
  }

  lemma SameTables(t: Tables, u: Tables, log: seq<Record<Event>>)
    requires AllRight(t, log) && AllRight(u, log) && forall n: nat | n <= |log| :: SameAt(t, u, n)
    ensures t == u
  {
    forall n: nat
      ensures n in t.signals <==> n in u.signals
      ensures n in t.signals ==> t.signals[n] == u.signals[n]
      ensures n in t.timeline <==> n in u.timeline
      ensures n in t.timeline ==> t.timeline[n] == u.timeline[n]
    {
      assert Right(t, log, n) && Right(u, log, n);
      assert n <= |log| ==> SameAt(t, u, n);
    }
  }

  // ---- progress ----

  /** A batch without failures moves the cursor from a record to the last of its page. */
  lemma BatchMoves(w: State, size: nat, saves: bool)
    requires Inv(w) && size > 0
    ensures var start := if w.cursor == 0 then 1 else w.cursor;
            var cursor := Batched(w, size, None, saves).cursor;
            cursor == if w.log == [] then 0 else if start - 1 + size <= |w.log| then start - 1 + size else |w.log|
  {
    PageAt(w.log, w.cursor, size);
    PageWalk(w, size, None);
  }

  /** As far as the log goes. */
  function UpTo(log: seq<Record<Event>>, n: int): int {
    if n <= |log| then n else |log|
  }

  lemma BatchOk(w: State, size: nat)
    requires Inv(w) && size > 0 && w.cursor >= 1
    ensures var v := Batched(w, size, None, true);
            Inv(v) && v.log == w.log && v.cursor == UpTo(w.log, w.cursor + (size - 1))
  {
    BatchMoves(w, size, true);
    BatchKeeps(w, size, None, true);
  }

  lemma UpToTwice(log: seq<Record<Event>>, n: int, rest: int)
    requires rest >= 0
    ensures UpTo(log, UpTo(log, n) + rest) == UpTo(log, n + rest)
  {
  }

  function Batches(w: State, size: nat, k: nat): State
    decreases k
  {
    if k == 0 then w else Batches(Batched(w, size, None, true), size, k - 1)
  }

  function Times(k: nat, step: nat): nat {
    if k == 0 then 0 else step + Times(k - 1, step)
  }

  lemma {:induction false} TimesIs(k: nat, step: nat)
    ensures Times(k, step) == k * step
  {
    if k > 0 {
      TimesIs(k - 1, step);
      assert k * step == (k - 1) * step + step;
    }
  }

  lemma {:induction false} MovesOn(w: State, size: nat, k: nat)
    requires Inv(w) && size > 0 && w.cursor >= 1
    ensures Batches(w, size, k).cursor == UpTo(w.log, w.cursor + Times(k, size - 1))
    decreases k
  {
    if k > 0 {
      BatchOk(w, size);
      MovesOn(Batched(w, size, None, true), size, k - 1);
      UpToTwice(w.log, w.cursor + (size - 1), Times(k - 1, size - 1));
    }
  }

  /** A page begins with the record the cursor names, so k batches make k * (size - 1) new records. */
  lemma CatchesUp(w: State, size: nat, k: nat)
    requires Inv(w) && size > 0 && w.cursor >= 1
    ensures Batches(w, size, k).cursor == UpTo(w.log, w.cursor + k * (size - 1))
  {
    MovesOn(w, size, k);
    TimesIs(k, size - 1);
  }

  /** While records are left, batches get further if and only if they have at least two records. */
  lemma AdvancesIff(w: State, size: nat)
    requires Inv(w) && 1 <= w.cursor < |w.log| && size > 0
    ensures (exists k :: Batches(w, size, k).cursor > w.cursor) <==> size >= 2
  {
    if size >= 2 {
      CatchesUp(w, size, 1);
      assert Batches(w, size, 1).cursor > w.cursor;
    } else {
      forall k
        ensures Batches(w, size, k).cursor == w.cursor
      {
        CatchesUp(w, size, k);
      }
    }
  }

  // ---- the database and the loop ----

  class Database {
    var tables: Tables
    var saved: nat

    constructor ()
      ensures tables == EMPTY.tables && saved == 0
    {
      tables, saved := EMPTY.tables, 0;
    }

    /** `projectSignal`: two statements, not one transaction. */
    method ProjectSignal(seqNo: nat, s: Signal, fails: bool, second: bool) returns (ok: bool)
      modifies this`tables
      ensures ok <==> !(fails && (second ==> Timed(s)))
      ensures tables == if ok then Projected(old(tables), seqNo, s)
                        else if second then PutSignal(old(tables), seqNo, RowOf(s)) else old(tables)
    {
      if fails && !second {
        return false;
      }
      tables := PutSignal(tables, seqNo, RowOf(s));
      if Timed(s) {
        if fails {
          return false;
        }
        tables := PutTimeline(tables, seqNo, TimelineOf(s));
      }
      ok := true;
    }

    /** `runBatch`; `f` says where the database fails, `saves` whether the cursor can be written. */
    method RunBatch(log: seq<Record<Event>>, cursor: nat, size: nat, f: Option<Failure>, saves: bool) returns (next: nat)
      modifies this
      ensures State(log, next, saved, tables) == Batched(State(log, cursor, old(saved), old(tables)), size, f, saves)
    {
      var recs := Page(log, cursor, size);
      next := cursor;
      var projected, i := 0, 0;
      assert recs[0..] == recs;
      while i < |recs|
        invariant i <= |recs| && saved == old(saved)
        invariant Walk(Progress(old(tables), cursor, 0), recs, f) == Walk(Progress(tables, next, projected), recs[i..], Shifted(f, i))
      {
        var r := recs[i];
        assert recs[i..][0] == r && recs[i..][1..] == recs[i + 1..] && Later(Shifted(f, i)) == Shifted(f, i + 1);
        if r.event.SignalEvent? {
          var here := f.Some? && f.value.at == i;
          var ok := ProjectSignal(r.seqNo, r.event.signal, here, here && f.value.second);
          if !ok {
            break;
          }
          projected := projected + 1;
        }
        next := r.seqNo;
        i := i + 1;
      }
      if projected > 0 && saves {
        saved := next;
      }
    }
  }

  /** The failure as seen from the i-th record on. */
  function Shifted(f: Option<Failure>, i: nat): Option<Failure> {
    if f.Some? && f.value.at >= i then Some(Failure(f.value.at - i, f.value.second)) else None
  }
}
