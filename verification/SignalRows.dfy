/** What the projector's two tables say of a signal, column by column. */
module SignalRows {
  import opened Wrappers
  import opened EventLog
  import opened Runs
  import opened Text
  import opened Projector

  /** Whom a signal of a type is about, and what is put down as having happened; None for a type that
      is not on the timeline. */
  function OnTimeline(signalType: string): Option<(string, string)> {
    match signalType
    case "auditor_change" => Some(("auditor", "changed"))
    case "leadership_departure" => Some(("director", "resigned"))
    case "cfo_departure" => Some(("director", "resigned"))
    case "director_friction" => Some(("director", "flagged"))
    case "director_decay" => Some(("director", "flagged"))
    case "director_long_tenure" => Some(("director", "flagged"))
    case "nomination_rejection" => Some(("director", "rejected"))
    case "activist_risk" => Some(("activist", "flagged"))
    case "insider_buy" => Some(("director", "insider_buy"))
    case "insider_sell_cluster" => Some(("director", "insider_sell"))
    case _ => None
  }

  lemma TimelineIs(t: string)
    ensures OnTimeline(t) == if t in TIMELINE_TYPES then Some(TIMELINE_TYPES[t]) else None
  {
  }

  lemma {:induction false} FirstIs(texts: seq<string>)
    ensures FirstText(texts, FirstOf(texts))
  {
    if texts != [] {
      FirstIs(texts[1..]);
      if texts[0] != "" {
        assert FirstAt(texts, 0);
      } else if exists i :: FirstAt(texts[1..], i) && FirstOf(texts) == texts[1..][i] {
        var i :| FirstAt(texts[1..], i) && FirstOf(texts) == texts[1..][i];
        forall j | 0 <= j < i + 1
          ensures texts[j] == ""
        {
          assert j > 0 ==> texts[1..][j - 1] == texts[j];
        }
        assert FirstAt(texts, i + 1);
      } else {
        assert forall t | t in texts :: t == texts[0] || t in texts[1..];
      }
    }
  }

  /** The first so many characters of a text, or all of it. */
  predicate Shortened(short: string, text: string, max: nat) {
    short <= text && |short| == if |text| < max then |text| else max
  }

  predicate Scored(importance: int, score: real) {
    && 0.0 <= score <= 1.0
    && (0 <= importance <= 10 ==> score * 10.0 == importance as real)
    && (importance < 0 ==> score == 0.0) && (importance > 10 ==> score == 1.0)
  }

  predicate Dated(s: Signal, date: string) {
    date == match s.timestamp case Some(t) => t case None => s.appendedAt
  }

  predicate Marked(s: Signal, mark: Option<string>) {
    match mark
    case Some(id) => id != "" && "skuldmark_id" in s.metadata && s.metadata["skuldmark_id"] == id
    case None => "skuldmark_id" in s.metadata ==> s.metadata["skuldmark_id"] == ""
  }

  /** A row of `governance_signals`. */
  predicate SignalSays(row: SignalRow, s: Signal) {
    && row.ticker == s.ticker && row.eventType == s.signalType && row.rawJson == s.raw
    && FirstText([Meta(s, "accession_number"), s.accession], row.filingId)
    && FirstText([Meta(s, "entity_name"), Meta(s, "director_name"), Meta(s, "auditor_name")], row.entityName)
    && Marked(s, row.skuldmarkId)
    && Scored(s.importance, row.score)
    && Shortened(row.headline, s.summary, 511)
    && Dated(s, row.filingDate)
    && FirstText([Meta(s, "source_published_at"), Meta(s, "filing_date"), row.filingDate], row.publishedAt)
  }

  /** A row of `entity_timeline`. */
  predicate TimelineSays(row: TimelineRow, s: Signal) {
    && row.ticker == s.ticker
    && OnTimeline(s.signalType) == Some((row.entityType, row.eventType))
    && FirstText([Meta(s, "accession_number"), s.accession], row.sourceFiling)
    && FirstText([Meta(s, "entity_name"), Meta(s, "director_name"), Meta(s, "auditor_name")], row.entityName)
    && Marked(s, row.skuldmarkId)
    && Shortened(row.description, s.summary, 4000)
    && Dated(s, row.eventDate)
  }

  lemma RowSays(s: Signal)
    ensures SignalSays(RowOf(s), s)
    ensures Timed(s) ==> TimelineSays(TimelineOf(s), s)
  {
    TimelineIs(s.signalType);
    FirstIs([Meta(s, "accession_number"), s.accession]);
    FirstIs([Meta(s, "entity_name"), Meta(s, "director_name"), Meta(s, "auditor_name")]);
    FirstIs([Meta(s, "source_published_at"), Meta(s, "filing_date"), FilingDate(s)]);
  }

  /** After any run, failures, replays and restarts included, every row of either table says of the
      signal stored at its sequence exactly what the columns are for, and every signal at or below the
      cursor has its rows: one, and a second when its type is one for the timeline. */
  lemma TablesSay(ls: seq<Label>, n: nat)
    requires Run(Next, EMPTY, ls).Some?
    ensures var w := Run(Next, EMPTY, ls).value;
            && (n in w.tables.signals || n in w.tables.timeline ==> 1 <= n <= |w.log| && w.log[n - 1].event.SignalEvent?)
            && (n in w.tables.signals ==> SignalSays(w.tables.signals[n], w.log[n - 1].event.signal))
            && (n in w.tables.timeline ==> TimelineSays(w.tables.timeline[n], w.log[n - 1].event.signal))
            && (1 <= n <= w.cursor && n <= |w.log| && w.log[n - 1].event.SignalEvent? ==>
                  && n in w.tables.signals
                  && (OnTimeline(w.log[n - 1].event.signal.signalType).Some? ==> n in w.tables.timeline))
  {
    RunKeeps(ls);
    var w := Run(Next, EMPTY, ls).value;
    assert Right(w.tables, w.log, n);
    assert n <= w.cursor ==> Complete(w.tables, w.log, n);
    if SignalAt(w.log, n).Some? {
      TimelineIs(SignalAt(w.log, n).value.signalType);
      RowSays(SignalAt(w.log, n).value);
    }
  }

  /** A row that is there already, whatever it says, keeps the columns that name it. */
  lemma DuplicateKeeps(t: Tables, n: nat, s: Signal)
    requires n in t.signals && n in t.timeline && Timed(s)
    ensures var u := Projected(t, n, s);
            && n in u.signals && n in u.timeline
            && SignalSays(u.signals[n].(ticker := s.ticker, eventType := s.signalType, filingId := Accession(s),
                                        entityName := EntityName(s), filingDate := FilingDate(s)), s)
            && u.signals[n].(score := t.signals[n].score, headline := t.signals[n].headline,
                             rawJson := t.signals[n].rawJson, publishedAt := t.signals[n].publishedAt,
                             skuldmarkId := t.signals[n].skuldmarkId) == t.signals[n]
            && Shortened(u.timeline[n].description, s.summary, 4000) && Marked(s, u.timeline[n].skuldmarkId)
            && u.timeline[n].(description := t.timeline[n].description, skuldmarkId := t.timeline[n].skuldmarkId)
               == t.timeline[n]
  {
    RowSays(s);
  }

  // ---- where a batch stops ----

  /** How many records of a page are dealt with: all, or those before the one at which the database
      fails, which only a signal meets, and at its second write only one with a timeline row. */
  function DealtWith(page: seq<Record<Event>>, f: Option<Failure>): nat {
    if && f.Some? && f.value.at < |page| && page[f.value.at].event.SignalEvent?
       && (f.value.second ==> page[f.value.at].event.signal.signalType in TIMELINE_TYPES)
    then f.value.at
    else |page|
  }

  function Signals(recs: seq<Record<Event>>): nat {
    if recs == [] then 0 else (if recs[0].event.SignalEvent? then 1 else 0) + Signals(recs[1..])
  }

  function AllProjected(t: Tables, recs: seq<Record<Event>>): Tables
    decreases |recs|
  {
    if recs == [] then t
    else AllProjected(if recs[0].event.SignalEvent? then Projected(t, recs[0].seqNo, recs[0].event.signal) else t, recs[1..])
  }

  /** A record that fails at its second write has its first row. */
  function Half(t: Tables, page: seq<Record<Event>>, f: Option<Failure>): Tables {
    if f.Some? && f.value.second && DealtWith(page, f) < |page|
    then PutSignal(t, page[f.value.at].seqNo, RowOf(page[f.value.at].event.signal))
    else t
  }

  lemma {:induction false} WalkIs(p: Progress, page: seq<Record<Event>>, f: Option<Failure>)
    ensures var n, q := DealtWith(page, f), Walk(p, page, f);
            && q.cursor == (if n == 0 then p.cursor else page[n - 1].seqNo)
            && q.projected == p.projected + Signals(page[..n])
            && q.tables == Half(AllProjected(p.tables, page[..n]), page, f)
    decreases |page|
  {
    if page != [] {
      var r, n := page[0], DealtWith(page, f);
      if r.event.SignalEvent? && Strikes(f, r.event.signal) {
        assert n == 0 && page[..0] == [];
      } else {
        WalkIs(if r.event.SignalEvent? then Progress(Projected(p.tables, r.seqNo, r.event.signal), r.seqNo, p.projected + 1)
               else p.(cursor := r.seqNo), page[1..], Later(f));
        Fewer(page, f);
        assert page[..n][0] == r && page[..n][1..] == page[1..][..n - 1];
      }
    }
  }

  lemma Fewer(page: seq<Record<Event>>, f: Option<Failure>)
    requires page != [] && !(page[0].event.SignalEvent? && Strikes(f, page[0].event.signal))
    ensures DealtWith(page, f) == DealtWith(page[1..], Later(f)) + 1
    ensures forall t :: Half(t, page, f) == Half(t, page[1..], Later(f))
  {
  }

  /** A batch deals with the records of its page up to the one at which the database fails; its cursor
      ends at the last of them, and is saved exactly when it can be and one of them was a signal. */
  lemma BatchIs(w: State, size: nat, f: Option<Failure>, saves: bool)
    ensures var page := Page(w.log, w.cursor, size);
            var done := page[..DealtWith(page, f)];
            var v := Batched(w, size, f, saves);
            && v.log == w.log && v.cursor == (if done == [] then w.cursor else done[|done| - 1].seqNo)
            && v.tables == Half(AllProjected(w.tables, done), page, f)
            && v.saved == if saves && (exists r | r in done :: r.event.SignalEvent?) then v.cursor else w.saved
  {
    var page := Page(w.log, w.cursor, size);
    WalkIs(Progress(w.tables, w.cursor, 0), page, f);
    SomeSignal(page[..DealtWith(page, f)]);
  }

  lemma {:induction false} SomeSignal(recs: seq<Record<Event>>)
    ensures Signals(recs) > 0 <==> exists r | r in recs :: r.event.SignalEvent?
  {
    if recs != [] {
      SomeSignal(recs[1..]);
      assert recs[0] in recs && forall r | r in recs[1..] :: r in recs;
    }
  }
}
