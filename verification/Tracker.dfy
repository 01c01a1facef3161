/**
 The price-reaction watcher: it schedules releases it reads from two feeds, samples their
 prices at fixed offsets, and records both in its own store, from which it is rebuilt.
 */
module Tracker {
  import opened Wrappers
  import opened EventLog
  import opened Runs
  import opened Schedule

  const PAGE_SIZE := 512

  datatype Kind = FilingKind | PressKind

  /** A record of one of the two feeds. A missing or unreadable time is None. */
  datatype Feed =
    | Filing(identity: string, ticker: string, form: string, released: Option<int>)
    | Press(partitionKey: string, url: string, ticker: string, headline: string, discovered: Option<int>)
    | Unrelated

  datatype Scheduled = Scheduled(identity: string, ticker: string, kind: Kind, detail: string, releaseTime: int)

  datatype Sample = Sample(identity: string, ticker: string, offset: Offset, target: int, sampledAt: int,
                           price: real, baselinePrice: real, pctChange: real)

  /** The watcher's own events; OtherEvent is anything its reload skips. */
  datatype Event = ScheduledEvent(sched: Scheduled) | SampleEvent(sample: Sample) | OtherEvent

  datatype Quote = Bar(close: real) | NoBar | FetchFailed

  /** `releaseState`. */
  datatype Release = Release(sched: Scheduled, sampled: set<Offset>, baseline: Option<real>)

  datatype Config = Config(horizon: int, target: (int, Offset) -> int)

  datatype State = State(releases: map<string, Release>, log: seq<Event>)

  datatype Label =
    | Offer(kind: Kind, feed: Feed, now: int, appended: bool)
    | Try(id: string, offset: Offset, at: int, quote: Quote, stored: bool)
    | Restart

  // ---- one step of each kind ----

  function TimeOr(t: Option<int>, now: int): int {
    if t.Some? then t.value else now
  }

  /** What an ingest loop would schedule for a record of its feed. */
  function Candidate(kind: Kind, f: Feed, now: int): Option<Scheduled> {
    match (kind, f)
    case (FilingKind, Filing(id, ticker, form, released)) =>
      if ticker == "" then None else Some(Scheduled(id, ticker, FilingKind, form, TimeOr(released, now)))
    case (PressKind, Press(key, url, ticker, headline, discovered)) =>
      if ticker == "" then None
      else Some(Scheduled(if key == "" then url else key, ticker, PressKind, headline, TimeOr(discovered, now)))
    case _ => None
  }

  predicate Accepts(cfg: Config, releases: map<string, Release>, s: Scheduled, now: int) {
    s.identity !in releases && now - s.releaseTime <= cfg.horizon
  }

  function Offered(cfg: Config, w: State, kind: Kind, f: Feed, now: int, appended: bool): State {
    var c := Candidate(kind, f, now);
    if c.None? || !Accepts(cfg, w.releases, c.value, now) || !appended then w
    else State(w.releases[c.value.identity := Release(c.value, {}, None)], w.log + [ScheduledEvent(c.value)])
  }

  predicate Due(cfg: Config, rs: Release, o: Offset, now: int) {
    && |rs.sampled| < |ALL_OFFSETS| && now - rs.sched.releaseTime <= cfg.horizon
    && o !in rs.sampled && cfg.target(rs.sched.releaseTime, o) <= now
  }

  function MakeSample(cfg: Config, id: string, rs: Release, o: Offset, now: int, price: real): Sample {
    var bare := Sample(id, rs.sched.ticker, o, cfg.target(rs.sched.releaseTime, o), now, price, 0.0, 0.0);
    if o != T0 && rs.baseline.Some? && rs.baseline.value != 0.0
    then bare.(baselinePrice := rs.baseline.value,
               pctChange := (price - rs.baseline.value) / rs.baseline.value * 100.0)
    else bare
  }

  /** The T+0 price is remembered before the append that records it. */
  function Remember(rs: Release, o: Offset, price: real): Release {
    if o == T0 then rs.(baseline := Some(price)) else rs
  }

  function Tried(cfg: Config, w: State, id: string, o: Offset, now: int, quote: Quote, stored: bool): State
    requires id in w.releases
  {
    var rs := w.releases[id];
    if !Due(cfg, rs, o, now) || !quote.Bar? then w
    else
      var kept := Remember(rs, o, quote.close);
      if !stored then w.(releases := w.releases[id := kept])
      else State(w.releases[id := kept.(sampled := rs.sampled + {o})],
                 w.log + [SampleEvent(MakeSample(cfg, id, rs, o, now, quote.close))])
  }

  /** `loadFromStore`, one record. */
  function LoadOne(m: map<string, Release>, e: Event): map<string, Release> {
    match e
    case ScheduledEvent(s) => m[s.identity := Release(s, {}, None)]
    case SampleEvent(s) =>
      if s.identity !in m then m
      else
        var rs := m[s.identity];
        m[s.identity := Remember(rs, s.offset, s.price).(sampled := rs.sampled + {s.offset})]
    case OtherEvent => m
  }

  function Rebuild(log: seq<Event>): map<string, Release>
    decreases |log|
  {
    if log == [] then map[] else LoadOne(Rebuild(log[..|log| - 1]), log[|log| - 1])
  }

  /** A watcher that crashes at any point restarts from what its store holds; the feed records it
      is offered are arbitrary, as a saved cursor may be any number of records behind. */
  function Next(cfg: Config, w: State, l: Label): Option<State> {
    match l
    case Offer(kind, f, now, appended) => Some(Offered(cfg, w, kind, f, now, appended))
    case Try(id, o, now, quote, stored) =>
      if id in w.releases then Some(Tried(cfg, w, id, o, now, quote, stored)) else None
    case Restart => Some(w.(releases := Rebuild(w.log)))
  }

  function Machine(cfg: Config): (State, Label) -> Option<State> {
    (w: State, l: Label) => Next(cfg, w, l)
  }

  const EMPTY := State(map[], [])

  // ---- what the log records, and what the live tracker adds to it ----

  datatype Key = ScheduleOf(id: string) | SampleOf(id: string, offset: Offset) | NoKey

  function KeyOf(e: Event): Key {
    match e
    case ScheduledEvent(s) => ScheduleOf(s.identity)
    case SampleEvent(s) => SampleOf(s.identity, s.offset)
    case OtherEvent => NoKey
  }

  /** At most one schedule per identity and one sample per identity and offset. */
  ghost predicate Once(log: seq<Event>) {
    forall i, j {:trigger log[i], log[j]} | 0 <= i < j < |log| && KeyOf(log[i]) != NoKey :: KeyOf(log[i]) != KeyOf(log[j])
  }

  /** The key of a recorded event is visible in the tracker. */
  predicate Shown(m: map<string, Release>, e: Event) {
    match e
    case ScheduledEvent(s) => s.identity in m
    case SampleEvent(s) => s.identity in m && s.offset in m[s.identity].sampled
    case OtherEvent => true
  }

  ghost predicate Visible(log: seq<Event>, m: map<string, Release>) {
    forall e | e in log :: Shown(m, e)
  }

  /** A release as the store knows it: a baseline only when its T+0 sample was stored. */
  function Stored(rs: Release): Release {
    if T0 in rs.sampled then rs else rs.(baseline := None)
  }

  function StoredAll(m: map<string, Release>): map<string, Release> {
    map id | id in m :: Stored(m[id])
  }

  ghost predicate Inv(w: State) {
    && Once(w.log) && Visible(w.log, w.releases)
    && Rebuild(w.log) == StoredAll(w.releases)
  }

  /** The live tracker is exactly what a restart would load. */
  predicate Exact(w: State) {
    Rebuild(w.log) == w.releases
  }

  /** The step in which a due T+0 price is fetched and its append fails. */
  predicate LosesBaseline(cfg: Config, w: State, l: Label) {
    && l.Try? && l.offset == T0 && l.quote.Bar? && !l.stored
    && l.id in w.releases && Due(cfg, w.releases[l.id], T0, l.at)
  }

  // ---- lemmas ----

  lemma RebuildOne(log: seq<Event>, e: Event)
    ensures Rebuild(log + [e]) == LoadOne(Rebuild(log), e)
  {
    assert (log + [e])[..|log|] == log;
  }

  /** Storing commutes with scheduling. */
  lemma StoredSchedule(m: map<string, Release>, s: Scheduled)
    ensures StoredAll(m[s.identity := Release(s, {}, None)]) == LoadOne(StoredAll(m), ScheduledEvent(s))
  {
  }

  lemma StoredSample(cfg: Config, m: map<string, Release>, id: string, o: Offset, now: int, price: real)
    requires id in m
    ensures StoredAll(m[id := Remember(m[id], o, price).(sampled := m[id].sampled + {o})])
         == LoadOne(StoredAll(m), SampleEvent(MakeSample(cfg, id, m[id], o, now, price)))
  {
    var rs := m[id];
    assert Stored(Remember(rs, o, price).(sampled := rs.sampled + {o}))
        == Remember(Stored(rs), o, price).(sampled := rs.sampled + {o});
  }

  /** An event whose key the tracker does not show is a new one; one that only adds to what is
      shown keeps the rest visible. */
  lemma AddOne(log: seq<Event>, m: map<string, Release>, n: map<string, Release>, e: Event)
    requires Once(log) && Visible(log, m) && !Shown(m, e) && Shown(n, e)
    requires forall id | id in m :: id in n && m[id].sampled <= n[id].sampled
    ensures Once(log + [e]) && Visible(log + [e], n)
  {
    forall x | x in log
      ensures KeyOf(x) != KeyOf(e) || KeyOf(x) == NoKey
    {
      assert Shown(m, x);
    }
    forall x | x in log + [e]
      ensures Shown(n, x)
    {
      if x in log {
        assert Shown(m, x);
      }
    }
  }

  lemma OfferKeeps(cfg: Config, w: State, kind: Kind, f: Feed, now: int, appended: bool)
    requires Inv(w)
    ensures Inv(Offered(cfg, w, kind, f, now, appended))
  {
    var c := Candidate(kind, f, now);
    if c.Some? && Accepts(cfg, w.releases, c.value, now) && appended {
      var n := w.releases[c.value.identity := Release(c.value, {}, None)];
      RebuildOne(w.log, ScheduledEvent(c.value));
      StoredSchedule(w.releases, c.value);
      AddOne(w.log, w.releases, n, ScheduledEvent(c.value));
    }
  }

  lemma TryKeeps(cfg: Config, w: State, id: string, o: Offset, now: int, quote: Quote, stored: bool)
    requires Inv(w) && id in w.releases
    ensures Inv(Tried(cfg, w, id, o, now, quote, stored))
  {
    var rs := w.releases[id];
    if Due(cfg, rs, o, now) && quote.Bar? {
      if stored {
        TryStoredKeeps(cfg, w, id, o, now, quote.close);
      } else {
        assert Stored(Remember(rs, o, quote.close)) == Stored(rs);
      }
    }
  }

  lemma TryStoredKeeps(cfg: Config, w: State, id: string, o: Offset, now: int, price: real)
    requires Inv(w) && id in w.releases && Due(cfg, w.releases[id], o, now)
    ensures Inv(Tried(cfg, w, id, o, now, Bar(price), true))
  {
    var rs := w.releases[id];
    var e := SampleEvent(MakeSample(cfg, id, rs, o, now, price));
    var n := w.releases[id := Remember(rs, o, price).(sampled := rs.sampled + {o})];
    RebuildOne(w.log, e);
    StoredSample(cfg, w.releases, id, o, now, price);
    AddOne(w.log, w.releases, n, e);
  }

  lemma RestartKeeps(w: State)
    requires Inv(w)
    ensures Inv(w.(releases := Rebuild(w.log))) && Exact(w.(releases := Rebuild(w.log)))
  {
    var m := Rebuild(w.log);
    assert StoredAll(m) == m;
    assert Visible(w.log, m) by {
      forall e | e in w.log
        ensures Shown(m, e)
      {
        assert Shown(w.releases, e);
      }
    }
  }

  lemma StepKeeps(cfg: Config, w: State, l: Label)
    requires Inv(w) && Next(cfg, w, l).Some?
    ensures Inv(Next(cfg, w, l).value)
  {
    match l
    case Offer(kind, f, now, appended) => OfferKeeps(cfg, w, kind, f, now, appended);
    case Try(id, o, now, quote, stored) => TryKeeps(cfg, w, id, o, now, quote, stored);
    case Restart => RestartKeeps(w);
  }

  // ---- the properties of every run ----

  lemma RunInv(cfg: Config, ls: seq<Label>)
    requires Run(Machine(cfg), EMPTY, ls).Some?
    ensures Inv(Run(Machine(cfg), EMPTY, ls).value)
  {
    forall w, l | Inv(w) && Machine(cfg)(w, l).Some?
      ensures Inv(Machine(cfg)(w, l).value)
    {
      StepKeeps(cfg, w, l);
    }
    var any := (w: State, l: Label) => true;
    AllAllowed(Machine(cfg), any, EMPTY, ls);
    Keeps(Machine(cfg), Inv, any, EMPTY, ls);
  }

  /** Whatever is offered, fetched, refused by the store or lost in a crash, the store never holds
      two schedules of an identity or two samples of an identity and offset, and a restart loads
      the live tracker, short only of baselines whose T+0 sample was not stored. */
  lemma RunKeeps(cfg: Config, ls: seq<Label>)
    requires Run(Machine(cfg), EMPTY, ls).Some?
    ensures var w := Run(Machine(cfg), EMPTY, ls).value;
            && Once(w.log) && Rebuild(w.log) == StoredAll(w.releases)
  {
    RunInv(cfg, ls);
  }

  /** From an exact tracker, a step leads to an exact one if and only if it is not a due
      T+0 price whose append fails. */
  lemma StepExactIff(cfg: Config, w: State, l: Label)
    requires Inv(w) && Exact(w) && Next(cfg, w, l).Some?
    ensures Exact(Next(cfg, w, l).value) <==> !LosesBaseline(cfg, w, l)
  {
    StepKeeps(cfg, w, l);
    var v := Next(cfg, w, l).value;
    assert forall id | id in w.releases :: Stored(w.releases[id]) == w.releases[id];
    if LosesBaseline(cfg, w, l) {
      assert v.releases[l.id].baseline == Some(l.quote.close) && T0 !in v.releases[l.id].sampled;
      assert StoredAll(v.releases)[l.id].baseline == None;
    } else {
      assert StoredAll(v.releases) == v.releases;
    }
  }

  /** After any run the tracker is exact if and only if no release holds a baseline whose T+0 sample
      was not stored: every such price has since been sampled again or been lost in a restart. */
  lemma RunExactIff(cfg: Config, ls: seq<Label>)
    requires Run(Machine(cfg), EMPTY, ls).Some?
    ensures var w := Run(Machine(cfg), EMPTY, ls).value;
            Exact(w) <==> forall id | id in w.releases && w.releases[id].baseline.Some? :: T0 in w.releases[id].sampled
  {
    RunKeeps(cfg, ls);
    var w := Run(Machine(cfg), EMPTY, ls).value;
    if forall id | id in w.releases && w.releases[id].baseline.Some? :: T0 in w.releases[id].sampled {
      assert StoredAll(w.releases) == w.releases;
    } else {
      var id :| id in w.releases && w.releases[id].baseline.Some? && T0 !in w.releases[id].sampled;
      assert StoredAll(w.releases)[id].baseline == None;
    }
  }

  /** So a run in which no T+0 append fails keeps the tracker exact throughout. */
  lemma RunExact(cfg: Config, ls: seq<Label>)
    requires Run(Machine(cfg), EMPTY, ls).Some?
    requires Allowed(Machine(cfg), (w: State, l: Label) => !LosesBaseline(cfg, w, l), EMPTY, ls)
    ensures Exact(Run(Machine(cfg), EMPTY, ls).value)
  {
    var inv := (w: State) => Inv(w) && Exact(w);
    forall w, l | inv(w) && !LosesBaseline(cfg, w, l) && Machine(cfg)(w, l).Some?
      ensures inv(Machine(cfg)(w, l).value)
    {
      StepKeeps(cfg, w, l);
      StepExactIff(cfg, w, l);
    }
    Keeps(Machine(cfg), inv, (w: State, l: Label) => !LosesBaseline(cfg, w, l), EMPTY, ls);
  }

  /** A stored sample is measured against the baseline the store holds at that point, if any. */
  predicate MeasuredFrom(m: map<string, Release>, e: Event) {
    e.SampleEvent? && e.sample.offset != T0 ==>
      && e.sample.identity in m
      && var base := m[e.sample.identity].baseline;
         if base.Some? && base.value != 0.0
         then e.sample.baselinePrice == base.value
              && e.sample.pctChange == (e.sample.price - base.value) / base.value * 100.0
         else e.sample.baselinePrice == 0.0 && e.sample.pctChange == 0.0
  }

  ghost predicate Measured(log: seq<Event>) {
    forall i {:trigger log[i]} | 0 <= i < |log| :: MeasuredFrom(Rebuild(log[..i]), log[i])
  }

  /** A log explains itself exactly when its events but the last do, and the last one does. */
  lemma MeasuredOne(log: seq<Event>, e: Event)
    ensures Measured(log + [e]) <==> Measured(log) && MeasuredFrom(Rebuild(log), e)
  {
    var more := log + [e];
    assert more[..|log|] == log && more[|log|] == e;
    forall i | 0 <= i < |log|
      ensures more[..i] == log[..i] && more[i] == log[i]
    {
    }
    if Measured(more) {
      forall i {:trigger log[i]} | 0 <= i < |log|
        ensures MeasuredFrom(Rebuild(log[..i]), log[i])
      {
        assert MeasuredFrom(Rebuild(more[..i]), more[i]);
      }
    }
  }

  /** The step that stores a change against a T+0 price the store does not hold. */
  predicate Mismeasures(cfg: Config, w: State, l: Label) {
    && l.Try? && l.stored && l.quote.Bar? && l.offset != T0
    && l.id in w.releases && Due(cfg, w.releases[l.id], l.offset, l.at)
    && T0 !in w.releases[l.id].sampled
    && w.releases[l.id].baseline.Some? && w.releases[l.id].baseline.value != 0.0
  }

  function Explains(cfg: Config): (State, Label) -> bool {
    (w: State, l: Label) => !Mismeasures(cfg, w, l)
  }

  /** A sample stored by a step is measured from the store exactly when the step is none of those. */
  lemma SampleMeasuredIff(cfg: Config, w: State, id: string, o: Offset, now: int, price: real)
    requires Inv(w) && id in w.releases && Due(cfg, w.releases[id], o, now)
    ensures var e := SampleEvent(MakeSample(cfg, id, w.releases[id], o, now, price));
            MeasuredFrom(Rebuild(w.log), e) <==> !Mismeasures(cfg, w, Try(id, o, now, Bar(price), true))
  {
    assert Rebuild(w.log)[id] == Stored(w.releases[id]);
  }

  /** Whatever has happened before, a step leads from a log that explains its own percentages to
      another if and only if it does not store a change against a T+0 price that was fetched and
      never stored. */
  lemma StepMeasuredIff(cfg: Config, w: State, l: Label)
    requires Inv(w) && Next(cfg, w, l).Some?
    ensures Measured(Next(cfg, w, l).value.log) <==> Measured(w.log) && !Mismeasures(cfg, w, l)
  {
    var v := Next(cfg, w, l).value;
    if v.log != w.log {
      MeasuredOne(w.log, v.log[|w.log|]);
      if l.Try? {
        SampleMeasuredIff(cfg, w, l.id, l.offset, l.at, l.quote.close);
      }
    }
  }

  lemma {:induction false} MeasuredFromOn(cfg: Config, w: State, ls: seq<Label>)
    requires Inv(w) && Run(Machine(cfg), w, ls).Some?
    ensures Measured(Run(Machine(cfg), w, ls).value.log)
       <==> Measured(w.log) && Allowed(Machine(cfg), Explains(cfg), w, ls)
    decreases |ls|
  {
    if ls != [] {
      var v := Next(cfg, w, ls[0]).value;
      assert Machine(cfg)(w, ls[0]) == Some(v);
      StepKeeps(cfg, w, ls[0]);
      StepMeasuredIff(cfg, w, ls[0]);
      MeasuredFromOn(cfg, v, ls[1..]);
    }
  }

  /** After a run every stored change is the one the stored T+0 price gives, so that the log alone
      explains its own percentages, if and only if no step of it stored a change against a T+0
      price whose append had failed. A failed append that was made good, or forgotten in a
      restart, before any later offset was stored does no harm. */
  lemma RunMeasuredIff(cfg: Config, ls: seq<Label>)
    requires Run(Machine(cfg), EMPTY, ls).Some?
    ensures Measured(Run(Machine(cfg), EMPTY, ls).value.log)
       <==> Allowed(Machine(cfg), Explains(cfg), EMPTY, ls)
  {
    MeasuredFromOn(cfg, EMPTY, ls);
  }

  /** The default horizon, in a week without holidays. */
  function Defaults(): Config {
    Config(DEFAULT_HORIZON, (release: int, o: Offset) => Target(PlainWeek(), release, o))
  }

  const PASS := 15 * MINUTE
  const SCHED := Scheduled("id", "T", FilingKind, "8-K", 0)
  const OFFER := Offer(FilingKind, Filing("id", "T", "8-K", Some(0)), 0, true)
  const TRY_T0 := Try("id", T0, PASS, Bar(10.0), false)
  const TRY_T15M := Try("id", T15m, PASS, Bar(20.0), true)
  const OFFERED := State(EMPTY.releases["id" := Release(SCHED, {}, None)], EMPTY.log + [ScheduledEvent(SCHED)])
  const TRIED := OFFERED.(releases := OFFERED.releases["id" := Release(SCHED, {}, Some(10.0))])

  lemma LostSteps()
    ensures Next(Defaults(), EMPTY, OFFER) == Some(OFFERED)
    ensures Next(Defaults(), OFFERED, TRY_T0) == Some(TRIED)
    ensures Next(Defaults(), TRIED, TRY_T15M).Some? && Mismeasures(Defaults(), TRIED, TRY_T15M)
  {
    assert Candidate(FilingKind, OFFER.feed, 0) == Some(SCHED) by { assert |"T"| == 1; }
    assert Due(Defaults(), OFFERED.releases["id"], T0, PASS);
    assert Due(Defaults(), TRIED.releases["id"], T15m, PASS);
  }

  /** In one pass a quarter of an hour after a release the T+0 append fails and the next sample is
      stored: it is measured against a price no reader of the store can find. */
  lemma LostBaseline()
    ensures var w := Run(Machine(Defaults()), EMPTY, [OFFER, TRY_T0, TRY_T15M]);
            w.Some? && !Measured(w.value.log)
  {
    var m := Machine(Defaults());
    LostSteps();
    RunThree(m, EMPTY, OFFER, TRY_T0, TRY_T15M);
    assert Inv(EMPTY);
    StepKeeps(Defaults(), EMPTY, OFFER);
    StepKeeps(Defaults(), OFFERED, TRY_T0);
    StepMeasuredIff(Defaults(), TRIED, TRY_T15M);
  }

  // ---- the loops ----

  /** The watcher's own store. An append either adds one event or fails and adds none. */
  class OwnStore {
    var log: seq<Event>

    method Append(e: Event) returns (ok: bool)
      modifies this
      ensures log == if ok then old(log) + [e] else old(log)
    {
      ok := *;
      if ok {
        log := log + [e];
      }
    }
  }

  /** `Attempts` and `Visits` say which steps a sampling pass takes: every offset, in order, of
      every release, each release once. */
  predicate Attempts(steps: seq<Label>, id: string, now: int, quotes: (string, Offset) -> Quote) {
    && |steps| == |ALL_OFFSETS|
    && forall j | 0 <= j < |steps| ::
         && steps[j].Try? && steps[j].id == id && steps[j].offset == ALL_OFFSETS[j] && steps[j].at == now
         && steps[j].quote == quotes(id, ALL_OFFSETS[j])
  }

  predicate Visits(steps: seq<Label>, ids: seq<string>, now: int, quotes: (string, Offset) -> Quote)
    decreases |ids|
  {
    if ids == [] then steps == []
    else
      var k := |steps| - |ALL_OFFSETS|;
      && k >= 0 && Attempts(steps[k..], ids[|ids| - 1], now, quotes)
      && Visits(steps[..k], ids[..|ids| - 1], now, quotes)
  }

  lemma {:induction false} SubsetSize<T>(a: set<T>, b: set<T>)
    requires a <= b
    ensures |a| <= |b|
  {
    if a != {} {
      var x :| x in a;
      SubsetSize(a - {x}, b - {x});
    }
  }

  /** A release with an offset still to sample is not fully sampled. */
  lemma NotFull(sampled: set<Offset>, o: Offset)
    requires o !in sampled
    ensures |sampled| < |ALL_OFFSETS|
  {
    var all := {T0, T15m, T1h, Eod, T1d, T3d};
    forall x: Offset
      ensures x in all
    {
      assert x == T0 || x == T15m || x == T1h || x == Eod || x == T1d || x == T3d;
    }
    SubsetSize(sampled, all - {o});
  }

  lemma {:induction false} Idle(cfg: Config, w: State, steps: seq<Label>)
    requires forall l | l in steps :: Next(cfg, w, l) == Some(w)
    ensures Run(Machine(cfg), w, steps) == Some(w)
  {
    if steps != [] {
      assert Next(cfg, w, steps[0]) == Some(w);
      Idle(cfg, w, steps[1..]);
    }
  }

  /** One more step at the end of a run. */
  lemma Then(cfg: Config, w: State, steps: seq<Label>, v: State, l: Label, u: State)
    requires Run(Machine(cfg), w, steps) == Some(v) && Next(cfg, v, l) == Some(u)
    ensures Run(Machine(cfg), w, steps + [l]) == Some(u)
  {
    RunOne(Machine(cfg), v, l, u);
    RunConcat(Machine(cfg), w, steps, [l]);
  }

  lemma SetTwice<K, V>(m: map<K, V>, k: K, a: V, b: V)
    ensures m[k := a][k := b] == m[k := b]
  {
  }

  class Watcher {
    const cfg: Config
    const store: OwnStore
    var releases: map<string, Release>

    ghost function Now(): State
      reads this, store
    {
      State(releases, store.log)
    }

    constructor (cfg: Config, store: OwnStore)
      ensures this.cfg == cfg && this.store == store && releases == Rebuild(store.log)
    {
      this.cfg, this.store, this.releases := cfg, store, map[];
      new;
      LoadFromStore();
    }

    /** `loadFromStore`: scan the store from sequence 1. */
    method LoadFromStore()
      requires releases == map[]
      modifies this`releases
      ensures releases == Rebuild(store.log)
    {
      var i := 0;
      while i < |store.log|
        invariant 0 <= i <= |store.log|
        invariant releases == Rebuild(store.log[..i])
      {
        RebuildOne(store.log[..i], store.log[i]);
        assert store.log[..i] + [store.log[i]] == store.log[..i + 1];
        releases := LoadOne(releases, store.log[i]);
        i := i + 1;
      }
      assert store.log[..i] == store.log;
    }

    method OfferOne(kind: Kind, f: Feed, now: int) returns (ghost step: Label)
      modifies this`releases, store
      ensures step.Offer? && step.kind == kind && step.feed == f && step.now == now
      ensures Next(cfg, old(Now()), step) == Some(Now())
    {
      var c, ok := Candidate(kind, f, now), false;
      if c.Some? && Accepts(cfg, releases, c.value, now) {
        ok := store.Append(ScheduledEvent(c.value));
        if ok {
          releases := releases[c.value.identity := Release(c.value, {}, None)];
        }
      }
      step := Offer(kind, f, now, ok);
    }

    /** `ingestFilings` and `ingestPressReleases`: offer one page; the cursor moves past all of it,
        whatever was skipped and whatever could not be appended. */
    method Ingest(kind: Kind, feed: seq<Record<Feed>>, cursor: nat, clock: nat -> int)
      returns (next: nat, ghost steps: seq<Label>)
      modifies this`releases, store
      ensures |steps| == |Page(feed, cursor, PAGE_SIZE)|
      ensures forall i {:trigger steps[i]} | 0 <= i < |steps| ::
                && steps[i].Offer? && steps[i].kind == kind && steps[i].now == clock(i)
                && steps[i].feed == Page(feed, cursor, PAGE_SIZE)[i].event
      ensures Run(Machine(cfg), old(Now()), steps) == Some(Now())
      ensures var page := Page(feed, cursor, PAGE_SIZE);
              next == if page == [] then cursor else page[|page| - 1].seqNo + 1
    {
      var page := Page(feed, cursor, PAGE_SIZE);
      var i := 0;
      next, steps := cursor, [];
      while i < |page|
        invariant 0 <= i <= |page| == |Page(feed, cursor, PAGE_SIZE)| && |steps| == i
        invariant forall k {:trigger steps[k]} | 0 <= k < i ::
                    && steps[k].Offer? && steps[k].kind == kind && steps[k].now == clock(k)
                    && steps[k].feed == page[k].event
        invariant Run(Machine(cfg), old(Now()), steps) == Some(Now())
        invariant next == if i == 0 then cursor else page[i - 1].seqNo + 1
      {
        next := page[i].seqNo + 1;
        ghost var before := Now();
        var step := OfferOne(kind, page[i].event, clock(i));
        Then(cfg, old(Now()), steps, before, step, Now());
        steps := steps + [step];
        i := i + 1;
      }
    }

    /** One offset of one release that is neither fully sampled nor past the horizon. */
    method TryOne(id: string, o: Offset, now: int, quote: Quote) returns (ghost step: Label)
      requires id in releases && now - releases[id].sched.releaseTime <= cfg.horizon
      modifies this`releases, store
      ensures step.Try? && step.id == id && step.offset == o && step.at == now && step.quote == quote
      ensures Next(cfg, old(Now()), step) == Some(Now())
      ensures id in releases && releases[id].sched == old(releases[id].sched) && releases.Keys == old(releases.Keys)
    {
      var rs, ok := releases[id], false;
      if o !in rs.sampled && cfg.target(rs.sched.releaseTime, o) <= now && quote.Bar? {
        NotFull(rs.sampled, o);
        var kept := Remember(rs, o, quote.close);
        releases := releases[id := kept];
        ok := store.Append(SampleEvent(MakeSample(cfg, id, rs, o, now, quote.close)));
        if ok {
          SetTwice(old(releases), id, kept, kept.(sampled := rs.sampled + {o}));
          releases := releases[id := kept.(sampled := rs.sampled + {o})];
        }
      }
      step := Try(id, o, now, quote, ok);
    }

    method SampleRelease(id: string, now: int, quotes: (string, Offset) -> Quote) returns (ghost steps: seq<Label>)
      requires id in releases
      modifies this`releases, store
      ensures Attempts(steps, id, now, quotes) && releases.Keys == old(releases.Keys)
      ensures Run(Machine(cfg), old(Now()), steps) == Some(Now())
    {
      var rs := releases[id];
      if |rs.sampled| >= |ALL_OFFSETS| || now - rs.sched.releaseTime > cfg.horizon {
        steps := seq(|ALL_OFFSETS|, j requires 0 <= j < |ALL_OFFSETS| =>
          Try(id, ALL_OFFSETS[j], now, quotes(id, ALL_OFFSETS[j]), false));
        Idle(cfg, Now(), steps);
        return;
      }
      steps := [];
      for j := 0 to |ALL_OFFSETS|
        invariant |steps| == j && id in releases && releases[id].sched == rs.sched && releases.Keys == old(releases.Keys)
        invariant forall k | 0 <= k < j ::
                    && steps[k].Try? && steps[k].id == id && steps[k].offset == ALL_OFFSETS[k] && steps[k].at == now
                    && steps[k].quote == quotes(id, ALL_OFFSETS[k])
        invariant Run(Machine(cfg), old(Now()), steps) == Some(Now())
      {
        ghost var before := Now();
        var step := TryOne(id, ALL_OFFSETS[j], now, quotes(id, ALL_OFFSETS[j]));
        Then(cfg, old(Now()), steps, before, step, Now());
        steps := steps + [step];
      }
    }

    /** `sampleDue`: every tracked release, in whatever order the map yields them. */
    method SampleDue(now: int, quotes: (string, Offset) -> Quote)
      returns (ghost ids: seq<string>, ghost steps: seq<Label>)
      modifies this`releases, store
      ensures Visits(steps, ids, now, quotes)
      ensures (set id | id in ids) == old(releases.Keys) && |ids| == |old(releases.Keys)|
      ensures Run(Machine(cfg), old(Now()), steps) == Some(Now())
    {
      var left := releases.Keys;
      ids, steps := [], [];
      while left != {}
        invariant left <= releases.Keys == old(releases.Keys)
        invariant Visited(ids, left, releases.Keys)
        invariant Visits(steps, ids, now, quotes)
        invariant Run(Machine(cfg), old(Now()), steps) == Some(Now())
        decreases |left|
      {
        var id :| id in left;
        ghost var before := Now();
        ghost var more := SampleRelease(id, now, quotes);
        RunConcat(Machine(cfg), old(Now()), steps, more);
        VisitsOne(steps, ids, more, id, now, quotes);
        VisitedOne(ids, left, releases.Keys, id);
        left, ids, steps := left - {id}, ids + [id], steps + more;
      }
    }
  }

  /** The releases visited are those not left, each once. */
  ghost predicate Visited(ids: seq<string>, left: set<string>, all: set<string>) {
    (set id | id in ids) == all - left && |ids| + |left| == |all|
  }

  lemma VisitedOne(ids: seq<string>, left: set<string>, all: set<string>, id: string)
    requires Visited(ids, left, all) && id in left && left <= all
    ensures Visited(ids + [id], left - {id}, all)
  {
    assert (set x | x in ids + [id]) == (set x | x in ids) + {id};
  }

  lemma VisitsOne(steps: seq<Label>, ids: seq<string>, more: seq<Label>, id: string, now: int,
                  quotes: (string, Offset) -> Quote)
    requires Visits(steps, ids, now, quotes) && Attempts(more, id, now, quotes)
    ensures Visits(steps + more, ids + [id], now, quotes)
  {
    assert (steps + more)[..|steps|] == steps && (steps + more)[|steps|..] == more;
    assert (ids + [id])[..|ids|] == ids;
  }
}
