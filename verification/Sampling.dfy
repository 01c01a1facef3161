/**
 When the price-reaction watcher stores what: read off its own store alone, over every run of the
 tracker's machine.
 */
module Sampling {
  import opened Wrappers
  import opened Runs
  import opened Schedule
  import opened Tracker

  /** The store holds a sample of this offset of this identity. */
  ghost predicate HasSample(log: seq<Event>, id: string, o: Offset) {
    exists e :: e in log && e.SampleEvent? && e.sample.identity == id && e.sample.offset == o
  }

  ghost predicate HasSchedule(log: seq<Event>, id: string) {
    exists e :: e in log && e.ScheduledEvent? && e.sched.identity == id
  }

  /** A sample of a release scheduled before it, for its own time, taken neither before that time nor
      after the horizon. */
  ghost predicate InTime(cfg: Config, before: seq<Event>, s: Sample) {
    exists e :: e in before && e.ScheduledEvent? && Fits(cfg, e.sched, s)
  }

  predicate Fits(cfg: Config, sched: Scheduled, s: Sample) {
    && s.identity == sched.identity && s.ticker == sched.ticker
    && s.target == cfg.target(sched.releaseTime, s.offset)
    && s.target <= s.sampledAt && s.sampledAt - sched.releaseTime <= cfg.horizon
  }

  ghost predicate AllInTime(cfg: Config, log: seq<Event>) {
    forall i {:trigger log[i]} | 0 <= i < |log| && log[i].SampleEvent? :: InTime(cfg, log[..i], log[i].sample)
  }

  // ---- what a reload finds is in the store ----

  /** What a restart loads under an identity. */
  lemma {:induction false} LoadedFrom(log: seq<Event>, id: string)
    ensures id in Rebuild(log) ==>
              ScheduledEvent(Rebuild(log)[id].sched) in log && Rebuild(log)[id].sched.identity == id
    ensures id in Rebuild(log) ==> forall o | o in Rebuild(log)[id].sampled :: HasSample(log, id, o)
    decreases |log|
  {
    if log != [] {
      var init, last := log[..|log| - 1], log[|log| - 1];
      assert log == init + [last] && last in log;
      LoadedFrom(init, id);
      if id in Rebuild(log) {
        forall o | o in Rebuild(log)[id].sampled
          ensures HasSample(log, id, o)
        {
          if !(last.SampleEvent? && last.sample.identity == id && last.sample.offset == o) {
            assert HasSample(init, id, o);
          }
        }
      }
    }
  }

  lemma TheSchedule(log: seq<Event>, a: Scheduled, b: Scheduled)
    requires Once(log) && ScheduledEvent(a) in log && ScheduledEvent(b) in log && a.identity == b.identity
    ensures a == b
  {
    var i :| 0 <= i < |log| && log[i] == ScheduledEvent(a);
    var j :| 0 <= j < |log| && log[j] == ScheduledEvent(b);
    assert KeyOf(log[i]) == KeyOf(log[j]) != NoKey;
  }

  /** What the live tracker knows of an identity is what the store holds of it. */
  lemma Known(w: State, id: string)
    requires Inv(w)
    ensures id in w.releases <==> HasSchedule(w.log, id)
    ensures id in w.releases ==> ScheduledEvent(w.releases[id].sched) in w.log && w.releases[id].sched.identity == id
    ensures id in w.releases ==> forall o :: o in w.releases[id].sampled <==> HasSample(w.log, id, o)
  {
    LoadedFrom(w.log, id);
    assert id in w.releases ==> id in Rebuild(w.log) && Rebuild(w.log)[id] == Stored(w.releases[id]);
    if HasSchedule(w.log, id) {
      var e :| e in w.log && e.ScheduledEvent? && e.sched.identity == id;
      assert Shown(w.releases, e);
    }
    forall o | HasSample(w.log, id, o)
      ensures id in w.releases && o in w.releases[id].sampled
    {
      var e :| e in w.log && e.SampleEvent? && e.sample.identity == id && e.sample.offset == o;
      assert Shown(w.releases, e);
    }
  }

  /** The tracker samples a price when, by the store, it is time for an offset not sampled yet. */
  lemma DueIff(cfg: Config, w: State, sched: Scheduled, o: Offset, now: int)
    requires Inv(w) && ScheduledEvent(sched) in w.log
    ensures sched.identity in w.releases && w.releases[sched.identity].sched == sched
    ensures Due(cfg, w.releases[sched.identity], o, now)
       <==> && !HasSample(w.log, sched.identity, o)
            && cfg.target(sched.releaseTime, o) <= now && now - sched.releaseTime <= cfg.horizon
  {
    Known(w, sched.identity);
    TheSchedule(w.log, sched, w.releases[sched.identity].sched);
    var rs := w.releases[sched.identity];
    if o !in rs.sampled {
      NotFull(rs.sampled, o);
    }
  }

  // ---- every step ----

  /** After any run, a try of an offset of a scheduled release stores a sample exactly when the quote
      has a price, the append succeeds, the store has no sample of that offset, and it is neither
      before its target time nor past the horizon. The sample says what was tried, at what time and
      price. */
  lemma TryStoresIff(cfg: Config, ls: seq<Label>, sched: Scheduled, o: Offset, now: int, quote: Quote, stored: bool)
    requires Run(Machine(cfg), EMPTY, ls).Some?
    requires ScheduledEvent(sched) in Run(Machine(cfg), EMPTY, ls).value.log
    ensures var w := Run(Machine(cfg), EMPTY, ls).value;
            var v := Next(cfg, w, Try(sched.identity, o, now, quote, stored));
            && v.Some?
            && (if && stored && quote.Bar? && !HasSample(w.log, sched.identity, o)
                   && cfg.target(sched.releaseTime, o) <= now && now - sched.releaseTime <= cfg.horizon
                then
                  && |v.value.log| == |w.log| + 1 && w.log <= v.value.log
                  && var e := v.value.log[|w.log|];
                     && e.SampleEvent? && Fits(cfg, sched, e.sample)
                     && e.sample.offset == o && e.sample.sampledAt == now && e.sample.price == quote.close
                else v.value.log == w.log)
  {
    RunInv(cfg, ls);
    var w := Run(Machine(cfg), EMPTY, ls).value;
    DueIff(cfg, w, sched, o, now);
  }

  /** After any run, a filing offered is scheduled exactly when it has a ticker, its identity is not
      in the store, it is not past the horizon, and the append succeeds; one without a time counts as
      released now. A press release likewise, under its URL when it has no key. */
  lemma OfferStoresIff(cfg: Config, ls: seq<Label>, kind: Kind, feed: Feed, now: int, appended: bool)
    requires Run(Machine(cfg), EMPTY, ls).Some? && (feed.Filing? || feed.Press?)
    ensures var w := Run(Machine(cfg), EMPTY, ls).value;
            var v := Next(cfg, w, Offer(kind, feed, now, appended));
            var time := if feed.Filing? then feed.released else feed.discovered;
            var released := if time.None? then now else time.value;
            var id := if feed.Filing? then feed.identity else if feed.partitionKey != "" then feed.partitionKey else feed.url;
            && v.Some?
            && v.value.log == w.log +
                 if && appended && feed.ticker != "" && (feed.Filing? <==> kind == FilingKind)
                    && !HasSchedule(w.log, id) && now - released <= cfg.horizon
                 then [ScheduledEvent(Scheduled(id, feed.ticker, kind, if feed.Filing? then feed.form else feed.headline, released))]
                 else []
  {
    RunInv(cfg, ls);
    var w := Run(Machine(cfg), EMPTY, ls).value;
    Known(w, if feed.Filing? then feed.identity else if feed.partitionKey != "" then feed.partitionKey else feed.url);
  }

  lemma InTimeNext(cfg: Config, log: seq<Event>, e: Event)
    requires AllInTime(cfg, log) && (e.SampleEvent? ==> InTime(cfg, log, e.sample))
    ensures AllInTime(cfg, log + [e])
  {
    var more := log + [e];
    forall i {:trigger more[i]} | 0 <= i < |more| && more[i].SampleEvent?
      ensures InTime(cfg, more[..i], more[i].sample)
    {
      if i < |log| {
        assert more[..i] == log[..i] && more[i] == log[i];
      } else {
        assert more[..i] == log;
      }
    }
  }

  lemma StepInTime(cfg: Config, w: State, l: Label)
    requires Inv(w) && AllInTime(cfg, w.log) && Next(cfg, w, l).Some?
    ensures AllInTime(cfg, Next(cfg, w, l).value.log)
  {
    var v := Next(cfg, w, l).value;
    if v.log != w.log {
      if l.Try? {
        Known(w, l.id);
        DueIff(cfg, w, w.releases[l.id].sched, l.offset, l.at);
        assert Fits(cfg, w.releases[l.id].sched, v.log[|w.log|].sample);
      }
      InTimeNext(cfg, w.log, v.log[|w.log|]);
    }
  }

  /** Over every run, whatever fails and restarts, each sample in the store is of a release scheduled
      before it, for the target time of its offset, and was taken at or after that time and within the
      horizon. */
  lemma SamplesInTime(cfg: Config, ls: seq<Label>)
    requires Run(Machine(cfg), EMPTY, ls).Some?
    ensures AllInTime(cfg, Run(Machine(cfg), EMPTY, ls).value.log)
  {
    var inv := (w: State) => Inv(w) && AllInTime(cfg, w.log);
    forall w, l | inv(w) && Machine(cfg)(w, l).Some?
      ensures inv(Machine(cfg)(w, l).value)
    {
      StepKeeps(cfg, w, l);
      StepInTime(cfg, w, l);
    }
    var any := (w: State, l: Label) => true;
    AllAllowed(Machine(cfg), any, EMPTY, ls);
    Keeps(Machine(cfg), inv, any, EMPTY, ls);
  }

  // ---- a whole pass ----

  /** Still due at this time. */
  predicate Waiting(cfg: Config, w: State, id: string, o: Offset, now: int) {
    id in w.releases && Due(cfg, w.releases[id], o, now)
  }

  lemma TryStep(cfg: Config, w: State, l: Label, id: string, o: Offset)
    requires l.Try? && Next(cfg, w, l).Some?
    ensures var v := Next(cfg, w, l).value;
            && (Waiting(cfg, v, id, o, l.at) ==> Waiting(cfg, w, id, o, l.at))
            && (l.id == id && l.offset == o && l.quote.Bar? && l.stored ==> !Waiting(cfg, v, id, o, l.at))
  {
    if l.id == id && id in w.releases && o !in w.releases[id].sampled {
      NotFull(w.releases[id].sampled, o);
    }
  }

  /** Once something is tried with a price and stored, it is due no more, at that time. */
  lemma {:induction false} TriedOnce(cfg: Config, w: State, ls: seq<Label>, id: string, o: Offset, now: int)
    requires Run(Machine(cfg), w, ls).Some? && forall l | l in ls :: l.Try? && l.at == now
    ensures Waiting(cfg, Run(Machine(cfg), w, ls).value, id, o, now) ==>
              && Waiting(cfg, w, id, o, now)
              && forall l | l in ls && l.id == id && l.offset == o :: !(l.quote.Bar? && l.stored)
    decreases |ls|
  {
    if ls != [] {
      var v := Next(cfg, w, ls[0]).value;
      assert Machine(cfg)(w, ls[0]) == Some(v) && ls[0] in ls && forall l | l in ls[1..] :: l in ls;
      TryStep(cfg, w, ls[0], id, o);
      TriedOnce(cfg, v, ls[1..], id, o, now);
    }
  }

  ghost predicate Tries(steps: seq<Label>, id: string, o: Offset) {
    exists l :: l in steps && l.Try? && l.id == id && l.offset == o
  }

  /** A pass tries at one time, with the prices it has. */
  lemma {:induction false} VisitsOnly(steps: seq<Label>, ids: seq<string>, now: int, quotes: (string, Offset) -> Quote)
    requires Visits(steps, ids, now, quotes)
    ensures forall l | l in steps :: l.Try? && l.at == now && l.quote == quotes(l.id, l.offset)
    decreases |ids|
  {
    if ids != [] {
      var k := |steps| - |ALL_OFFSETS|;
      var init, last := steps[..k], steps[k..];
      VisitsOnly(init, ids[..|ids| - 1], now, quotes);
      assert steps == init + last;
      forall l | l in last
        ensures l.Try? && l.at == now && l.quote == quotes(l.id, l.offset)
      {
        var j :| 0 <= j < |last| && last[j] == l;
      }
    }
  }

  /** A pass tries every offset of each release it visits. */
  lemma {:induction false} VisitsAll(
      steps: seq<Label>, ids: seq<string>, now: int, quotes: (string, Offset) -> Quote, id: string, o: Offset)
    requires Visits(steps, ids, now, quotes) && id in ids
    ensures Tries(steps, id, o)
    decreases |ids|
  {
    var n, k := |ids| - 1, |steps| - |ALL_OFFSETS|;
    assert Attempts(steps[k..], ids[n], now, quotes) && Visits(steps[..k], ids[..n], now, quotes);
    if id == ids[n] {
      AttemptsAll(steps[k..], id, now, quotes, o);
      TriesMore(steps, k, id, o);
    } else {
      InInit(ids, id);
      VisitsAll(steps[..k], ids[..n], now, quotes, id, o);
      TriesMore(steps, k, id, o);
    }
  }

  lemma InInit<T>(s: seq<T>, x: T)
    requires x in s && x != s[|s| - 1]
    ensures x in s[..|s| - 1]
  {
  }

  lemma AttemptsAll(steps: seq<Label>, id: string, now: int, quotes: (string, Offset) -> Quote, o: Offset)
    requires Attempts(steps, id, now, quotes)
    ensures Tries(steps, id, o)
  {
    var l := steps[Place(o)];
    assert l in steps && l.Try? && l.id == id && l.offset == o;
  }

  lemma TriesMore(steps: seq<Label>, k: nat, id: string, o: Offset)
    requires k <= |steps| && (Tries(steps[..k], id, o) || Tries(steps[k..], id, o))
    ensures Tries(steps, id, o)
  {
    var l :| (l in steps[..k] || l in steps[k..]) && l.Try? && l.id == id && l.offset == o;
    assert l in steps;
  }

  function Place(o: Offset): (j: nat)
    ensures j < |ALL_OFFSETS| && ALL_OFFSETS[j] == o
  {
    match o
    case T0 => 0
    case T15m => 1
    case T1h => 2
    case Eod => 3
    case T1d => 4
    case T3d => 5
  }

  /** After a sampling pass nothing with a price is still due, of any release, but what could not be
      appended: by the store, an offset of a scheduled release that is past its target time and within
      the horizon then has its sample. */
  lemma PassSamplesDue(cfg: Config, ls: seq<Label>, steps: seq<Label>, ids: seq<string>, now: int,
                       quotes: (string, Offset) -> Quote, sched: Scheduled, o: Offset)
    requires Run(Machine(cfg), EMPTY, ls).Some? && Run(Machine(cfg), Run(Machine(cfg), EMPTY, ls).value, steps).Some?
    requires Visits(steps, ids, now, quotes) && sched.identity in ids
    requires ScheduledEvent(sched) in Run(Machine(cfg), EMPTY, ls).value.log
    requires quotes(sched.identity, o).Bar? && cfg.target(sched.releaseTime, o) <= now <= sched.releaseTime + cfg.horizon
    requires forall l | l in steps && l.Try? && l.id == sched.identity && l.offset == o :: l.stored
    ensures HasSample(Run(Machine(cfg), Run(Machine(cfg), EMPTY, ls).value, steps).value.log, sched.identity, o)
  {
    var w := Run(Machine(cfg), EMPTY, ls).value;
    var v := Run(Machine(cfg), w, steps).value;
    VisitsOnly(steps, ids, now, quotes);
    VisitsAll(steps, ids, now, quotes, sched.identity, o);
    TriedOnce(cfg, w, steps, sched.identity, o, now);
    RunConcat(Machine(cfg), EMPTY, ls, steps);
    RunInv(cfg, ls + steps);
    LogGrows(cfg, w, steps);
    assert ScheduledEvent(sched) in v.log;
    DueIff(cfg, v, sched, o, now);
  }

  lemma {:induction false} LogGrows(cfg: Config, w: State, ls: seq<Label>)
    requires Run(Machine(cfg), w, ls).Some?
    ensures w.log <= Run(Machine(cfg), w, ls).value.log
    decreases |ls|
  {
    if ls != [] {
      var v := Next(cfg, w, ls[0]).value;
      assert Machine(cfg)(w, ls[0]) == Some(v) && w.log <= v.log;
      LogGrows(cfg, v, ls[1..]);
    }
  }

  // ---- three trading days, four days' horizon ----

  /** Some run stores a T+3d sample of a release at this time. */
  ghost predicate SampledAfter3d(cfg: Config, release: int) {
    exists ls, i :: SampledAt(cfg, ls, release, i)
  }

  ghost predicate SampledAt(cfg: Config, ls: seq<Label>, release: int, i: int) {
    && Run(Machine(cfg), EMPTY, ls).Some?
    && var log := Run(Machine(cfg), EMPTY, ls).value.log;
       && 0 <= i < |log| && log[i].SampleEvent? && log[i].sample.offset == T3d
       && exists e :: e in log && e.ScheduledEvent? && e.sched.identity == log[i].sample.identity && e.sched.releaseTime == release
  }

  /** With the default horizon and no holidays, a T+3d sample can be stored for releases between Sunday
      and Tuesday at four, and for no others, whatever is fetched and whenever. */
  lemma T3dSampledIff(release: int)
    ensures SampledAfter3d(Defaults(), release) <==> EarlyInWeek(release)
  {
    var cfg := Defaults();
    T3dWithinIff(release);
    if SampledAfter3d(cfg, release) {
      var ls, i :| SampledAt(cfg, ls, release, i);
      NotLater(ls, release, i);
    } else if EarlyInWeek(release) {
      StoreOne(release);
    }
  }

  lemma NotLater(ls: seq<Label>, release: int, i: int)
    requires SampledAt(Defaults(), ls, release, i)
    ensures Target(PlainWeek(), release, T3d) - release <= DEFAULT_HORIZON
  {
    var cfg := Defaults();
    var log := Run(Machine(cfg), EMPTY, ls).value.log;
    SamplesInTime(cfg, ls);
    RunInv(cfg, ls);
    assert InTime(cfg, log[..i], log[i].sample);
    var d :| d in log[..i] && d.ScheduledEvent? && Fits(cfg, d.sched, log[i].sample);
    var e :| e in log && e.ScheduledEvent? && e.sched.identity == log[i].sample.identity && e.sched.releaseTime == release;
    TheSchedule(log, d.sched, e.sched);
  }

  lemma StoreOne(release: int)
    requires Target(PlainWeek(), release, T3d) - release <= DEFAULT_HORIZON
    ensures SampledAfter3d(Defaults(), release)
  {
    var cfg, at := Defaults(), Target(PlainWeek(), release, T3d);
    var offer := Offer(FilingKind, Filing("i", "t", "f", Some(release)), release, true);
    var attempt := Try("i", T3d, at, Bar(1.0), true);
    assert Run(Machine(cfg), EMPTY, []) == Some(EMPTY);
    OfferStoresIff(cfg, [], FilingKind, offer.feed, release, true);
    var w := Next(cfg, EMPTY, offer).value;
    var sched := Scheduled("i", "t", FilingKind, "f", release);
    assert w.log == [ScheduledEvent(sched)];
    RunOne(Machine(cfg), EMPTY, offer, w);
    TryStoresIff(cfg, [offer], sched, T3d, at, Bar(1.0), true);
    var v := Next(cfg, w, attempt).value;
    Then(cfg, EMPTY, [offer], w, attempt, v);
    assert !HasSample(w.log, "i", T3d);
    assert v.log[0] == ScheduledEvent(sched);
    assert SampledAt(cfg, [offer] + [attempt], release, 1);
  }
}
