/** When the prices of a release are to be sampled, on the market's own calendar. Times are in seconds. */
module Schedule {

  const MINUTE := 60
  const HOUR := 60 * MINUTE

  datatype Offset = T0 | T15m | T1h | Eod | T1d | T3d

  /** In the order of `AllOffsets`. */
  const ALL_OFFSETS := [T0, T15m, T1h, Eod, T1d, T3d]

  /** The days of the market's time zone, by number: when each begins, which one a time is on, and on
      which the market is open, or closes early. */
  datatype Market = Market(midnight: int -> int, dayOf: int -> int, open: int -> bool, early: int -> bool)

  /** The market is not closed for more days on end than this. */
  const GAP: nat := 7

  predicate OpenWithin(m: Market, day: int, days: nat) {
    exists e | day <= e <= day + days :: m.open(e)
  }

  /** A day is long enough for its close. */
  predicate LongDay(m: Market, day: int) {
    m.midnight(day) + 17 * HOUR <= m.midnight(day + 1)
  }

  predicate OnDay(m: Market, t: int) {
    m.midnight(m.dayOf(t)) <= t < m.midnight(m.dayOf(t) + 1)
  }

  ghost predicate Valid(m: Market) {
    && (forall d :: LongDay(m, d)) && (forall t :: OnDay(m, t))
    && forall d :: OpenWithin(m, d, GAP)
  }

  /** `tradingDayClose`. */
  function Close(m: Market, day: int): int {
    m.midnight(day) + if m.early(day) then 13 * HOUR else 16 * HOUR
  }

  function FirstOpen(m: Market, day: int, days: nat): int
    decreases days
  {
    if days == 0 || m.open(day) then day else FirstOpen(m, day + 1, days - 1)
  }

  /** `nextTradingDay`. */
  function NextOpen(m: Market, day: int): int {
    FirstOpen(m, day + 1, GAP)
  }

  /** `eodTradingDay`. */
  function EodDay(m: Market, release: int): int {
    var day := m.dayOf(release);
    if m.open(day) && release < Close(m, day) then day else NextOpen(m, day)
  }

  /** `TargetTime`. */
  function Target(m: Market, release: int, o: Offset): int {
    match o
    case T0 => release
    case T15m => release + 15 * MINUTE
    case T1h => release + HOUR
    case Eod => Close(m, EodDay(m, release))
    case T1d => Close(m, NextOpen(m, EodDay(m, release)))
    case T3d => Close(m, NextOpen(m, NextOpen(m, NextOpen(m, EodDay(m, release)))))
  }

  // ---- the next open day ----

  lemma {:induction false} FirstOpenIs(m: Market, day: int, days: nat)
    requires OpenWithin(m, day, days)
    ensures var d := FirstOpen(m, day, days);
            day <= d <= day + days && m.open(d) && forall e | day <= e < d :: !m.open(e)
    decreases days
  {
    if days > 0 && !m.open(day) {
      FirstOpenIs(m, day + 1, days - 1);
    }
  }

  /** The next open day is open, and none before it is. */
  lemma NextOpenIs(m: Market, day: int)
    requires Valid(m)
    ensures var d := NextOpen(m, day); day < d && m.open(d) && forall e | day < e < d :: !m.open(e)
  {
    assert OpenWithin(m, day + 1, GAP);
    FirstOpenIs(m, day + 1, GAP);
  }

  /** The loop of `nextTradingDay`. */
  method NextTradingDay(m: Market, day: int) returns (d: int)
    requires Valid(m)
    ensures d == NextOpen(m, day)
  {
    NextOpenIs(m, day);
    d := day + 1;
    while !m.open(d)
      invariant day < d <= NextOpen(m, day)
      decreases NextOpen(m, day) - d
    {
      d := d + 1;
    }
  }

  // ---- closes ----

  lemma {:induction false} DaysApart(m: Market, d: int, e: int)
    requires Valid(m) && d < e
    ensures m.midnight(d) + 17 * HOUR <= m.midnight(e)
    decreases e - d
  {
    assert LongDay(m, d);
    if d + 1 < e {
      DaysApart(m, d + 1, e);
    }
  }

  /** Later days close later. */
  lemma ClosesInOrder(m: Market, d: int, e: int)
    requires Valid(m)
    ensures Close(m, d) < Close(m, e) <==> d < e
  {
    if d < e {
      DaysApart(m, d, e);
    } else if e < d {
      DaysApart(m, e, d);
    }
  }

  /** The market closes at this time: at four in the afternoon of an open day, or at one. */
  ghost predicate IsClose(m: Market, x: int) {
    exists d :: m.open(d) && x == m.midnight(d) + if m.early(d) then 46_800 else 57_600
  }

  /** `x` is the first close of the market after `t`. */
  ghost predicate FirstClose(m: Market, t: int, x: int) {
    IsClose(m, x) && t < x && forall y | IsClose(m, y) && t < y :: x <= y
  }

  /** The day of a release, when the market is open and has not closed, and otherwise the next open
      day, is the one of the first close after it. */
  lemma EodIsFirst(m: Market, release: int)
    requires Valid(m)
    ensures m.open(EodDay(m, release)) && FirstClose(m, release, Close(m, EodDay(m, release)))
  {
    var today, d := m.dayOf(release), EodDay(m, release);
    NextOpenIs(m, today);
    assert OnDay(m, release);
    if d != today {
      DaysApart(m, today, d);
      ClosesInOrder(m, today, d);
      assert release < m.midnight(d) by {
        if d > today + 1 {
          DaysApart(m, today + 1, d);
        }
      }
    }
    forall y | IsClose(m, y) && release < y
      ensures Close(m, d) <= y
    {
      var e :| m.open(e) && y == Close(m, e);
      ClosesInOrder(m, e, d);
      if e < today {
        DaysApart(m, e, today);
      }
    }
  }

  lemma NextCloseIs(m: Market, day: int)
    requires Valid(m)
    ensures m.open(NextOpen(m, day)) && FirstClose(m, Close(m, day), Close(m, NextOpen(m, day)))
  {
    var d := NextOpen(m, day);
    NextOpenIs(m, day);
    ClosesInOrder(m, day, d);
    forall y | IsClose(m, y) && Close(m, day) < y
      ensures Close(m, d) <= y
    {
      var e :| m.open(e) && y == Close(m, e);
      ClosesInOrder(m, day, e);
      ClosesInOrder(m, e, d);
    }
  }

  /** On any calendar EOD is the first close of the market after the release, T+1d the second, and T+3d
      the fourth. */
  lemma TargetsAreCloses(m: Market, release: int)
    requires Valid(m)
    ensures FirstClose(m, release, Target(m, release, Eod))
    ensures FirstClose(m, Target(m, release, Eod), Target(m, release, T1d))
    ensures exists second :: FirstClose(m, Target(m, release, T1d), second) && FirstClose(m, second, Target(m, release, T3d))
  {
    EodIsFirst(m, release);
    var d0 := EodDay(m, release);
    var d1 := NextOpen(m, d0);
    var d2 := NextOpen(m, d1);
    NextCloseIs(m, d0);
    NextCloseIs(m, d1);
    NextCloseIs(m, d2);
    assert FirstClose(m, Target(m, release, T1d), Close(m, d2));
  }

  /** The offsets become due in the order they are listed in if and only if the market does not close
      within an hour of the release; otherwise EOD is due before T+1h. */
  lemma DueInOrderIff(m: Market, release: int)
    requires Valid(m)
    ensures (forall i, j | 0 <= i < j < |ALL_OFFSETS| ::
               Target(m, release, ALL_OFFSETS[i]) <= Target(m, release, ALL_OFFSETS[j]))
       <==> !exists x | release < x < release + HOUR :: IsClose(m, x)
  {
    TargetsAreCloses(m, release);
    var second :| FirstClose(m, Target(m, release, T1d), second) && FirstClose(m, second, Target(m, release, T3d));
    var eod := Target(m, release, Eod);
    assert IsClose(m, eod) && release < eod;
    assert ALL_OFFSETS[2] == T1h && ALL_OFFSETS[3] == Eod;
    if release + HOUR <= eod {
      forall i, j | 0 <= i < j < |ALL_OFFSETS|
        ensures Target(m, release, ALL_OFFSETS[i]) <= Target(m, release, ALL_OFFSETS[j])
      {
      }
    }
  }

  // ---- a week without holidays ----

  /** Days of 24 hours, day 0 a Monday, the market open on weekdays until four. */
  function PlainWeek(): Market {
    Market((d: int) => d * 86_400, (t: int) => t / 86_400, (d: int) => d % 7 < 5, (d: int) => false)
  }

  function At(day: int, time: int): int {
    day * 86_400 + time
  }

  lemma AtIs(t: int)
    ensures t == At(t / 86_400, t % 86_400)
  {
  }

  lemma PlainValid()
    ensures Valid(PlainWeek())
  {
    var m := PlainWeek();
    assert forall d :: LongDay(m, d);
    forall t
      ensures OnDay(m, t)
    {
      AtIs(t);
    }
    forall d
      ensures OpenWithin(m, d, GAP)
    {
      var e := if d % 7 < 5 then d else d + 7 - d % 7;
      assert m.open(e);
    }
  }

  /** How many days it is to the next open one. */
  function Ahead(weekday: int): int {
    if weekday == 4 then 3 else if weekday == 5 then 2 else 1
  }

  lemma OpenStep(m: Market, day: int, days: nat)
    requires days > 0
    ensures FirstOpen(m, day, days) == if m.open(day) then day else FirstOpen(m, day + 1, days - 1)
  {
  }

  lemma PlainNext(day: int)
    ensures NextOpen(PlainWeek(), day) == day + Ahead(day % 7)
  {
    var m := PlainWeek();
    OpenStep(m, day + 1, 7);
    OpenStep(m, day + 2, 6);
    OpenStep(m, day + 3, 5);
    assert m.open(day + Ahead(day % 7));
  }

  lemma WeekdayLater(day: int, k: nat)
    ensures (day + k) % 7 == (day % 7 + k) % 7
  {
  }

  lemma PlainThird(day: int)
    requires day % 7 < 5
    ensures var m := PlainWeek(); NextOpen(m, NextOpen(m, NextOpen(m, day))) == day + if day % 7 < 2 then 3 else 5
  {
    var a := Ahead(day % 7);
    var b := Ahead((day + a) % 7);
    PlainNext(day);
    PlainNext(day + a);
    PlainNext(day + a + b);
    WeekdayLater(day, a);
    WeekdayLater(day, a + b);
  }

  /** Days to wait for the day of the EOD close. */
  function Wait(weekday: int, time: int): int {
    if weekday < 5 && time < 57_600 then 0 else Ahead(weekday)
  }

  lemma PlainEod(release: int)
    ensures var day, time := release / 86_400, release % 86_400;
            EodDay(PlainWeek(), release) == day + Wait(day % 7, time)
  {
    var day, time := release / 86_400, release % 86_400;
    AtIs(release);
    PlainNext(day);
    assert Close(PlainWeek(), day) == At(day, 57_600);
  }

  /** Days from a release to its T+3d close: three after the day of its EOD close, five over a weekend. */
  function ToT3d(weekday: int, time: int): int {
    Wait(weekday, time) + if (weekday + Wait(weekday, time)) % 7 < 2 then 3 else 5
  }

  lemma T3dIs(release: int)
    ensures var day, time := release / 86_400, release % 86_400;
            Target(PlainWeek(), release, T3d) == At(day + ToT3d(day % 7, time), 57_600)
  {
    var day, time := release / 86_400, release % 86_400;
    PlainEod(release);
    ThirdAfter(day, Wait(day % 7, time));
    WaitEndsOpen(day % 7, time);
    T3dClose(release, day + Wait(day % 7, time), day + ToT3d(day % 7, time));
  }

  lemma ThirdAfter(day: int, wait: nat)
    requires (day % 7 + wait) % 7 < 5
    ensures var m := PlainWeek();
            NextOpen(m, NextOpen(m, NextOpen(m, day + wait))) == day + wait + if (day % 7 + wait) % 7 < 2 then 3 else 5
  {
    WeekdayLater(day, wait);
    PlainThird(day + wait);
  }

  lemma T3dClose(release: int, eod: int, day: int)
    requires var m := PlainWeek(); EodDay(m, release) == eod && NextOpen(m, NextOpen(m, NextOpen(m, eod))) == day
    ensures Target(PlainWeek(), release, T3d) == At(day, 57_600)
  {
  }

  lemma WaitEndsOpen(weekday: int, time: int)
    requires 0 <= weekday < 7
    ensures (weekday + Wait(weekday, time)) % 7 < 5
  {
  }

  /** `--horizon` unless it is set: 96 hours. */
  const DEFAULT_HORIZON := 345_600

  /** Between Sunday and Tuesday at four. */
  predicate EarlyInWeek(release: int) {
    var weekday, time := release / 86_400 % 7, release % 86_400;
    weekday == 0 || (weekday == 1 && time < 57_600) || (weekday == 6 && time >= 57_600)
  }

  /** In a week without holidays the T+3d target of a release lies within the default horizon if and
      only if the release is between Sunday and Tuesday at four. */
  lemma T3dWithinIff(release: int)
    ensures Target(PlainWeek(), release, T3d) - release <= DEFAULT_HORIZON <==> EarlyInWeek(release)
  {
    var day, time := release / 86_400, release % 86_400;
    AtIs(release);
    T3dIs(release);
    Apart(day, ToT3d(day % 7, time), time);
    Within(day % 7, time);
  }

  lemma Apart(day: int, days: int, time: int)
    ensures At(day + days, 57_600) - At(day, time) == days * 86_400 + 57_600 - time
  {
  }

  /** The same by day of the week and time of the day. */
  lemma Within(weekday: int, time: int)
    requires 0 <= weekday < 7 && 0 <= time < 86_400
    ensures ToT3d(weekday, time) * 86_400 + 57_600 - time <= DEFAULT_HORIZON
       <==> weekday == 0 || (weekday == 1 && time < 57_600) || (weekday == 6 && time >= 57_600)
  {
  }
}
