/**
 The events directory: one journal per calendar day, listed in name order, which for
 date names is day order.
 */
module Directory {
  import opened Wrappers

  type Day = int

  datatype DayFile<+T> = DayFile(day: Day, content: seq<T>)

  ghost predicate Sorted<T>(dir: seq<DayFile<T>>) {
    forall i, j | 0 <= i < j < |dir| :: dir[i].day < dir[j].day
  }

  ghost predicate HasDay<T>(dir: seq<DayFile<T>>, day: Day) {
    exists j :: j in dir && j.day == day
  }

  /** Nothing has been written to a journal later than `day`. */
  ghost predicate QuietAfter<T>(dir: seq<DayFile<T>>, day: Day) {
    forall j | j in dir && j.day > day :: j.content == []
  }

  ghost predicate NoneAfter<T>(dir: seq<DayFile<T>>, day: Day) {
    forall j | j in dir :: j.day <= day
  }

  /** The day of the last journal. */
  function Newest<T>(dir: seq<DayFile<T>>): Option<Day> {
    if dir == [] then None else Some(dir[|dir| - 1].day)
  }

  /** All the journals read in name order. */
  function Concat<T>(dir: seq<DayFile<T>>): seq<T> {
    if dir == [] then [] else dir[0].content + Concat(dir[1..])
  }

  /** Open a day's journal for appending, creating it when it is not there. */
  function OpenDay<T>(dir: seq<DayFile<T>>, day: Day): seq<DayFile<T>> {
    if dir == [] || day < dir[0].day then [DayFile(day, [])] + dir
    else if dir[0].day == day then dir
    else [dir[0]] + OpenDay(dir[1..], day)
  }

  /** Append to a day's journal. */
  function AppendTo<T>(dir: seq<DayFile<T>>, day: Day, xs: seq<T>): seq<DayFile<T>> {
    if dir == [] then []
    else if dir[0].day == day then [DayFile(day, dir[0].content + xs)] + dir[1..]
    else [dir[0]] + AppendTo(dir[1..], day, xs)
  }

  lemma {:induction false} OpenDayMembers<T>(dir: seq<DayFile<T>>, day: Day)
    ensures forall j | j in dir :: j in OpenDay(dir, day)
    ensures forall j | j in OpenDay(dir, day) :: j in dir || j == DayFile(day, [])
    ensures HasDay(OpenDay(dir, day), day)
    ensures Concat(OpenDay(dir, day)) == Concat(dir)
  {
    if dir == [] || day < dir[0].day {
      assert DayFile(day, []) in OpenDay(dir, day);
      assert ([DayFile(day, [])] + dir)[1..] == dir;
    } else if dir[0].day == day {
      assert dir[0] in dir;
    } else {
      OpenDayMembers(dir[1..], day);
      var rest := OpenDay(dir[1..], day);
      assert ([dir[0]] + rest)[1..] == rest;
      var j :| j in rest && j.day == day;
      assert j in OpenDay(dir, day);
    }
  }

  lemma SortedCons<T>(file: DayFile<T>, rest: seq<DayFile<T>>)
    requires Sorted(rest) && forall j | j in rest :: file.day < j.day
    ensures Sorted([file] + rest)
  {
  }

  lemma {:induction false} OpenDaySorted<T>(dir: seq<DayFile<T>>, day: Day)
    requires Sorted(dir)
    ensures Sorted(OpenDay(dir, day))
  {
    if dir == [] || day < dir[0].day {
      SortedCons(DayFile(day, []), dir);
    } else if dir[0].day < day {
      OpenDaySorted(dir[1..], day);
      OpenDayMembers(dir[1..], day);
      SortedCons(dir[0], OpenDay(dir[1..], day));
    }
  }

  lemma ConsMembers<T>(x: T, rest: seq<T>)
    ensures forall j :: j in [x] + rest <==> j == x || j in rest
  {
  }

  lemma {:induction false} AppendToDays<T>(dir: seq<DayFile<T>>, day: Day, xs: seq<T>)
    ensures |AppendTo(dir, day, xs)| == |dir|
    ensures forall i | 0 <= i < |dir| :: AppendTo(dir, day, xs)[i].day == dir[i].day
  {
    if dir != [] && dir[0].day != day {
      AppendToDays(dir[1..], day, xs);
    }
  }

  lemma {:induction false} AppendToMembers<T>(dir: seq<DayFile<T>>, day: Day, xs: seq<T>)
    ensures forall j | j in AppendTo(dir, day, xs) :: j in dir || j.day == day
    ensures forall j | j in dir && j.day != day :: j in AppendTo(dir, day, xs)
  {
    if dir != [] {
      ConsMembers(dir[0], dir[1..]);
      assert dir == [dir[0]] + dir[1..];
      if dir[0].day == day {
        ConsMembers(DayFile(day, dir[0].content + xs), dir[1..]);
      } else {
        AppendToMembers(dir[1..], day, xs);
        ConsMembers(dir[0], AppendTo(dir[1..], day, xs));
      }
    }
  }

  lemma AppendToSorted<T>(dir: seq<DayFile<T>>, day: Day, xs: seq<T>)
    requires Sorted(dir)
    ensures Sorted(AppendTo(dir, day, xs))
  {
    AppendToDays(dir, day, xs);
  }

  lemma AppendToHasDay<T>(dir: seq<DayFile<T>>, day: Day, xs: seq<T>, d: Day)
    requires HasDay(dir, d)
    ensures HasDay(AppendTo(dir, day, xs), d)
  {
    AppendToDays(dir, day, xs);
    var j :| j in dir && j.day == d;
    var i :| 0 <= i < |dir| && dir[i] == j;
    assert AppendTo(dir, day, xs)[i] in AppendTo(dir, day, xs);
  }

  lemma {:induction false} QuietConcat<T>(dir: seq<DayFile<T>>)
    requires forall j | j in dir :: j.content == []
    ensures Concat(dir) == []
  {
    if dir != [] {
      assert dir[0] in dir;
      QuietConcat(dir[1..]);
    }
  }

  lemma ConcatCons<T>(file: DayFile<T>, rest: seq<DayFile<T>>)
    ensures Concat([file] + rest) == file.content + Concat(rest)
  {
    assert ([file] + rest)[1..] == rest;
  }

  /** A day that is not the first one's is one of the others'. */
  lemma LaterDay<T>(dir: seq<DayFile<T>>, day: Day)
    requires Sorted(dir) && HasDay(dir, day) && QuietAfter(dir, day) && dir[0].day != day
    ensures Sorted(dir[1..]) && HasDay(dir[1..], day) && QuietAfter(dir[1..], day)
  {
    var j :| j in dir && j.day == day;
    assert j in dir[1..];
  }

  /** Writing to the last journal that has anything in it extends the log at its end. */
  lemma {:induction false} AppendToConcat<T>(dir: seq<DayFile<T>>, day: Day, xs: seq<T>)
    requires Sorted(dir) && HasDay(dir, day) && QuietAfter(dir, day)
    ensures Concat(AppendTo(dir, day, xs)) == Concat(dir) + xs
  {
    var first, rest := dir[0].content, Concat(dir[1..]);
    if dir[0].day == day {
      QuietConcat(dir[1..]);
      ConcatCons(DayFile(day, first + xs), dir[1..]);
      assert first + xs + [] == first + [] + xs;
    } else {
      LaterDay(dir, day);
      AppendToConcat(dir[1..], day, xs);
      ConcatCons(dir[0], AppendTo(dir[1..], day, xs));
      assert first + (rest + xs) == first + rest + xs;
    }
  }

  lemma {:induction false} AppendToNothing<T>(dir: seq<DayFile<T>>, day: Day)
    ensures AppendTo(dir, day, []) == dir
  {
    if dir != [] {
      assert dir[0].content + [] == dir[0].content;
      assert dir == [dir[0]] + dir[1..];
      AppendToNothing(dir[1..], day);
    }
  }

  lemma {:induction false} AppendToTwice<T>(dir: seq<DayFile<T>>, day: Day, xs: seq<T>, ys: seq<T>)
    ensures AppendTo(AppendTo(dir, day, xs), day, ys) == AppendTo(dir, day, xs + ys)
  {
    if dir != [] {
      if dir[0].day == day {
        assert dir[0].content + xs + ys == dir[0].content + (xs + ys);
      } else {
        AppendToTwice(dir[1..], day, xs, ys);
        var rest := AppendTo(dir[1..], day, xs);
        assert ([dir[0]] + rest)[1..] == rest;
      }
    }
  }

  /** A file of the directory appended to is an old file, or the day's old file grown. */
  lemma {:induction false} AppendToFile<T>(dir: seq<DayFile<T>>, day: Day, xs: seq<T>, f: DayFile<T>)
    requires Sorted(dir) && f in AppendTo(dir, day, xs)
    ensures f.day != day ==> f in dir
    ensures f.day == day ==> exists g :: g in dir && g.day == day && f.content == g.content + xs
  {
    if dir[0].day == day {
      assert dir[0] in dir;
    } else if f != dir[0] {
      AppendToFile(dir[1..], day, xs, f);
    }
  }

  lemma {:induction false} OpenDayThere<T>(dir: seq<DayFile<T>>, day: Day)
    requires Sorted(dir) && HasDay(dir, day)
    ensures OpenDay(dir, day) == dir
  {
    if dir[0].day != day {
      OpenDayThere(dir[1..], day);
    }
  }

  lemma NewestIs<T>(dir: seq<DayFile<T>>, day: Day)
    requires Sorted(dir) && HasDay(dir, day) && NoneAfter(dir, day)
    ensures Newest(dir) == Some(day)
  {
    assert dir[|dir| - 1] in dir;
  }

  lemma NewestLater<T>(dir: seq<DayFile<T>>, day: Day)
    requires Sorted(dir) && HasDay(dir, day)
    ensures Newest(dir).Some? && day <= Newest(dir).value
  {
  }

  /** The newest journal is not later than `day`. */
  predicate Until<T>(dir: seq<DayFile<T>>, day: Day) {
    Newest(dir).Some? ==> Newest(dir).value <= day
  }

  lemma UntilIs<T>(dir: seq<DayFile<T>>, day: Day)
    requires Sorted(dir)
    ensures Until(dir, day) <==> NoneAfter(dir, day)
  {
    assert dir != [] ==> dir[|dir| - 1] in dir;
  }

  /** Opening a journal no other is later than makes it the newest. */
  lemma NewestOpened<T>(dir: seq<DayFile<T>>, day: Day)
    requires Sorted(dir) && NoneAfter(dir, day)
    ensures Newest(OpenDay(dir, day)) == Some(day)
    ensures Newest(dir).Some? ==> Newest(dir).value <= day
  {
    OpenDayMembers(dir, day);
    OpenDaySorted(dir, day);
    NewestIs(OpenDay(dir, day), day);
    assert dir != [] ==> dir[|dir| - 1] in dir;
  }

  lemma NewestAppended<T>(dir: seq<DayFile<T>>, day: Day, xs: seq<T>)
    ensures Newest(AppendTo(dir, day, xs)) == Newest(dir)
  {
    AppendToDays(dir, day, xs);
  }
}
