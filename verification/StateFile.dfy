/**
 The latest-sequence file under `persistLatestSequence`: a process writes its value to a temporary
 file, whose one name all processes share, and renames that to the final name.
 */
module StateFile {
  import opened Wrappers
  import opened Runs

  type Id = nat
  type Inode = nat

  /** Where a process is in persisting a value. */
  datatype Pc =
    | Created(value: nat, inode: Inode)    // the temporary file opened, and emptied
    | Put(value: nat)                      // written, not yet renamed

  datatype State = State(
    temp: Option<Inode>, final: Option<Inode>, content: map<Inode, string>, next: Inode, procs: map<Id, Pc>)

  datatype Label = Create(p: Id, value: nat) | Write(p: Id) | Rename(p: Id) | Die(p: Id)

  function Digits(n: nat): (d: string)
    ensures d != "" && '\n' !in d
  {
    var last := ['0' + (n % 10) as char];
    if n < 10 then last else Digits(n / 10) + last
  }

  function Line(n: nat): string {
    Digits(n) + "\n"
  }

  /** Writing at the start of a file that may have something in it. */
  function Over(line: string, was: string): string {
    if |was| <= |line| then line else line + was[|line|..]
  }

  function Next(s: State, l: Label): Option<State> {
    match l
    case Create(p, value) =>
      if p in s.procs then None
      else
        var i := if s.temp.Some? then s.temp.value else s.next;
        Some(s.(temp := Some(i), content := s.content[i := ""], next := if s.temp.Some? then s.next else s.next + 1,
                procs := s.procs[p := Created(value, i)]))
    case Write(p) =>
      if p !in s.procs || !s.procs[p].Created? || s.procs[p].inode !in s.content then None
      else
        var (value, i) := (s.procs[p].value, s.procs[p].inode);
        Some(s.(content := s.content[i := Over(Line(value), s.content[i])], procs := s.procs[p := Put(value)]))
    case Rename(p) =>
      if p !in s.procs || !s.procs[p].Put? then None
      else
        var done := s.(procs := s.procs - {p});
        Some(if s.temp.Some? then done.(final := s.temp, temp := None) else done)
    case Die(p) => if p in s.procs then Some(s.(procs := s.procs - {p})) else None
  }

  /** What a reader of the final name finds. */
  function Value(s: State): Option<string> {
    if s.final.Some? && s.final.value in s.content then Some(s.content[s.final.value]) else None
  }

  /** The value a step puts in place: that of a process whose rename succeeds. */
  function Effect(s: State, l: Label): Option<nat> {
    if l.Rename? && l.p in s.procs && s.procs[l.p].Put? && s.temp.Some? then Some(s.procs[l.p].value) else None
  }

  function LastEffect(s: State, ls: seq<Label>): Option<nat>
    decreases |ls|
  {
    if ls == [] || Next(s, ls[0]).None? then None
    else
      var later := LastEffect(Next(s, ls[0]).value, ls[1..]);
      if later.Some? then later else Effect(s, ls[0])
  }

  /** As an atomic replacement would have it: the line of the value renamed last, or what was there. */
  ghost predicate Faithful(s: State, ls: seq<Label>)
    requires Run(Next, s, ls).Some?
  {
    Value(Run(Next, s, ls).value)
    == if LastEffect(s, ls).Some? then Some(Line(LastEffect(s, ls).value)) else Value(s)
  }

  ghost predicate Wf(s: State) {
    && (s.temp.Some? ==> s.temp.value in s.content) && (s.final.Some? ==> s.final.value in s.content)
    && (s.temp.Some? ==> s.temp != s.final)
    && (forall i | i in s.content :: i < s.next)
    && forall p | p in s.procs && s.procs[p].Created? :: s.procs[p].inode in s.content
  }

  /** Those persisting now all persist one value by way of one file. */
  ghost predicate Together(s: State, i: Inode, value: nat) {
    && i in s.content && (s.content[i] == "" || s.content[i] == Line(value))
    && (s.temp.Some? ==> s.temp.value == i)
    && (s.final == Some(i) ==> s.content[i] == Line(value))
    && forall p | p in s.procs ::
         && s.procs[p].value == value
         && (if s.procs[p].Created? then s.procs[p].inode == i else s.content[i] == Line(value))
  }

  ghost predicate Inv(s: State) {
    Wf(s) && (s.procs == map[] || exists i, value :: Together(s, i, value))
  }

  /** Nobody is persisting, or everybody has just emptied the temporary file to write this value. */
  predicate Joins(s: State, value: nat) {
    forall p | p in s.procs :: s.temp.Some? && s.procs[p] == Created(value, s.temp.value)
  }

  predicate Harmless(s: State, l: Label) {
    l.Create? ==> Joins(s, l.value)
  }

  // ---- lines ----

  lemma {:induction false} DigitsDiffer(m: nat, n: nat)
    requires Digits(m) == Digits(n)
    ensures m == n
    decreases m
  {
    var a, b := Digits(m), Digits(n);
    assert a[|a| - 1] == '0' + (m % 10) as char && b[|b| - 1] == '0' + (n % 10) as char;
    assert m % 10 == n % 10;
    if m >= 10 && n >= 10 {
      assert a[..|a| - 1] == Digits(m / 10) && b[..|b| - 1] == Digits(n / 10);
      DigitsDiffer(m / 10, n / 10);
    }
  }

  /** Writing one value's line over another's leaves that one only if they are the same. */
  lemma OverDiffers(m: nat, n: nat)
    ensures Over(Line(m), Line(n)) == Line(n) <==> m == n
  {
    var a, b := Digits(m), Digits(n);
    if Over(Line(m), Line(n)) == Line(n) && m != n {
      assert Line(n)[..|Line(m)|] == Line(m);
      assert Line(n)[|a|] == '\n';
      assert |a| == |b|;
      assert Line(m)[..|a|] == a && Line(n)[..|a|] == b;
      DigitsDiffer(m, n);
    }
  }

  // ---- without harm ----

  lemma CreateKeeps(s: State, p: Id, value: nat)
    requires Inv(s) && p !in s.procs && Joins(s, value)
    ensures var v := Next(s, Create(p, value)).value; Inv(v) && Value(v) == Value(s)
  {
    var v := Next(s, Create(p, value)).value;
    if s.procs != map[] {
      var q :| q in s.procs;
      assert s.temp.Some?;
    }
    assert Together(v, v.temp.value, value);
  }

  lemma WriteKeeps(s: State, p: Id)
    requires Inv(s) && Next(s, Write(p)).Some?
    ensures var v := Next(s, Write(p)).value; Inv(v) && Value(v) == Value(s)
  {
    var v := Next(s, Write(p)).value;
    var i, value :| Together(s, i, value);
    OverDiffers(value, value);
    assert Together(v, i, value);
  }

  lemma RenameKeeps(s: State, p: Id)
    requires Inv(s) && Next(s, Rename(p)).Some?
    ensures var v, e := Next(s, Rename(p)).value, Effect(s, Rename(p));
            Inv(v) && Value(v) == if e.Some? then Some(Line(e.value)) else Value(s)
  {
    var v := Next(s, Rename(p)).value;
    var i, value :| Together(s, i, value);
    assert Together(v, i, value);
  }

  lemma DieKeeps(s: State, p: Id)
    requires Inv(s) && Next(s, Die(p)).Some?
    ensures var v := Next(s, Die(p)).value; Inv(v) && Value(v) == Value(s)
  {
    var i, value :| Together(s, i, value);
    assert Together(Next(s, Die(p)).value, i, value);
  }

  lemma StepFaithful(s: State, l: Label)
    requires Inv(s) && Next(s, l).Some? && Harmless(s, l)
    ensures var v, e := Next(s, l).value, Effect(s, l);
            Inv(v) && Value(v) == if e.Some? then Some(Line(e.value)) else Value(s)
  {
    match l {
      case Create(p, value) => CreateKeeps(s, p, value);
      case Write(p) => WriteKeeps(s, p);
      case Rename(p) => RenameKeeps(s, p);
      case Die(p) => DieKeeps(s, p);
    }
  }

  /** In a run in which no one begins to persist while another is at it, except to write the same value
      to the file the other has just emptied, each persist is one atomic replacement, made by its
      rename. */
  lemma {:induction false} RunFaithful(s: State, ls: seq<Label>)
    requires Inv(s) && Run(Next, s, ls).Some? && Allowed(Next, Harmless, s, ls)
    ensures Inv(Run(Next, s, ls).value) && Faithful(s, ls)
    decreases |ls|
  {
    if ls != [] {
      StepFaithful(s, ls[0]);
      RunFaithful(Next(s, ls[0]).value, ls[1..]);
    }
  }

  // ---- harm ----

  /** A way on in which no one else begins. */
  predicate Completes(ls: seq<Label>) {
    forall l | l in ls :: !l.Create?
  }

  lemma {:induction false} CompletesHarmless(s: State, ls: seq<Label>)
    requires Completes(ls)
    ensures Allowed(Next, Harmless, s, ls)
    decreases |ls|
  {
    if ls != [] && Next(s, ls[0]).Some? {
      assert ls[0] in ls;
      CompletesHarmless(Next(s, ls[0]).value, ls[1..]);
    }
  }

  lemma Steps(s: State, a: Label, v: State, rest: seq<Label>)
    requires Next(s, a) == Some(v)
    ensures Run(Next, s, [a] + rest) == Run(Next, v, rest)
    ensures LastEffect(s, [a] + rest) == if LastEffect(v, rest).Some? then LastEffect(v, rest) else Effect(s, a)
  {
    assert ([a] + rest)[1..] == rest;
  }

  /** A process that has written renames a file another has just emptied. */
  lemma EmptyRenamed(s: State, p: Id) returns (ls: seq<Label>)
    requires p in s.procs && s.procs[p].Put?
    requires s.temp.Some? && s.temp.value in s.content && s.content[s.temp.value] == ""
    ensures Completes(ls) && ls == [Rename(p)] && Run(Next, s, ls).Some?
    ensures Value(Run(Next, s, ls).value) == Some("") && LastEffect(s, ls).Some?
  {
    ls := [Rename(p)] + [];
    Steps(s, Rename(p), s.(procs := s.procs - {p}, final := s.temp, temp := None), []);
  }

  /** A process that is to write to some other file does so, and renames the one just emptied. */
  lemma OtherRenamed(s: State, p: Id) returns (ls: seq<Label>)
    requires p in s.procs && s.procs[p].Created? && s.procs[p].inode in s.content
    requires s.temp.Some? && s.temp.value in s.content && s.content[s.temp.value] == "" && s.procs[p].inode != s.temp.value
    ensures Completes(ls) && Run(Next, s, ls).Some?
    ensures Value(Run(Next, s, ls).value) == Some("") && LastEffect(s, ls).Some?
  {
    var w := Next(s, Write(p)).value;
    var rest := EmptyRenamed(w, p);
    Steps(s, Write(p), w, rest);
    ls := [Write(p)] + rest;
  }

  /** Two processes with different values and one file: the first renames it, the second writes it
      over. */
  lemma WrittenOver(s: State, p: Id, q: Id) returns (ls: seq<Label>)
    requires p in s.procs && q in s.procs && p != q && s.temp.Some? && s.temp.value in s.content && s.content[s.temp.value] == ""
    requires s.procs[p].Created? && s.procs[q].Created? && s.procs[p].inode == s.procs[q].inode == s.temp.value
    requires s.procs[p].value != s.procs[q].value
    ensures Completes(ls) && Run(Next, s, ls).Some? && LastEffect(s, ls) == Some(s.procs[p].value)
    ensures Value(Run(Next, s, ls).value) == Some(Over(Line(s.procs[q].value), Line(s.procs[p].value)))
  {
    var w := Next(s, Write(p)).value;
    var x := Next(w, Rename(p)).value;
    var y := Next(x, Write(q)).value;
    Steps(x, Write(q), y, []);
    Steps(w, Rename(p), x, [Write(q)] + []);
    Steps(s, Write(p), w, [Rename(p)] + ([Write(q)] + []));
    ls := [Write(p)] + ([Rename(p)] + ([Write(q)] + []));
  }

  /** Somebody begins to persist who does not join the others: some way on is not faithful. */
  lemma HarmDone(s: State, q: Id, value: nat) returns (ls: seq<Label>)
    requires Wf(s) && q !in s.procs && !Joins(s, value)
    ensures var v := Next(s, Create(q, value)).value; Completes(ls) && Run(Next, v, ls).Some? && !Faithful(v, ls)
  {
    var v := Next(s, Create(q, value)).value;
    var p :| p in s.procs && !(s.temp.Some? && s.procs[p] == Created(value, s.temp.value));
    LineNotEmpty(s.procs[p].value);
    if s.procs[p].Put? {
      ls := EmptyRenamed(v, p);
    } else if s.procs[p].inode != v.temp.value {
      ls := OtherRenamed(v, p);
    } else {
      ls := WrittenOver(v, p, q);
      OverDiffers(value, s.procs[p].value);
    }
    forall n
      ensures Line(n) != ""
    {
      LineNotEmpty(n);
    }
  }

  lemma LineNotEmpty(n: nat)
    ensures Line(n) != ""
  {
  }

  /** From any state reached without harm, beginning to persist a value leaves every completion an
      atomic replacement if and only if nobody is persisting, or everybody who is has just emptied the
      temporary file to write that same value. Neither `NewFileStore` nor `Append` sees to that. */
  lemma CreateFaithfulIff(s: State, q: Id, value: nat)
    requires Inv(s) && q !in s.procs
    ensures var v := Next(s, Create(q, value)).value;
            (forall ls | Completes(ls) && Run(Next, v, ls).Some? :: Faithful(v, ls)) <==> Joins(s, value)
  {
    var v := Next(s, Create(q, value)).value;
    if Joins(s, value) {
      CreateKeeps(s, q, value);
      forall ls | Completes(ls) && Run(Next, v, ls).Some?
        ensures Faithful(v, ls)
      {
        CompletesHarmless(v, ls);
        RunFaithful(v, ls);
      }
    } else {
      var ls := HarmDone(s, q, value);
    }
  }

  const CLEAN := State(None, None, map[], 0, map[])

  /** An appender that has written its value and an opener with an older one: the appender's rename
      succeeds, and the state file ends up with the older value. */
  lemma OlderValueWins(newer: nat, older: nat)
    requires older < newer
    ensures var ls := [Create(0, newer)] + ([Create(1, older)] + ([Write(0)] + ([Rename(0)] + ([Write(1)] + []))));
            && Run(Next, CLEAN, ls).Some? && LastEffect(CLEAN, ls) == Some(newer)
            && Value(Run(Next, CLEAN, ls).value) == Some(Over(Line(older), Line(newer))) != Some(Line(newer))
  {
    var a := Next(CLEAN, Create(0, newer)).value;
    var b := Next(a, Create(1, older)).value;
    var c := Next(b, Write(0)).value;
    var d := Next(c, Rename(0)).value;
    var e := Next(d, Write(1)).value;
    Steps(d, Write(1), e, []);
    Steps(c, Rename(0), d, [Write(1)] + []);
    Steps(b, Write(0), c, [Rename(0)] + ([Write(1)] + []));
    Steps(a, Create(1, older), b, [Write(0)] + ([Rename(0)] + ([Write(1)] + [])));
    Steps(CLEAN, Create(0, newer), a, [Create(1, older)] + ([Write(0)] + ([Rename(0)] + ([Write(1)] + []))));
    OverDiffers(older, newer);
  }
}
