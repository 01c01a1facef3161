/**
 The observation watcher's batched poll: it hands the observation files newer than a
 cursor to one invocation of a command, at most twenty at a time.
 */
module BatchPoll {
  import opened Wrappers
  import opened Runs
  import opened Text

  const MAX_BATCH_OBS := 20
  const MAX_RETRIES := 3
  const RETRY_BASE := 30
  const CREDIT_COOLDOWN := 600

  /** The words an observation uses for itself, told apart as far as the gate tells them apart. */
  datatype Severity = NoSeverity | SeverityOk | SeverityInfo | OtherSeverity(word: string)
  datatype Status = NeedsAttention | OtherStatus(word: string)
  datatype SignalType = HighTrustDirector | OtherSignal(word: string)

  datatype Observation = Observation(
    findings: string, suggestedFix: string, severity: Severity, status: Status,
    parseErrors: nat, gaps: nat, signalsByType: map<SignalType, int>)

  /** A directory entry. It is a file when it is neither a directory nor a link and its name ends in
      .json and does not start with a dot; the content is None when it cannot be read or decoded, or
      has no timestamp. */
  datatype Entry = Entry(name: string, isFile: bool, content: Option<Observation>)

  /** `isTrivialObservation`. */
  predicate Trivial(o: Observation) {
    && o.findings == "" && o.suggestedFix == ""
    && (o.severity == NoSeverity || o.severity == SeverityOk || o.severity == SeverityInfo)
    && o.status != NeedsAttention
    && o.parseErrors == 0 && o.gaps == 0
    && forall t | t in o.signalsByType && o.signalsByType[t] > 0 :: t == HighTrustDirector
  }

  /** What makes an observation worth handing over, reason by reason. */
  predicate Actionable(o: Observation) {
    || o.findings != "" || o.suggestedFix != ""
    || o.severity.OtherSeverity?
    || o.status.NeedsAttention?
    || o.parseErrors > 0 || o.gaps > 0
    || exists t | t in o.signalsByType :: t.OtherSignal? && o.signalsByType[t] > 0
  }

  /** A file the poll considers at all. */
  predicate Usable(e: Entry) {
    e.isFile && e.content.Some?
  }

  /** A file that must reach the command: the gate, when on, drops the trivial ones. */
  predicate Wanted(gate: bool, e: Entry) {
    Usable(e) && !(gate && Trivial(e.content.value))
  }

  /** The three filters of a poll: the files, those the gate lets through, those after the cursor. */
  datatype Filter = Files | Gated(gate: bool) | Past(cursor: string)

  predicate Passes(p: Filter, e: Entry) {
    match p
    case Files => Usable(e)
    case Gated(gate) => Wanted(gate, e)
    case Past(cursor) => cursor == "" || Less(cursor, e.name)
  }

  function Select(p: Filter, entries: seq<Entry>): seq<Entry> {
    if entries == [] then []
    else (if Passes(p, entries[0]) then [entries[0]] else []) + Select(p, entries[1..])
  }

  /** The cursor as it is read back: one without a hyphen predates the naming scheme and is dropped. */
  function ReadCursor(saved: string): string {
    var t := TrimSpace(saved);
    if t != "" && '-' !in t then "" else t
  }

  /** The entries after a cursor. */
  function Newer(cursor: string, entries: seq<Entry>): seq<Entry> {
    Select(Past(cursor), entries)
  }

  /** What one poll takes: the batch, and the cursor to save once it is dealt with. */
  datatype Take = Nothing | Skip(cursor: string) | Batch(batch: seq<Entry>, cursor: string)

  function Plan(rest: seq<Entry>, gate: bool): Take {
    var candidates := Select(Files, rest);
    var wanted := Select(Gated(gate), candidates);
    if candidates == [] then Nothing
    else if wanted == [] then Skip(candidates[|candidates| - 1].name)
    else if |wanted| > MAX_BATCH_OBS then Batch(wanted[..MAX_BATCH_OBS], wanted[MAX_BATCH_OBS - 1].name)
    else Batch(wanted, candidates[|candidates| - 1].name)
  }

  // ---- the watcher over time ----

  datatype State = State(entries: seq<Entry>, cursor: string, invoked: seq<seq<Entry>>)

  /** A poll may find the command failing or paused; then nothing moves but a cursor past trivial files. */
  datatype Label = Arrive(entry: Entry) | Poll(succeeds: bool)

  /** What the directory holds after the saved cursor. */
  function Rest(w: State): seq<Entry> {
    Newer(ReadCursor(w.cursor), w.entries)
  }

  function Polled(gate: bool, w: State, succeeds: bool): State {
    match Plan(Rest(w), gate)
    case Nothing => w
    case Skip(cursor) => w.(cursor := cursor)
    case Batch(batch, cursor) =>
      if succeeds then w.(cursor := cursor, invoked := w.invoked + [batch]) else w
  }

  /** Names carry a hyphenated timestamp and no outer white space. */
  predicate Stamped(name: string) {
    '-' in name && TrimSpace(name) == name
  }

  ghost predicate Newest(entries: seq<Entry>, e: Entry) {
    e.name != "" && forall x | x in entries :: Less(x.name, e.name)
  }

  /** Files arrive under names after all those present. */
  ghost function Next(gate: bool, w: State, l: Label): Option<State> {
    match l
    case Arrive(e) => if Stamped(e.name) && Newest(w.entries, e) then Some(w.(entries := w.entries + [e])) else None
    case Poll(succeeds) => Some(Polled(gate, w, succeeds))
  }

  ghost function Machine(gate: bool): (State, Label) -> Option<State> {
    (w: State, l: Label) => Next(gate, w, l)
  }

  const EMPTY := State([], "", [])

  function Flatten(batches: seq<seq<Entry>>): seq<Entry> {
    if batches == [] then [] else batches[0] + Flatten(batches[1..])
  }

  predicate AllStamped(entries: seq<Entry>)
    decreases |entries|
  {
    entries == [] || (AllStamped(entries[..|entries| - 1]) && Stamped(entries[|entries| - 1].name))
  }

  /** Each entry arrived under a name after all those before it. */
  ghost predicate Sorted(entries: seq<Entry>)
    decreases |entries|
  {
    entries != [] ==>
      var last := |entries| - 1;
      Sorted(entries[..last]) && Newest(entries[..last], entries[last])
  }

  function CursorAt(entries: seq<Entry>, n: nat): string
    requires n <= |entries|
  {
    if n == 0 then "" else entries[n - 1].name
  }

  /** The cursor names the last of the first `n` entries; what they held has been handed over. */
  ghost predicate At(gate: bool, w: State, n: nat) {
    && n <= |w.entries|
    && w.cursor == CursorAt(w.entries, n)
    && Flatten(w.invoked) == Select(Gated(gate), w.entries[..n])
  }

  ghost predicate Inv(gate: bool, w: State) {
    && Sorted(w.entries) && AllStamped(w.entries) && (exists n: nat :: At(gate, w, n))
    && forall b | b in w.invoked :: 1 <= |b| <= MAX_BATCH_OBS
  }

  // ---- selecting ----

  lemma {:induction false} SelectConcat(p: Filter, xs: seq<Entry>, ys: seq<Entry>)
    ensures Select(p, xs + ys) == Select(p, xs) + Select(p, ys)
  {
    if xs == [] {
      assert xs + ys == ys;
    } else {
      SelectConcat(p, xs[1..], ys);
      assert (xs + ys)[1..] == xs[1..] + ys;
      var head := if Passes(p, xs[0]) then [xs[0]] else [];
      assert head + (Select(p, xs[1..]) + Select(p, ys)) == head + Select(p, xs[1..]) + Select(p, ys);
    }
  }

  lemma {:induction false} SelectNone(p: Filter, s: seq<Entry>)
    requires forall e | e in s :: !Passes(p, e)
    ensures Select(p, s) == []
  {
    if s != [] {
      SelectNone(p, s[1..]);
    }
  }

  lemma {:induction false} SelectedHold(p: Filter, s: seq<Entry>)
    ensures forall e | e in Select(p, s) :: Passes(p, e)
  {
    if s != [] {
      SelectedHold(p, s[1..]);
    }
  }

  lemma {:induction false} SelectedIff(p: Filter, s: seq<Entry>, e: Entry)
    ensures e in Select(p, s) <==> e in s && Passes(p, e)
  {
    if s != [] {
      SelectedIff(p, s[1..], e);
    }
  }

  /** The gate, when on, drops the observations for which there is no reason, and no others. */
  lemma GateIff(gate: bool, s: seq<Entry>, e: Entry)
    ensures e in Select(Gated(gate), s)
       <==> e in s && e.isFile && e.content.Some? && (gate ==> Actionable(e.content.value))
  {
    SelectedIff(Gated(gate), s, e);
  }

  lemma {:induction false} SelectAll(p: Filter, s: seq<Entry>)
    requires forall e | e in s :: Passes(p, e)
    ensures Select(p, s) == s
  {
    if s != [] {
      SelectAll(p, s[1..]);
    }
  }

  /** The stricter of two filters may be applied alone. */
  lemma {:induction false} SelectTwice(gate: bool, s: seq<Entry>)
    ensures Select(Gated(gate), Select(Files, s)) == Select(Gated(gate), s)
  {
    if s != [] {
      SelectTwice(gate, s[1..]);
      SelectConcat(Gated(gate), if Usable(s[0]) then [s[0]] else [], Select(Files, s[1..]));
      assert [s[0]][1..] == [];
    }
  }

  lemma {:induction false} NoneUsable(gate: bool, s: seq<Entry>)
    requires Select(Files, s) == []
    ensures Select(Gated(gate), s) == []
  {
    SelectTwice(gate, s);
  }

  lemma SelectCons(p: Filter, e: Entry, rest: seq<Entry>)
    ensures Select(p, [e] + rest) == (if Passes(p, e) then [e] else []) + Select(p, rest)
  {
    assert ([e] + rest)[1..] == rest;
  }

  /** The j-th entry of `s` is the k-th selected. */
  predicate Reaches(p: Filter, s: seq<Entry>, k: nat, j: nat) {
    && 1 <= k <= |Select(p, s)| && j < |s| && s[j] == Select(p, s)[k - 1]
    && Select(p, s[..j + 1]) == Select(p, s)[..k] && Select(p, s[j + 1..]) == Select(p, s)[k..]
  }

  lemma ReachesNext(p: Filter, e: Entry, rest: seq<Entry>, k: nat, i: nat)
    requires Reaches(p, rest, k, i)
    ensures Reaches(p, [e] + rest, if Passes(p, e) then k + 1 else k, i + 1)
  {
    var s, before := [e] + rest, if Passes(p, e) then [e] else [];
    SelectCons(p, e, rest);
    SelectCons(p, e, rest[..i + 1]);
    assert s[..i + 2] == [e] + rest[..i + 1] && s[i + 2..] == rest[i + 1..];
    TakeBehind(before, Select(p, rest), k + |before|);
  }

  /** Where in `s` its k-th selected entry is. */
  lemma {:induction false} Reach(p: Filter, s: seq<Entry>, k: nat) returns (j: nat)
    requires 1 <= k <= |Select(p, s)|
    ensures Reaches(p, s, k, j)
  {
    var e, rest := s[0], s[1..];
    if Passes(p, e) && k == 1 {
      j := 0;
      SelectCons(p, e, []);
      assert s[..1] == [e] + [] && [e] + [] == [e];
    } else {
      var i := Reach(p, rest, if Passes(p, e) then k - 1 else k);
      j := i + 1;
      ReachesNext(p, e, rest, if Passes(p, e) then k - 1 else k, i);
      assert s == [e] + rest;
    }
  }

  lemma TakeBehind<T>(before: seq<T>, after: seq<T>, k: nat)
    requires |before| <= k <= |before| + |after|
    ensures (before + after)[..k] == before + after[..k - |before|] && (before + after)[k..] == after[k - |before|..]
  {
  }

  lemma LessIrreflexive(a: string)
    ensures !Less(a, a)
  {
    if Less(a, a) {
      LessAsymmetric(a, a);
    }
  }

  lemma NewerNone(entries: seq<Entry>, e: Entry)
    requires Newest(entries, e)
    ensures Newer(e.name, entries) == []
  {
    forall x | x in entries
      ensures !Passes(Past(e.name), x)
    {
      LessAsymmetric(x.name, e.name);
    }
    SelectNone(Past(e.name), entries);
  }

  lemma NewerNext(cursor: string, init: seq<Entry>, last: Entry)
    ensures Newer(cursor, init + [last]) == Newer(cursor, init) + if Passes(Past(cursor), last) then [last] else []
  {
    SelectConcat(Past(cursor), init, [last]);
    SelectOne(Past(cursor), last);
  }

  lemma CursorInside(init: seq<Entry>, last: Entry, n: nat)
    requires Newest(init, last) && n <= |init|
    ensures CursorAt(init + [last], n) == CursorAt(init, n) && Passes(Past(CursorAt(init, n)), last)
  {
    assert n > 0 ==> init[n - 1] in init;
  }

  /** On sorted names a cursor splits the directory where it stands. */
  lemma {:induction false} NewerIsRest(entries: seq<Entry>, n: nat)
    requires Sorted(entries) && n <= |entries|
    ensures Newer(CursorAt(entries, n), entries) == entries[n..]
    decreases |entries|
  {
    if entries != [] {
      var init, last := entries[..|entries| - 1], entries[|entries| - 1];
      assert entries == init + [last];
      NewerNext(CursorAt(entries, n), init, last);
      if n == |entries| {
        NewerNone(init, last);
        LessIrreflexive(last.name);
      } else {
        NewerIsRest(init, n);
        CursorInside(init, last, n);
        assert entries[n..] == init[n..] + [last];
      }
    }
  }

  /** A saved name reads back as itself. */
  lemma {:induction false} ReadsBack(entries: seq<Entry>, n: nat)
    requires AllStamped(entries) && n <= |entries|
    ensures ReadCursor(CursorAt(entries, n)) == CursorAt(entries, n)
    decreases |entries|
  {
    if 0 < n < |entries| {
      ReadsBack(entries[..|entries| - 1], n);
    }
  }

  // ---- one poll ----

  /** What is still to be handed over. */
  function Pending(gate: bool, w: State): seq<Entry> {
    Select(Gated(gate), Rest(w))
  }

  lemma RestIs(gate: bool, w: State, n: nat)
    requires Sorted(w.entries) && AllStamped(w.entries) && At(gate, w, n)
    ensures Rest(w) == w.entries[n..]
  {
    ReadsBack(w.entries, n);
    NewerIsRest(w.entries, n);
  }

  lemma SelectSplit(p: Filter, entries: seq<Entry>, n: nat)
    requires n <= |entries|
    ensures Select(p, entries) == Select(p, entries[..n]) + Select(p, entries[n..])
  {
    SelectConcat(p, entries[..n], entries[n..]);
    assert entries[..n] + entries[n..] == entries;
  }

  lemma RestAt(gate: bool, w: State, n: nat)
    requires Sorted(w.entries) && AllStamped(w.entries) && At(gate, w, n)
    ensures Rest(w) == w.entries[n..]
    ensures Flatten(w.invoked) + Pending(gate, w) == Select(Gated(gate), w.entries)
  {
    RestIs(gate, w, n);
    SelectSplit(Gated(gate), w.entries, n);
  }

  lemma {:induction false} FlattenOne(batches: seq<seq<Entry>>, b: seq<Entry>)
    ensures Flatten(batches + [b]) == Flatten(batches) + b
  {
    if batches == [] {
      assert [b][1..] == [];
    } else {
      FlattenOne(batches[1..], b);
      assert (batches + [b])[1..] == batches[1..] + [b];
      assert batches[0] + (Flatten(batches[1..]) + b) == batches[0] + Flatten(batches[1..]) + b;
    }
  }

  /** Moving the cursor to the j-th entry after it, having handed over what lies between. */
  lemma MoveTo(gate: bool, w: State, n: nat, j: nat, batch: seq<Entry>, v: State)
    requires At(gate, w, n) && n + j < |w.entries|
    requires Select(Gated(gate), w.entries[n..][..j + 1]) == batch
    requires v.entries == w.entries && v.cursor == w.entries[n + j].name
    requires Flatten(v.invoked) == Flatten(w.invoked) + batch
    ensures At(gate, v, n + j + 1)
  {
    SelectTwoParts(Gated(gate), w.entries, n, j + 1);
  }

  lemma SelectTwoParts(p: Filter, entries: seq<Entry>, n: nat, more: nat)
    requires n + more <= |entries|
    ensures Select(p, entries[..n + more]) == Select(p, entries[..n]) + Select(p, entries[n..][..more])
  {
    var a, b := entries[..n], entries[n..][..more];
    SelectConcat(p, a, b);
    forall i | 0 <= i < n + more
      ensures (a + b)[i] == entries[..n + more][i]
    {
      if i >= n {
        assert b[i - n] == entries[n..][i - n];
      }
    }
    assert a + b == entries[..n + more];
  }

  /** Where the planned cursor stands, and what lies before it. */
  lemma PlanStops(gate: bool, rest: seq<Entry>) returns (j: nat)
    requires Select(Files, rest) != []
    ensures j < |rest|
    ensures var candidates, wanted := Select(Files, rest), Select(Gated(gate), rest);
            if |wanted| > MAX_BATCH_OBS
            then rest[j] == wanted[MAX_BATCH_OBS - 1] && Select(Gated(gate), rest[..j + 1]) == wanted[..MAX_BATCH_OBS]
            else rest[j] == candidates[|candidates| - 1] && Select(Gated(gate), rest[..j + 1]) == wanted
  {
    var wanted := Select(Gated(gate), rest);
    if |wanted| > MAX_BATCH_OBS {
      j := Reach(Gated(gate), rest, MAX_BATCH_OBS);
    } else {
      j := Reach(Files, rest, |Select(Files, rest)|);
      NoneUsable(gate, rest[j + 1..]);
      SelectConcat(Gated(gate), rest[..j + 1], rest[j + 1..]);
      assert rest[..j + 1] + rest[j + 1..] == rest;
    }
  }

  lemma SkipAt(gate: bool, w: State, n: nat, cursor: string) returns (m: nat)
    requires At(gate, w, n) && Plan(w.entries[n..], gate) == Skip(cursor)
    ensures At(gate, w.(cursor := cursor), m)
  {
    var rest := w.entries[n..];
    SelectTwice(gate, rest);
    var j := PlanStops(gate, rest);
    MoveTo(gate, w, n, j, [], w.(cursor := cursor));
    m := n + j + 1;
  }

  lemma BatchAt(gate: bool, w: State, n: nat, batch: seq<Entry>, cursor: string) returns (m: nat)
    requires At(gate, w, n) && Plan(w.entries[n..], gate) == Batch(batch, cursor)
    ensures At(gate, w.(cursor := cursor, invoked := w.invoked + [batch]), m)
  {
    var rest := w.entries[n..];
    SelectTwice(gate, rest);
    var j := PlanStops(gate, rest);
    FlattenOne(w.invoked, batch);
    MoveTo(gate, w, n, j, batch, w.(cursor := cursor, invoked := w.invoked + [batch]));
    m := n + j + 1;
  }

  /** Where a poll leaves the cursor. */
  lemma PollAt(gate: bool, w: State, n: nat, succeeds: bool) returns (m: nat)
    requires Sorted(w.entries) && AllStamped(w.entries) && At(gate, w, n)
    ensures At(gate, Polled(gate, w, succeeds), m)
  {
    RestIs(gate, w, n);
    m := n;
    match Plan(w.entries[n..], gate)
    case Nothing =>
    case Skip(cursor) => m := SkipAt(gate, w, n, cursor);
    case Batch(batch, cursor) =>
      if succeeds {
        m := BatchAt(gate, w, n, batch, cursor);
      }
  }

  /** What a poll does not touch, and what it adds. */
  lemma PolledSame(gate: bool, w: State, succeeds: bool)
    ensures Polled(gate, w, succeeds).entries == w.entries
    ensures forall b | b in Polled(gate, w, succeeds).invoked :: b in w.invoked || 1 <= |b| <= MAX_BATCH_OBS
  {
  }

  lemma PollKeeps(gate: bool, w: State, succeeds: bool)
    requires Inv(gate, w)
    ensures Inv(gate, Polled(gate, w, succeeds))
  {
    var n: nat :| At(gate, w, n);
    var m := PollAt(gate, w, n, succeeds);
    PolledSame(gate, w, succeeds);
  }

  lemma ArriveKeeps(gate: bool, w: State, e: Entry)
    requires Inv(gate, w) && Stamped(e.name) && Newest(w.entries, e)
    ensures Inv(gate, w.(entries := w.entries + [e]))
  {
    var n: nat :| At(gate, w, n);
    var v := w.(entries := w.entries + [e]);
    assert v.entries[..|w.entries|] == w.entries;
    assert v.entries[..n] == w.entries[..n];
    assert At(gate, v, n);
  }

  /** Over any run of polls, failures, pauses and arrivals, the observations handed over so far
      are, in file order and each once, all those that ought to be except the ones after the
      cursor; and no invocation was given more than twenty. Those that ought to be are the readable
      files, when the gate is on the ones there is a reason for. */
  lemma HandsOverOnce(gate: bool, ls: seq<Label>)
    requires Run(Machine(gate), EMPTY, ls).Some?
    ensures var w := Run(Machine(gate), EMPTY, ls).value;
            && Flatten(w.invoked) + Pending(gate, w) == Select(Gated(gate), w.entries)
            && (forall b | b in w.invoked :: 1 <= |b| <= 20)
            && forall e | e in w.entries ::
                 e in Flatten(w.invoked) || e in Pending(gate, w)
                 <==> e.isFile && e.content.Some? && (gate ==> Actionable(e.content.value))
  {
    var inv := (w: State) => Inv(gate, w);
    forall w, l | inv(w) && Machine(gate)(w, l).Some?
      ensures inv(Machine(gate)(w, l).value)
    {
      match l
      case Arrive(e) => ArriveKeeps(gate, w, e);
      case Poll(succeeds) => PollKeeps(gate, w, succeeds);
    }
    assert At(gate, EMPTY, 0);
    var any := (w: State, l: Label) => true;
    AllAllowed(Machine(gate), any, EMPTY, ls);
    Keeps(Machine(gate), inv, any, EMPTY, ls);
    var w := Run(Machine(gate), EMPTY, ls).value;
    var n: nat :| At(gate, w, n);
    RestAt(gate, w, n);
    forall e | e in w.entries
      ensures e in Flatten(w.invoked) + Pending(gate, w)
         <==> e.isFile && e.content.Some? && (gate ==> Actionable(e.content.value))
    {
      GateIff(gate, w.entries, e);
    }
  }

  /** The batch is the first twenty wanted entries after the cursor, or all of them. */
  lemma PlanTakes(gate: bool, rest: seq<Entry>)
    ensures var wanted, plan := Select(Gated(gate), rest), Plan(rest, gate);
            if plan.Batch? then plan.batch == AtMost(wanted) && wanted != [] else wanted == []
  {
    SelectTwice(gate, rest);
  }

  function AtMost<T>(s: seq<T>): seq<T> {
    if |s| > MAX_BATCH_OBS then s[..MAX_BATCH_OBS] else s
  }

  function Beyond<T>(s: seq<T>): seq<T> {
    if |s| > MAX_BATCH_OBS then s[MAX_BATCH_OBS..] else []
  }

  lemma Delivered(gate: bool, w: State)
    requires Inv(gate, w)
    ensures Flatten(w.invoked) + Pending(gate, w) == Select(Gated(gate), w.entries)
  {
    var n: nat :| At(gate, w, n);
    RestAt(gate, w, n);
  }

  lemma Cancel<T>(a: seq<T>, b: seq<T>, c: seq<T>, d: seq<T>)
    requires a + b + c == a + d
    ensures b + c == d
  {
    assert (a + b + c)[|a|..] == b + c;
    assert (a + d)[|a|..] == d;
  }

  lemma DropTaken<T>(c: seq<T>, d: seq<T>)
    requires AtMost(d) + c == d
    ensures c == Beyond(d)
  {
    assert (AtMost(d) + c)[|AtMost(d)|..] == c;
  }

  lemma DeliveredBoth(gate: bool, w: State, v: State)
    requires Inv(gate, w) && Inv(gate, v) && v.entries == w.entries
    ensures Flatten(v.invoked) + Pending(gate, v) == Flatten(w.invoked) + Pending(gate, w)
  {
    Delivered(gate, w);
    Delivered(gate, v);
  }

  /** A poll whose command succeeds takes the first twenty still to be handed over, or all. */
  lemma PollTakes(gate: bool, w: State)
    requires Inv(gate, w)
    ensures Inv(gate, Polled(gate, w, true))
    ensures var pending := Pending(gate, w);
            Pending(gate, Polled(gate, w, true)) == if |pending| > 20 then pending[20..] else []
  {
    PollKeeps(gate, w, true);
    PolledSame(gate, w, true);
    DeliveredBoth(gate, w, Polled(gate, w, true));
    PlanTakes(gate, Rest(w));
    TakenFrom(gate, w, Polled(gate, w, true));
  }

  lemma TakenFrom(gate: bool, w: State, v: State)
    requires v == Polled(gate, w, true)
    requires Flatten(v.invoked) + Pending(gate, v) == Flatten(w.invoked) + Pending(gate, w)
    requires var plan := Plan(Rest(w), gate);
             if plan.Batch? then plan.batch == AtMost(Pending(gate, w)) else Pending(gate, w) == []
    ensures Pending(gate, v) == Beyond(Pending(gate, w))
  {
    var a, c, d := Flatten(w.invoked), Pending(gate, v), Pending(gate, w);
    if Plan(Rest(w), gate).Batch? {
      FlattenOne(w.invoked, AtMost(d));
      Cancel(a, AtMost(d), c, d);
    } else {
      Cancel(a, [], c, d);
    }
    DropTaken(c, d);
  }

  function LeftOver(b: nat, taken: nat): nat {
    if b > taken then b - taken else 0
  }

  lemma PollOnce(gate: bool, w: State, v: State)
    requires Inv(gate, w) && Machine(gate)(w, Poll(true)) == Some(v)
    ensures Inv(gate, v) && |Pending(gate, v)| == LeftOver(|Pending(gate, w)|, MAX_BATCH_OBS)
  {
    PollTakes(gate, w);
  }

  lemma FirstPoll(gate: bool, w: State, ls: seq<Label>)
    requires Inv(gate, w) && ls != [] && ls[0] == Poll(true)
    ensures var v := Polled(gate, w, true);
            && Inv(gate, v) && |Pending(gate, v)| == LeftOver(|Pending(gate, w)|, MAX_BATCH_OBS)
            && Run(Machine(gate), w, ls) == Run(Machine(gate), v, ls[1..])
  {
    PollOnce(gate, w, Polled(gate, w, true));
  }

  lemma LeftTwice(b: nat, taken: nat, more: nat)
    ensures LeftOver(LeftOver(b, taken), more) == LeftOver(b, taken + more)
  {
  }

  lemma {:induction false} BacklogAfter(gate: bool, w: State, ls: seq<Label>)
    requires Inv(gate, w) && forall l | l in ls :: l == Poll(true)
    ensures var v := Run(Machine(gate), w, ls);
            v.Some? && |Pending(gate, v.value)| == LeftOver(|Pending(gate, w)|, |ls| * MAX_BATCH_OBS)
    decreases |ls|
  {
    if ls != [] {
      assert ls[0] in ls && forall l | l in ls[1..] :: l in ls;
      FirstPoll(gate, w, ls);
      BacklogAfter(gate, Polled(gate, w, true), ls[1..]);
      LeftTwice(|Pending(gate, w)|, MAX_BATCH_OBS, |ls[1..]| * MAX_BATCH_OBS);
    }
  }

  /** With no arrivals, ceil(b / 20) successful polls deal with a backlog of b, and no fewer do. */
  lemma Drains(gate: bool, w: State, ls: seq<Label>)
    requires Inv(gate, w) && forall l | l in ls :: l == Poll(true)
    ensures var v := Run(Machine(gate), w, ls);
            v.Some? && (Pending(gate, v.value) == [] <==> |ls| * 20 >= |Pending(gate, w)|)
  {
    BacklogAfter(gate, w, ls);
  }

  lemma SelectOne(p: Filter, e: Entry)
    ensures Select(p, [e]) == if Passes(p, e) then [e] else []
  {
    assert [e][1..] == [];
  }

  // ---- what a poll hands over again ----

  lemma {:induction false} LessTransitive(a: string, b: string, c: string)
    requires Less(a, b) && Less(b, c)
    ensures Less(a, c)
  {
    if a != "" && a[0] == b[0] && b[0] == c[0] {
      LessTransitive(a[1..], b[1..], c[1..]);
    }
  }

  lemma {:induction false} TrimKeepsHyphen(s: string)
    ensures '-' in s <==> '-' in TrimRight(s)
    decreases |s|
  {
    if s != "" && IsSpace(s[|s| - 1]) {
      TrimKeepsHyphen(s[..|s| - 1]);
      assert s == s[..|s| - 1] + [s[|s| - 1]];
    }
  }

  lemma {:induction false} TrimLeftKeepsHyphen(s: string)
    ensures '-' in s <==> '-' in TrimLeft(s)
  {
    if s != "" && IsSpace(s[0]) {
      TrimLeftKeepsHyphen(s[1..]);
      assert s == [s[0]] + s[1..];
    }
  }

  /** Any saved cursor reads back as itself without outer white space when it has a hyphen, and as
      none at all when it has not. */
  lemma CursorReadsBack(saved: string)
    ensures ReadCursor(saved) == if '-' in saved then TrimSpace(saved) else ""
  {
    TrimLeftKeepsHyphen(saved);
    TrimKeepsHyphen(TrimLeft(saved));
  }

  /** On sorted names any cursor, the name of an entry or not, leaves a last part of the directory. */
  lemma {:induction false} NewerIsSuffix(cursor: string, entries: seq<Entry>) returns (p: nat)
    requires Sorted(entries)
    ensures p <= |entries| && Newer(cursor, entries) == entries[p..]
    decreases |entries|
  {
    p := 0;
    if entries != [] {
      var init, last := entries[..|entries| - 1], entries[|entries| - 1];
      assert entries == init + [last];
      p := NewerIsSuffix(cursor, init);
      SelectConcat(Past(cursor), init, [last]);
      SelectOne(Past(cursor), last);
      if Passes(Past(cursor), last) {
        assert entries[p..] == init[p..] + [last];
      } else {
        NoneBefore(cursor, init, last);
        SelectNone(Past(cursor), init);
        p := |entries|;
      }
    }
  }

  /** When a cursor is not before the last name it is before none. */
  lemma NoneBefore(cursor: string, init: seq<Entry>, last: Entry)
    requires Newest(init, last) && !Passes(Past(cursor), last)
    ensures forall e | e in init :: !Passes(Past(cursor), e)
  {
    forall e | e in init
      ensures !Less(cursor, e.name)
    {
      if Less(cursor, e.name) {
        LessTransitive(cursor, e.name, last.name);
      }
    }
  }

  /** Where a planned cursor stands: at an entry after the old cursor, with the batch up to it. */
  lemma PlanCursor(gate: bool, entries: seq<Entry>, p: nat) returns (m: nat)
    requires p <= |entries| && Plan(entries[p..], gate).Batch?
    ensures p < m <= |entries| && Plan(entries[p..], gate).cursor == CursorAt(entries, m)
    ensures Plan(entries[p..], gate).batch == Select(Gated(gate), entries[p..m])
  {
    var rest := entries[p..];
    SelectTwice(gate, rest);
    var j := PlanStops(gate, rest);
    m := p + j + 1;
    assert rest[..j + 1] == entries[p..m];
  }

  lemma {:induction false} SelectMembers(p: Filter, s: seq<Entry>)
    ensures forall e :: e in Select(p, s) <==> e in s && Passes(p, e)
  {
    if s != [] {
      SelectMembers(p, s[1..]);
      assert forall e :: e in s <==> e == s[0] || e in s[1..];
    }
  }

  lemma {:induction false} SortedPrefix(entries: seq<Entry>, m: nat)
    requires Sorted(entries) && m <= |entries|
    ensures Sorted(entries[..m])
    decreases |entries|
  {
    if m < |entries| {
      SortedPrefix(entries[..|entries| - 1], m);
      assert entries[..|entries| - 1][..m] == entries[..m];
    } else {
      assert entries[..m] == entries;
    }
  }

  lemma NotPast(init: seq<Entry>, last: Entry, e: Entry)
    requires Newest(init, last) && e in init + [last]
    ensures !Passes(Past(last.name), e)
  {
    if e in init {
      LessAsymmetric(e.name, last.name);
    } else {
      LessIrreflexive(last.name);
    }
  }

  /** No entry up to a cursor is after it. */
  lemma UpToCursor(entries: seq<Entry>, m: nat, e: Entry)
    requires Sorted(entries) && 0 < m <= |entries| && e in entries[..m]
    ensures !Passes(Past(CursorAt(entries, m)), e)
  {
    SortedPrefix(entries, m);
    var upTo, last := entries[..m], entries[m - 1];
    assert upTo[..|upTo| - 1] + [last] == upTo;
    NotPast(upTo[..|upTo| - 1], last, e);
  }

  /** What is pending after a poll that succeeded: what lies after the saved cursor when that has a
      hyphen, and otherwise everything in the directory. */
  lemma PendingAfter(gate: bool, w: State)
    requires Plan(Rest(w), gate).Batch?
    ensures var plan, v := Plan(Rest(w), gate), Polled(gate, w, true);
            && v.cursor == plan.cursor
            && Pending(gate, v)
               == Select(Gated(gate), if '-' in plan.cursor then Newer(TrimSpace(plan.cursor), w.entries) else w.entries)
  {
    var cursor := Plan(Rest(w), gate).cursor;
    CursorReadsBack(cursor);
    SelectAll(Past(""), w.entries);
  }

  /** For any directory sorted by name and any cursor: a poll that succeeded hands something over
      that the next poll takes up again if and only if the name it saved has no hyphen, for such a
      name is not accepted back. Otherwise what is pending afterwards is what was pending before but
      for the batch. */
  lemma AgainIffNoHyphen(gate: bool, w: State)
    requires Sorted(w.entries) && Plan(Rest(w), gate).Batch?
    requires TrimSpace(Plan(Rest(w), gate).cursor) == Plan(Rest(w), gate).cursor
    ensures var plan, v := Plan(Rest(w), gate), Polled(gate, w, true);
            && ((exists e :: e in plan.batch && e in Pending(gate, v)) <==> '-' !in plan.cursor)
            && (if '-' in plan.cursor then Pending(gate, w) == plan.batch + Pending(gate, v)
                else Pending(gate, v) == Select(Gated(gate), w.entries))
  {
    var plan := Plan(Rest(w), gate);
    PendingAfter(gate, w);
    var p := NewerIsSuffix(ReadCursor(w.cursor), w.entries);
    var m := PlanCursor(gate, w.entries, p);
    if '-' in plan.cursor {
      NotAgain(gate, w.entries, p, m);
    } else {
      PlanTakes(gate, Rest(w));
      BatchMembers(gate, w.entries, p, m);
      SelectMembers(Gated(gate), w.entries);
      assert plan.batch[0] in plan.batch;
    }
  }

  /** Past its own cursor no entry of a batch is found again, and no other is missed. */
  lemma NotAgain(gate: bool, entries: seq<Entry>, p: nat, m: nat)
    requires Sorted(entries) && p < m <= |entries|
    ensures var batch, after := Select(Gated(gate), entries[p..m]), Select(Gated(gate), Newer(CursorAt(entries, m), entries));
            && Select(Gated(gate), entries[p..]) == batch + after
            && forall e | e in batch :: e !in after
  {
    NewerIsRest(entries, m);
    CutAt(entries, p, m);
    SelectConcat(Gated(gate), entries[p..m], entries[m..]);
    NothingTwice(gate, entries, p, m);
  }

  lemma CutAt<T>(s: seq<T>, p: nat, m: nat)
    requires p <= m <= |s|
    ensures s[p..] == s[p..m] + s[m..]
  {
  }

  lemma NothingTwice(gate: bool, entries: seq<Entry>, p: nat, m: nat)
    requires Sorted(entries) && p < m <= |entries|
    ensures forall e | e in Select(Gated(gate), entries[p..m]) :: e !in Select(Gated(gate), Newer(CursorAt(entries, m), entries))
  {
    var past := Past(CursorAt(entries, m));
    BatchMembers(gate, entries, p, m);
    SelectMembers(past, entries);
    SelectMembers(Gated(gate), Select(past, entries));
    forall e | e in Select(Gated(gate), entries[p..m])
      ensures e !in Select(Gated(gate), Newer(CursorAt(entries, m), entries))
    {
      UpToCursor(entries, m, e);
    }
  }

  lemma BatchMembers(gate: bool, entries: seq<Entry>, p: nat, m: nat)
    requires p <= m <= |entries|
    ensures forall e | e in Select(Gated(gate), entries[p..m]) :: Wanted(gate, e) && e in entries && e in entries[..m]
  {
    SelectMembers(Gated(gate), entries[p..m]);
    forall e | e in entries[p..m]
      ensures e in entries && e in entries[..m]
    {
      var i :| 0 <= i < m - p && entries[p..m][i] == e;
      assert entries[p + i] == e && entries[..m][p + i] == e;
    }
  }

  // ---- the invocation and its retries ----

  /** How one run of the command ended, and what its output was recognised as. */
  datatype Outcome = Succeeded | Failed(credit: bool, rateLimited: bool, tooLong: bool)

  datatype InvokeError = Cooldown | Refused | Exhausted

  /** A run as it was made: what was slept before it, its arguments, its end. */
  datatype Attempt = Attempt(delay: nat, args: seq<string>, outcome: Outcome)

  predicate RateLimited(o: Outcome) {
    o.Failed? && !o.credit && o.rateLimited
  }

  predicate TooLong(o: Outcome) {
    o.Failed? && !o.credit && !o.rateLimited && o.tooLong
  }

  function Count(p: Outcome -> bool, history: seq<Attempt>): nat
    decreases |history|
  {
    if history == [] then 0
    else Count(p, history[..|history| - 1]) + if p(history[|history| - 1].outcome) then 1 else 0
  }

  /** `dropFlag`. */
  function DropFlag(args: seq<string>, flag: string): seq<string> {
    if args == [] then []
    else (if args[0] != flag then [args[0]] else []) + DropFlag(args[1..], flag)
  }

  lemma {:induction false} DropNone(args: seq<string>, flag: string)
    requires flag !in args
    ensures DropFlag(args, flag) == args
  {
    if args != [] {
      assert args[0] in args && forall x | x in args[1..] :: x in args;
      DropNone(args[1..], flag);
    }
  }

  lemma {:induction false} DropConcat(a: seq<string>, b: seq<string>, flag: string)
    ensures DropFlag(a + b, flag) == DropFlag(a, flag) + DropFlag(b, flag)
  {
    if a == [] {
      assert a + b == b;
    } else {
      DropConcat(a[1..], b, flag);
      assert (a + b)[0] == a[0] && (a + b)[1..] == a[1..] + b;
      var head := if a[0] != flag then [a[0]] else [];
      assert head + (DropFlag(a[1..], flag) + DropFlag(b, flag)) == head + DropFlag(a[1..], flag) + DropFlag(b, flag);
    }
  }

  lemma DropOne(flag: string)
    ensures DropFlag([flag], flag) == []
  {
    assert [flag][1..] == [];
  }

  /** Dropping a flag drops it wherever it is, and leaves the rest in order. */
  lemma DropFlagIs(before: seq<string>, after: seq<string>, flag: string)
    requires flag !in before
    ensures DropFlag(before, flag) == before
    ensures DropFlag(before + ([flag] + after), flag) == before + DropFlag(after, flag)
  {
    DropNone(before, flag);
    DropConcat(before, [flag] + after, flag);
    DropConcat([flag], after, flag);
    DropOne(flag);
    assert [] + DropFlag(after, flag) == DropFlag(after, flag);
  }

  /** Every run but the last was retried: for a rate limit, at most three times, or for a context
      that was too long, at most once. Before each run the watcher sleeps thirty seconds for every
      rate limit so far, and after a context reset the arguments no longer continue a session. */
  ghost predicate Retried(history: seq<Attempt>, args: seq<string>)
    decreases |history|
  {
    history != [] ==>
      var before, now := history[..|history| - 1], history[|history| - 1];
      && Retried(before, args)
      && Count(RateLimited, before) + Count(TooLong, before) == |before|
      && Count(RateLimited, before) <= MAX_RETRIES && Count(TooLong, before) <= 1
      && now.delay == RETRY_BASE * Count(RateLimited, before)
      && now.args == (if Count(TooLong, before) == 1 then DropFlag(args, "--continue") else args)
  }

  /** What the last run decides. */
  function Verdict(last: Outcome): Result<(), InvokeError> {
    if last.Succeeded? then Ok(())
    else if last.credit then Err(Cooldown)
    else if last.rateLimited then Err(Exhausted)
    else Err(Refused)
  }

  function TotalDelay(history: seq<Attempt>): nat
    decreases |history|
  {
    if history == [] then 0 else TotalDelay(history[..|history| - 1]) + history[|history| - 1].delay
  }

  /** At most five runs and, whatever they print, at most 270 seconds of sleep between them. */
  lemma {:induction false} RetriesBounded(history: seq<Attempt>, args: seq<string>)
    requires Retried(history, args)
    ensures |history| <= MAX_RETRIES + 2
    ensures TotalDelay(history) <= 270
  {
    DelaysBounded(history, args);
  }

  lemma {:induction false} DelaysBounded(history: seq<Attempt>, args: seq<string>)
    requires Retried(history, args)
    ensures |history| <= 5
    ensures TotalDelay(history) <= [0, 0, 30, 90, 180, 270][|history|]
    decreases |history|
  {
    if history != [] {
      var before := history[..|history| - 1];
      DelaysBounded(before, args);
    }
  }

  predicate Paused(until: Option<int>, now: int) {
    until.Some? && now < until.value
  }

  /** An invocation that was made: its runs are those the command was seen to make, retried as
      above, and the last of them decides. It gives up on rate limits only after four. */
  ghost predicate Invoked(history: seq<Attempt>, args: seq<string>, runs: nat -> Outcome, r: Result<(), InvokeError>) {
    && history != [] && Retried(history, args) && AsRun(history, runs)
    && r == Verdict(history[|history| - 1].outcome)
    && (r == Err(Exhausted) ==> Count(RateLimited, history) == MAX_RETRIES + 1)
    && (TooLong(history[|history| - 1].outcome) ==> Count(TooLong, history) == 2)
  }

  ghost predicate AsRun(history: seq<Attempt>, runs: nat -> Outcome) {
    forall k {:trigger history[k]} | 0 <= k < |history| :: history[k].outcome == runs(k)
  }

  lemma {:induction false} RetriedOnly(history: seq<Attempt>, args: seq<string>)
    requires Retried(history, args)
    ensures forall k | 0 <= k < |history| - 1 :: RateLimited(history[k].outcome) || TooLong(history[k].outcome)
  {
    if |history| > 1 {
      AllCounted(history[..|history| - 1]);
    }
  }

  lemma {:induction false} AllCounted(history: seq<Attempt>)
    requires Count(RateLimited, history) + Count(TooLong, history) == |history|
    ensures forall k | 0 <= k < |history| :: RateLimited(history[k].outcome) || TooLong(history[k].outcome)
    decreases |history|
  {
    if history != [] {
      var before := history[..|history| - 1];
      CountBound(before);
      AllCounted(before);
    }
  }

  lemma {:induction false} CountBound(history: seq<Attempt>)
    ensures Count(RateLimited, history) + Count(TooLong, history) <= |history|
    decreases |history|
  {
    if history != [] {
      CountBound(history[..|history| - 1]);
    }
  }

  /** At most five runs, the last of which decides; the others failed in a way that is retried. */
  ghost predicate LastDecides(runs: nat -> Outcome, made: nat, r: Result<(), InvokeError>) {
    && 1 <= made <= 5
    && (match runs(made - 1)
        case Succeeded => r == Ok(())
        case Failed(credit, rateLimited, _) =>
          r == Err(if credit then Cooldown else if rateLimited then Exhausted else Refused))
    && forall k | 0 <= k < made - 1 :: runs(k).Failed? && !runs(k).credit && (runs(k).rateLimited || runs(k).tooLong)
  }

  /** An invocation that was made, in terms of the runs alone. */
  lemma InvokedRuns(history: seq<Attempt>, args: seq<string>, runs: nat -> Outcome, r: Result<(), InvokeError>)
    requires Invoked(history, args, runs, r)
    ensures LastDecides(runs, |history|, r)
  {
    RetriesBounded(history, args);
    RetriedOnly(history, args);
    assert history[|history| - 1].outcome == runs(|history| - 1);
    forall k | 0 <= k < |history| - 1
      ensures RateLimited(runs(k)) || TooLong(runs(k))
    {
      assert history[k].outcome == runs(k);
    }
  }

  /** The retry loop between two runs. */
  ghost predicate Trying(history: seq<Attempt>, args: seq<string>, runs: nat -> Outcome,
                         attempt: int, reset: bool, current: seq<string>) {
    && 0 <= attempt <= MAX_RETRIES + 1 && Retried(history, args) && AsRun(history, runs)
    && Count(RateLimited, history) == attempt && Count(TooLong, history) == (if reset then 1 else 0)
    && |history| == attempt + (if reset then 1 else 0)
    && current == (if reset then DropFlag(args, "--continue") else args)
  }

  lemma OneMore(history: seq<Attempt>, args: seq<string>, runs: nat -> Outcome,
                attempt: int, reset: bool, current: seq<string>, more: seq<Attempt>)
    requires Trying(history, args, runs, attempt, reset, current) && attempt <= MAX_RETRIES
    requires more == history + [Attempt(RETRY_BASE * attempt, current, runs(|history|))]
    ensures Retried(more, args) && AsRun(more, runs)
    ensures Count(RateLimited, more) == attempt + if RateLimited(runs(|history|)) then 1 else 0
    ensures Count(TooLong, more) == (if reset then 1 else 0) + (if TooLong(runs(|history|)) then 1 else 0)
  {
    assert more[..|more| - 1] == history;
  }

  /** One run, and where it leaves the loop. */
  lemma OneRun(history: seq<Attempt>, args: seq<string>, runs: nat -> Outcome,
               attempt: int, reset: bool, current: seq<string>, more: seq<Attempt>)
    requires Trying(history, args, runs, attempt, reset, current) && attempt <= MAX_RETRIES
    requires more == history + [Attempt(RETRY_BASE * attempt, current, runs(|history|))]
    ensures var o := runs(|history|);
            if o.Succeeded? then Invoked(more, args, runs, Ok(()))
            else if o.credit then Invoked(more, args, runs, Err(Cooldown))
            else if o.rateLimited then
              && Trying(more, args, runs, attempt + 1, reset, current)
              && (attempt == MAX_RETRIES ==> Invoked(more, args, runs, Err(Exhausted)))
            else if reset || !o.tooLong then Invoked(more, args, runs, Err(Refused))
            else Trying(more, args, runs, attempt, true, DropFlag(current, "--continue"))
  {
    OneMore(history, args, runs, attempt, reset, current, more);
    assert more[|more| - 1].outcome == runs(|history|);
  }

  /** The second loop: the gate. */
  method ApplyGate(gate: bool, candidates: seq<Entry>) returns (wanted: seq<Entry>)
    requires forall e | e in candidates :: Usable(e)
    ensures wanted == Select(Gated(gate), candidates)
    ensures forall e | e in candidates && e.content.Some? :: e in wanted <==> (gate ==> Actionable(e.content.value))
  {
    wanted := [];
    for i := 0 to |candidates|
      invariant wanted == Select(Gated(gate), candidates[..i])
    {
      var e := candidates[i];
      assert candidates[..i + 1] == candidates[..i] + [e];
      SelectConcat(Gated(gate), candidates[..i], [e]);
      SelectOne(Gated(gate), e);
      if !(gate && Trivial(e.content.value)) {
        wanted := wanted + [e];
      }
    }
    assert candidates[..|candidates|] == candidates;
    forall e | e in candidates
      ensures e in wanted <==> (gate ==> Actionable(e.content.value))
    {
      GateIff(gate, candidates, e);
    }
  }

  /** The watcher: `creditExhaustedUntil`, its cursor file, and what it has handed over. */
  class Watcher {
    var cursor: string                     // the saved cursor file, "" when there is none
    var creditUntil: Option<int>
    ghost var invoked: seq<seq<Entry>>     // the batches of the invocations that succeeded

    constructor (cursor: string)
      ensures this.cursor == cursor && creditUntil == None && invoked == []
    {
      this.cursor, this.creditUntil, this.invoked := cursor, None, [];
    }

    /** The retry loop of `invokeWithRetry`. The k-th run ends as `runs(k)`. */
    method RunWithRetries(args: seq<string>, runs: nat -> Outcome)
      returns (r: Result<(), InvokeError>, made: nat, ghost history: seq<Attempt>)
      ensures Invoked(history, args, runs, r) && made == |history| && LastDecides(runs, made, r)
    {
      history, made, r := [], 0, Err(Exhausted);
      var current, reset, attempt := args, false, 0;
      while attempt <= MAX_RETRIES
        invariant made == |history| && Trying(history, args, runs, attempt, reset, current)
        invariant r == Err(Exhausted) && (attempt > MAX_RETRIES ==> Invoked(history, args, runs, r))
        decreases if reset then 0 else 1, MAX_RETRIES - attempt
      {
        var delay := if attempt > 0 then RETRY_BASE * attempt else 0;
        var outcome := runs(made);
        ghost var more := history + [Attempt(delay, current, outcome)];
        OneRun(history, args, runs, attempt, reset, current, more);
        history := more;
        made := made + 1;
        if outcome.Succeeded? {
          r := Ok(());
          break;
        }
        if outcome.credit {
          r := Err(Cooldown);
          break;
        }
        if !outcome.rateLimited {
          if reset || !outcome.tooLong {
            r := Err(Refused);
            break;
          }
          current, reset := DropFlag(current, "--continue"), true;
          attempt := attempt - 1; // this run does not count as a retry
        }
        attempt := attempt + 1;
      }
      InvokedRuns(history, args, runs, r);
    }

    /** `invokeWithRetry`; the k-th run ends at time `clock(k)`. */
    method InvokeWithRetry(args: seq<string>, now: int, runs: nat -> Outcome, clock: nat -> int)
      returns (r: Result<(), InvokeError>, ghost history: seq<Attempt>)
      modifies this`creditUntil
      ensures old(creditUntil).Some? && now < old(creditUntil).value ==>
                history == [] && r == Err(Cooldown) && creditUntil == old(creditUntil)
      ensures !(old(creditUntil).Some? && now < old(creditUntil).value) ==>
                Invoked(history, args, runs, r) && LastDecides(runs, |history|, r)
      ensures !(old(creditUntil).Some? && now < old(creditUntil).value) ==>
                creditUntil == if r == Err(Cooldown) then Some(clock(|history| - 1) + 600) else old(creditUntil)
    {
      history := [];
      if Paused(creditUntil, now) {
        return Err(Cooldown), history;
      }
      var made;
      r, made, history := RunWithRetries(args, runs);
      if r == Err(Cooldown) {
        creditUntil := Some(clock(made - 1) + CREDIT_COOLDOWN);
      }
    }

    ghost function Now(entries: seq<Entry>): State
      reads this
    {
      State(entries, cursor, invoked)
    }

    /** The first loop: the observation files after the cursor, in file order. */
    method Collect(entries: seq<Entry>) returns (candidates: seq<Entry>)
      ensures candidates == Select(Files, Rest(Now(entries)))
    {
      var last := ReadCursor(cursor);
      candidates := [];
      for i := 0 to |entries|
        invariant candidates == Select(Files, Select(Past(last), entries[..i]))
      {
        var e := entries[i];
        SelectNext(last, entries, i);
        if Usable(e) && (last == "" || Less(last, e.name)) {
          candidates := candidates + [e];
        }
      }
      assert entries[..|entries|] == entries;
    }

    /** The first half of a poll: collect, gate, cap. */
    method PlanPoll(entries: seq<Entry>, gate: bool) returns (plan: Take)
      ensures plan == Plan(Rest(Now(entries)), gate)
    {
      var candidates := Collect(entries);
      if candidates == [] {
        return Nothing;
      }
      SelectedHold(Files, Rest(Now(entries)));
      var wanted := ApplyGate(gate, candidates);
      var newest := candidates[|candidates| - 1].name;
      if wanted == [] {
        return Skip(newest);
      }
      if |wanted| > MAX_BATCH_OBS {
        wanted := wanted[..MAX_BATCH_OBS];
        newest := wanted[|wanted| - 1].name;
      }
      plan := Batch(wanted, newest);
    }

    /** `pollBatched`, on the directory as it is listed, by name. The command is invoked exactly when
        there is a batch and no pause, and the poll succeeds exactly when that invocation does. */
    method PollBatched(entries: seq<Entry>, gate: bool, args: seq<string>, now: int,
                       runs: nat -> Outcome, clock: nat -> int)
      returns (r: Result<bool, InvokeError>, ghost history: seq<Attempt>, ghost outcome: Result<(), InvokeError>)
      modifies this
      ensures var plan := Plan(Rest(old(Now(entries))), gate);
              if plan.Batch? && !(old(creditUntil).Some? && now < old(creditUntil).value) then
                && Invoked(history, args, runs, outcome)
                && Now(entries) == Polled(gate, old(Now(entries)), outcome.Ok?)
                && creditUntil == (if outcome == Err(Cooldown) then Some(clock(|history| - 1) + 600)
                                   else old(creditUntil))
                && r == (if outcome.Ok? then Ok(true) else if outcome.error == Cooldown then Ok(false) else Err(outcome.error))
              else
                && history == [] && creditUntil == old(creditUntil)
                && Now(entries) == Polled(gate, old(Now(entries)), false)
                && r == Ok(plan.Skip?)
    {
      history, outcome := [], Err(Cooldown);
      var plan := PlanPoll(entries, gate);
      match plan {
        case Nothing => return Ok(false), history, outcome;
        case Skip(newest) =>
          cursor := newest;
          return Ok(true), history, outcome;
        case Batch(batch, newest) =>
          if Paused(creditUntil, now) {
            return Ok(false), history, outcome;
          }
          var result;
          result, history := InvokeWithRetry(args, now, runs, clock);
          outcome := result;
          if result.Ok? {
            cursor, invoked := newest, invoked + [batch];
          }
          r := Dispatched(result);
      }
    }
  }

  /** What a poll says of the invocation it made: a cooldown is no error, only nothing done. */
  function Dispatched(outcome: Result<(), InvokeError>): Result<bool, InvokeError> {
    match outcome
    case Ok(_) => Ok(true)
    case Err(e) => if e == Cooldown then Ok(false) else Err(e)
  }

  lemma SelectNext(last: string, entries: seq<Entry>, i: nat)
    requires i < |entries|
    ensures Select(Files, Select(Past(last), entries[..i + 1]))
         == Select(Files, Select(Past(last), entries[..i]))
            + if Usable(entries[i]) && (last == "" || Less(last, entries[i].name)) then [entries[i]] else []
  {
    var e := entries[i];
    assert entries[..i + 1] == entries[..i] + [e];
    SelectConcat(Past(last), entries[..i], [e]);
    SelectOne(Past(last), e);
    SelectConcat(Files, Select(Past(last), entries[..i]), Select(Past(last), [e]));
    SelectOne(Files, e);
  }
}
