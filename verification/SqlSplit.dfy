/** The migration runner's statement splitter: a lexer that cuts SQL text at its top-level semicolons. */
module SqlSplit {
  import opened Wrappers
  import opened Text

  /** What the rune at hand is part of. BlockEnd is the slash of a closing star and slash. */
  datatype Mode = Top | Line | Block | BlockEnd | Quoted(quote: char)

  predicate IsQuote(ch: char) {
    ch == '\'' || ch == '"' || ch == '`'
  }

  /** The mode after a rune, given the rune before it and the one that follows, if any. */
  function After(m: Mode, prev: Option<char>, ch: char, next: Option<char>): Mode {
    match m
    case Line => if ch == '\n' then Top else Line
    case Block => if ch == '*' && next == Some('/') then BlockEnd else Block
    case BlockEnd => Top
    case Quoted(q) => if ch == q && prev != Some('\\') then Top else Quoted(q)
    case Top =>
      if ch == '-' && next == Some('-') then Line
      else if ch == '/' && next == Some('*') then Block
      else if IsQuote(ch) then Quoted(ch)
      else Top
  }

  function RuneAt(src: string, i: int): Option<char> {
    if 0 <= i < |src| then Some(src[i]) else None
  }

  /** The mode in which the rune at `k` is read, or the text ends. */
  function ModeAt(src: string, k: nat): Mode
    requires k <= |src|
  {
    if k == 0 then Top
    else After(ModeAt(src, k - 1), RuneAt(src, k - 2), src[k - 1], RuneAt(src, k))
  }

  /** A semicolon outside every comment and quotation. */
  predicate Cut(src: string, k: nat)
    requires k < |src|
  {
    src[k] == ';' && ModeAt(src, k) == Top
  }

  /** Nothing is left open at the end, and no semicolon is at the top level. */
  predicate Closed(s: string) {
    ModeAt(s, |s|) == Top && forall k: nat | k < |s| :: !Cut(s, k)
  }

  // ---- the reference definition: cut once, then start afresh on the rest ----

  /** The first top-level semicolon at or after `from`, or the length of the text. */
  function FirstCut(src: string, from: nat): (k: nat)
    requires from <= |src|
    ensures from <= k <= |src|
    ensures forall i: nat | from <= i < k :: !Cut(src, i)
    ensures k < |src| ==> Cut(src, k)
    decreases |src| - from
  {
    if from == |src| || Cut(src, from) then from else FirstCut(src, from + 1)
  }

  datatype Pieces = Pieces(stmts: seq<string>, tail: string)

  function Split(src: string): Pieces
    decreases |src|
  {
    var k := FirstCut(src, 0);
    if k == |src| then Pieces([], src)
    else
      var rest := Split(src[k + 1..]);
      Pieces([src[..k]] + rest.stmts, rest.tail)
  }

  function LastStatement(tail: string): seq<string> {
    if TrimSpace(tail) != "" then [TrimSpace(tail)] else []
  }

  function SplitStatements(src: string): seq<string> {
    Split(src).stmts + LastStatement(Split(src).tail)
  }

  /** Statements, each ended by a semicolon. */
  function Terminated(stmts: seq<string>): string {
    if stmts == [] then "" else stmts[0] + ";" + Terminated(stmts[1..])
  }

  lemma {:induction false} FirstCutIs(src: string, from: nat, k: nat)
    requires from <= k <= |src| && (forall i: nat | from <= i < k :: !Cut(src, i)) && (k < |src| ==> Cut(src, k))
    ensures FirstCut(src, from) == k
    decreases k - from
  {
    if from < k {
      FirstCutIs(src, from + 1, k);
    }
  }

  lemma SplitAt(src: string, k: nat)
    requires k < |src| && FirstCut(src, 0) == k
    ensures Split(src) == Pieces([src[..k]] + Split(src[k + 1..]).stmts, Split(src[k + 1..]).tail)
  {
  }

  lemma CutHere(src: string, k: nat)
    requires k < |src| && Cut(src, k) && forall i: nat | i < k :: !Cut(src, i)
    ensures Split(src) == Pieces([src[..k]] + Split(src[k + 1..]).stmts, Split(src[k + 1..]).tail)
  {
    FirstCutIs(src, 0, k);
    SplitAt(src, k);
  }

  // ---- the loop ----

  function FlagsMode(inLine: bool, inBlock: bool, inString: bool, quote: char): Mode {
    if inLine then Line else if inBlock then Block else if inString then Quoted(quote) else Top
  }

  /** What is left of the loop from rune `i` on. */
  function LexFrom(src: string, i: nat, stmts: seq<string>, cur: string, m: Mode): Pieces
    requires i <= |src|
    decreases |src| - i
  {
    if i == |src| then Pieces(stmts, cur)
    else if m == Top && src[i] == ';' then LexFrom(src, i + 1, stmts + [cur], "", Top)
    else LexFrom(src, i + 1, stmts, cur + [src[i]], After(m, RuneAt(src, i - 1), src[i], RuneAt(src, i + 1)))
  }

  /** The loop at rune `i`: the current statement began at `base` and has no top-level semicolon yet. */
  ghost predicate Reading(src: string, base: nat, i: nat, m: Mode) {
    && base <= i <= |src| && m == ModeAt(src[base..], i - base)
    && forall k: nat | k < i - base :: !Cut(src[base..], k)
  }

  lemma ReadOn(src: string, base: nat, i: nat, m: Mode)
    requires Reading(src, base, i, m) && i < |src| && !(m == Top && src[i] == ';')
    ensures Reading(src, base, i + 1, After(m, RuneAt(src, i - 1), src[i], RuneAt(src, i + 1)))
  {
    var text, k := src[base..], i - base;
    assert text[k] == src[i] && RuneAt(text, k + 1) == RuneAt(src, i + 1);
    if k == 0 {
      assert m == Top;
    } else {
      assert RuneAt(text, k - 1) == RuneAt(src, i - 1);
    }
  }

  /** One turn of the loop at a top-level semicolon. */
  lemma {:induction false} LexCut(src: string, base: nat, i: nat, stmts: seq<string>, cur: string, rest: Pieces)
    requires Reading(src, base, i, Top) && cur == src[base..i] && rest == Split(src[base..])
    requires i < |src| && src[i] == ';'
    ensures LexFrom(src, i, stmts, cur, Top) == Pieces(stmts + rest.stmts, rest.tail)
    decreases |src| - i, 0
  {
    CutFrom(src, base, i);
    var after := Split(src[i + 1..]);
    LexIsSplit(src, i + 1, i + 1, stmts + [cur], "", Top, after);
    Push(stmts, cur, after.stmts);
  }

  /** One turn of the loop at any other rune. */
  lemma {:induction false} LexOn(src: string, base: nat, i: nat, stmts: seq<string>, cur: string, m: Mode, rest: Pieces)
    requires Reading(src, base, i, m) && cur == src[base..i] && rest == Split(src[base..])
    requires i < |src| && !(m == Top && src[i] == ';')
    ensures LexFrom(src, i, stmts, cur, m) == Pieces(stmts + rest.stmts, rest.tail)
    decreases |src| - i, 0
  {
    ReadOn(src, base, i, m);
    GrownBy(src, base, i);
    LexIsSplit(src, base, i + 1, stmts, cur + [src[i]], After(m, RuneAt(src, i - 1), src[i], RuneAt(src, i + 1)), rest);
  }

  lemma GrownBy(src: string, base: nat, i: nat)
    requires base <= i < |src|
    ensures src[base..i + 1] == src[base..i] + [src[i]]
  {
  }

  /** The loop computes the reference definition. */
  lemma {:induction false} LexIsSplit(src: string, base: nat, i: nat, stmts: seq<string>, cur: string, m: Mode, rest: Pieces)
    requires Reading(src, base, i, m) && cur == src[base..i] && rest == Split(src[base..])
    ensures LexFrom(src, i, stmts, cur, m) == Pieces(stmts + rest.stmts, rest.tail)
    decreases |src| - i, 1
  {
    if i == |src| {
      NoneLeft(src, base, m, cur);
      assert stmts + [] == stmts;
    } else if m == Top && src[i] == ';' {
      LexCut(src, base, i, stmts, cur, rest);
    } else {
      LexOn(src, base, i, stmts, cur, m, rest);
    }
  }

  lemma NoneLeft(src: string, base: nat, m: Mode, cur: string)
    requires Reading(src, base, |src|, m) && cur == src[base..|src|]
    ensures Split(src[base..]) == Pieces([], cur)
  {
    FirstCutIs(src[base..], 0, |src| - base);
  }

  lemma CutFrom(src: string, base: nat, i: nat)
    requires Reading(src, base, i, Top) && i < |src| && src[i] == ';'
    ensures Split(src[base..]) == Pieces([src[base..i]] + Split(src[i + 1..]).stmts, Split(src[i + 1..]).tail)
  {
    assert src[base..][i - base] == ';';
    CutHere(src[base..], i - base);
    assert src[base..][i - base + 1..] == src[i + 1..];
    assert src[base..][..i - base] == src[base..i];
  }

  lemma Push(stmts: seq<string>, cur: string, rest: seq<string>)
    ensures stmts + ([cur] + rest) == stmts + [cur] + rest
  {
  }

  lemma LoopIsSplit(src: string)
    ensures LexFrom(src, 0, [], "", Top) == Split(src)
  {
    assert src[0..] == src && [] + Split(src).stmts == Split(src).stmts;
    LexIsSplit(src, 0, 0, [], "", Top, Split(src));
  }

  /** `splitSQL`. */
  method SplitSql(src: string) returns (stmts: seq<string>)
    ensures stmts == SplitStatements(src)
  {
    stmts := [];
    var cur := "";
    var inLine, inBlock, inString, stringChar := false, false, false, ' ';
    var i := 0;
    ghost var m := Top;
    ghost var goal := Split(src);
    LoopIsSplit(src);
    while i < |src|
      invariant i <= |src|
      invariant !(inLine && inBlock) && !(inLine && inString) && !(inBlock && inString)
      invariant m == FlagsMode(inLine, inBlock, inString, stringChar)
      invariant LexFrom(src, i, stmts, cur, m) == goal
    {
      var ch, next := src[i], RuneAt(src, i + 1);
      m := After(m, RuneAt(src, i - 1), ch, next);
      if inLine {
        if ch == '\n' {
          inLine := false;
        }
        cur := cur + [ch];
      } else if inBlock {
        if ch == '*' && next == Some('/') {
          inBlock := false;
          cur := cur + [ch];
          i := i + 1;
          m := Top;
          cur := cur + [next.value];
        } else {
          cur := cur + [ch];
        }
      } else if inString {
        cur := cur + [ch];
        if ch == stringChar && (i == 0 || src[i - 1] != '\\') {
          inString := false;
        }
      } else if ch == '-' && next == Some('-') {
        inLine := true;
        cur := cur + [ch];
      } else if ch == '/' && next == Some('*') {
        inBlock := true;
        cur := cur + [ch];
      } else if IsQuote(ch) {
        inString, stringChar := true, ch;
        cur := cur + [ch];
      } else if ch == ';' {
        stmts := stmts + [cur];
        cur := "";
      } else {
        cur := cur + [ch];
      }
      i := i + 1;
    }
    stmts := stmts + LastStatement(cur);
  }

  // ---- what splitting does ----

  lemma Rejoin(src: string, k: nat, stmts: string, tail: string)
    requires k < |src| && src[k] == ';' && stmts + tail == src[k + 1..]
    ensures src[..k] + ";" + stmts + tail == src
  {
    assert src[..k] + ";" + stmts + tail == src[..k] + ";" + (stmts + tail);
  }

  /** No rune is lost but the cutting semicolons and what is trimmed off the last statement. */
  lemma {:induction false} NothingLost(src: string)
    ensures Terminated(Split(src).stmts) + Split(src).tail == src
    decreases |src|
  {
    var k := FirstCut(src, 0);
    if k < |src| {
      NothingLost(src[k + 1..]);
      var rest := Split(src[k + 1..]);
      assert Split(src).stmts[1..] == rest.stmts;
      Rejoin(src, k, Terminated(rest.stmts), rest.tail);
    }
  }

  /** After a top-level semicolon the lexer is in its initial mode, whatever came before. */
  lemma {:induction false} FreshAfterCut(src: string, c: nat, k: nat)
    requires c < |src| && Cut(src, c) && c + 1 + k <= |src|
    ensures ModeAt(src, c + 1 + k) == ModeAt(src[c + 1..], k)
  {
    var text := src[c + 1..];
    if k > 0 {
      FreshAfterCut(src, c, k - 1);
      assert text[k - 1] == src[c + k] && RuneAt(text, k) == RuneAt(src, c + 1 + k);
      if k > 1 {
        assert RuneAt(text, k - 2) == RuneAt(src, c + k - 1);
      }
    }
  }

  /** A piece ends at this position of the source. */
  predicate EndsAt(stmts: seq<string>, k: int)
    decreases |stmts|
  {
    stmts != [] && (k == |stmts[0]| || (k > |stmts[0]| && EndsAt(stmts[1..], k - |stmts[0]| - 1)))
  }

  lemma EndsStep(src: string, c: nat, k: nat)
    requires c < |src| && c == FirstCut(src, 0)
    ensures EndsAt(Split(src).stmts, k)
       <==> k == c || (k > c && EndsAt(Split(src[c + 1..]).stmts, k - c - 1))
  {
    SplitAt(src, c);
    assert Split(src).stmts[1..] == Split(src[c + 1..]).stmts && |Split(src).stmts[0]| == c;
  }

  /** The text is cut at every semicolon outside comments and quotations, and nowhere else. */
  lemma {:induction false} CutsExactly(src: string, k: nat)
    requires k < |src|
    ensures Cut(src, k) <==> EndsAt(Split(src).stmts, k)
    decreases |src|
  {
    var c := FirstCut(src, 0);
    if c < |src| {
      EndsStep(src, c, k);
      if k > c {
        var rest := src[c + 1..];
        FreshAfterCut(src, c, k - c - 1);
        CutsExactly(rest, k - c - 1);
        assert rest[k - c - 1] == src[k];
      }
    }
  }

  /** Before a semicolon, a statement is read as it is read alone. */
  lemma {:induction false} ReadsAlone(s: string, after: string, k: nat)
    requires k <= |s|
    ensures ModeAt(s + ";" + after, k) == ModeAt(s, k)
  {
    if k > 0 {
      ReadsAlone(s, after, k - 1);
    }
  }

  lemma ClosedIsFirstCut(s: string, after: string)
    ensures Closed(s) <==> FirstCut(s + ";" + after, 0) == |s|
  {
    var src := s + ";" + after;
    forall k: nat | k <= |s|
      ensures ModeAt(src, k) == ModeAt(s, k)
    {
      ReadsAlone(s, after, k);
    }
    assert forall k: nat | k < |s| :: Cut(src, k) == Cut(s, k);
    if Closed(s) {
      FirstCutIs(src, 0, |s|);
    }
  }

  lemma {:induction false} PiecesIff(stmts: seq<string>)
    ensures Split(Terminated(stmts)) == Pieces(stmts, "") <==> forall s | s in stmts :: Closed(s)
  {
    if stmts != [] {
      var s, rest := stmts[0], Terminated(stmts[1..]);
      var src := s + ";" + rest;
      ClosedIsFirstCut(s, rest);
      PiecesIff(stmts[1..]);
      FirstPiece(s, rest);
      assert Split(src).stmts != [] ==> stmts == [s] + stmts[1..];
    }
  }

  /** The first piece is `s` exactly when `s` is closed, and then the rest is split on its own. */
  lemma FirstPiece(s: string, rest: string)
    ensures var p := Split(s + ";" + rest);
            if Closed(s) then p == Pieces([s] + Split(rest).stmts, Split(rest).tail) else p.stmts == [] || p.stmts[0] != s
  {
    var src := s + ";" + rest;
    ClosedIsFirstCut(s, rest);
    var k := FirstCut(src, 0);
    if k < |src| {
      SplitAt(src, k);
      assert k == |s| ==> src[..k] == s && src[k + 1..] == rest;
    }
  }

  lemma {:induction false} LastRune(stmts: seq<string>)
    requires stmts != []
    ensures var src := Terminated(stmts); src != "" && src[|src| - 1] == ';'
  {
    if |stmts| > 1 {
      LastRune(stmts[1..]);
    }
  }

  /** Text ending in a semicolon is not what it becomes when trimmed and ended by one. */
  lemma TrimmedDiffers(tail: string)
    requires tail != "" && tail[|tail| - 1] == ';'
    ensures TrimSpace(tail) != "" && TrimSpace(tail) + ";" != tail
  {
    TrimVisible(tail);
    var t := TrimSpace(tail);
    assert (t + ";")[0] == t[0] && |t + ";"| == |t| + 1;
  }

  lemma {:induction false} Regroup(stmts: seq<string>, t: string)
    ensures Terminated(stmts + [t]) == Terminated(stmts) + (t + ";")
  {
    if stmts == [] {
      assert [t][1..] == [];
      assert stmts + [t] == [t];
    } else {
      assert (stmts + [t])[1..] == stmts[1..] + [t];
      Regroup(stmts[1..], t);
      var a, b := stmts[0] + ";", Terminated(stmts[1..]);
      assert a + (b + (t + ";")) == a + b + (t + ";");
    }
  }

  /** A list that leaves a tail is not given back. */
  lemma TailDiffers(stmts: seq<string>, cut: seq<string>, tail: string)
    requires stmts != [] && tail != "" && Terminated(cut) + tail == Terminated(stmts)
    ensures cut + LastStatement(tail) != stmts
  {
    var src, t := Terminated(stmts), TrimSpace(tail);
    LastRune(stmts);
    assert tail[|tail| - 1] == src[|src| - 1];
    TrimmedDiffers(tail);
    Regroup(cut, t);
    assert src[|Terminated(cut)|..] == tail;
    assert (Terminated(cut) + (t + ";"))[|Terminated(cut)|..] == t + ";";
  }

  /** Splitting a list of statements, each ended by a semicolon, gives back that list if and only
      if every statement is lexically closed and has no semicolon at the top level. */
  lemma SplitsBackIff(stmts: seq<string>)
    ensures SplitStatements(Terminated(stmts)) == stmts <==> forall s | s in stmts :: Closed(s)
  {
    PiecesIff(stmts);
    var src := Terminated(stmts);
    var p := Split(src);
    if p.tail == "" {
      assert p.stmts + LastStatement("") == p.stmts;
    } else {
      NothingLost(src);
      TailDiffers(stmts, p.stmts, p.tail);
    }
  }

  // ---- what each kind of text is to the lexer ----

  /** From `k` on and for as long as the text has no `end`, every rune is read in one mode. */
  lemma {:induction false} StaysQuoted(src: string, q: char, k: nat)
    requires 1 <= k <= |src| && ModeAt(src, 1) == Quoted(q) && forall i | 1 <= i < k :: src[i] != q
    ensures ModeAt(src, k) == Quoted(q)
  {
    if k > 1 {
      StaysQuoted(src, q, k - 1);
    }
  }

  /** Text between two quotes of one of the three kinds, whatever it holds but that quote, is closed
      and not cut, if and only if no backslash is before the second quote. */
  lemma QuotationClosedIff(q: char, body: string)
    requires (q == '\'' || q == '"' || q == '`') && q !in body
    ensures Closed([q] + body + [q]) <==> body == "" || body[|body| - 1] != '\\'
  {
    var src := [q] + body + [q];
    assert ModeAt(src, 1) == Quoted(q) && |src| == |body| + 2;
    forall k: nat | 1 <= k <= |body| + 1
      ensures ModeAt(src, k) == Quoted(q)
    {
      forall i | 1 <= i < k
        ensures src[i] != q
      {
        assert src[i] == body[i - 1];
      }
      StaysQuoted(src, q, k);
    }
    assert !Cut(src, 0);
    assert src[|body| + 1] == q && src[|body|] == if body == "" then q else body[|body| - 1];
    assert ModeAt(src, |body| + 2) == After(Quoted(q), RuneAt(src, |body|), q, None);
  }

  lemma {:induction false} StaysLine(src: string, k: nat)
    requires 1 <= k <= |src| && ModeAt(src, 1) == Line && forall i | 1 <= i < k :: src[i] != '\n'
    ensures ModeAt(src, k) == Line
  {
    if k > 1 {
      StaysLine(src, k - 1);
    }
  }

  /** Two hyphens and everything up to the end of the line are closed and not cut. */
  lemma LineCommentClosed(body: string)
    requires '\n' !in body
    ensures Closed("--" + body + "\n")
  {
    var src := "--" + body + "\n";
    assert src[0] == '-' && src[1] == '-' && |src| == |body| + 3;
    assert ModeAt(src, 0) == Top && ModeAt(src, 1) == Line;
    forall k: nat | 1 <= k <= |body| + 2
      ensures ModeAt(src, k) == Line
    {
      forall i | 1 <= i < k
        ensures src[i] != '\n'
      {
        assert i == 1 || src[i] == body[i - 2];
      }
      StaysLine(src, k);
    }
    assert src[|body| + 2] == '\n';
    assert ModeAt(src, |body| + 3) == Top;
  }

  lemma {:induction false} StaysBlock(src: string, k: nat)
    requires 1 <= k <= |src| && ModeAt(src, 1) == Block && forall i | 1 <= i < k && i + 1 < |src| :: src[i] != '*' || src[i + 1] != '/'
    requires k < |src| || src[|src| - 1] != '*'
    ensures ModeAt(src, k) == Block
  {
    if k > 1 {
      StaysBlock(src, k - 1);
    }
  }

  /** An opening slash and star, text without a star, and a closing star and slash are closed and not
      cut. */
  lemma BlockCommentClosed(body: string)
    requires '*' !in body && (body != "" ==> body[0] != '/')
    ensures Closed("/*" + body + "*/")
  {
    var src := "/*" + body + "*/";
    var n := |body|;
    assert src[0] == '/' && src[1] == '*' && src[n + 2] == '*' && src[n + 3] == '/' && |src| == n + 4;
    assert forall i | 2 <= i < n + 2 :: src[i] == body[i - 2];
    assert ModeAt(src, 0) == Top && ModeAt(src, 1) == Block;
    forall k: nat | 1 <= k <= n + 2
      ensures ModeAt(src, k) == Block
    {
      StaysBlock(src, k);
    }
    assert ModeAt(src, n + 3) == BlockEnd;
    assert ModeAt(src, n + 4) == Top;
  }

  predicate Plain(ch: char) {
    ch != '-' && ch != '/' && ch != '\'' && ch != '"' && ch != '`'
  }

  /** In text without quotes, hyphens and slashes every semicolon is cut at, and no other place. */
  lemma {:induction false} PlainIsTop(src: string, k: nat)
    requires k <= |src| && forall ch | ch in src :: Plain(ch)
    ensures ModeAt(src, k) == Top && (k < |src| ==> (Cut(src, k) <==> src[k] == ';'))
  {
    if k > 0 {
      PlainIsTop(src, k - 1);
      assert src[k - 1] in src;
    }
  }
}
