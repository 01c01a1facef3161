/** The few string operations the other modules share. */
module Text {

  /** `unicode.IsSpace`. */
  predicate IsSpace(ch: char) {
    || '\t' <= ch <= '\r' || ch == ' ' || ch == '\U{0085}' || ch == '\U{00A0}' || ch == '\U{1680}'
    || '\U{2000}' <= ch <= '\U{200A}' || ch == '\U{2028}' || ch == '\U{2029}' || ch == '\U{202F}'
    || ch == '\U{205F}' || ch == '\U{3000}'
  }

  /** By code point: the ASCII five and the space, next line, and the spaces and separators of Unicode. */
  lemma SpaceIs(ch: char)
    ensures IsSpace(ch) <==> ch as int in {
      9, 10, 11, 12, 13, 32, 133, 160, 5760, 8192, 8193, 8194, 8195, 8196, 8197, 8198, 8199, 8200, 8201, 8202,
      8232, 8233, 8239, 8287, 12288}
  {
  }

  function TrimLeft(s: string): string {
    if s != "" && IsSpace(s[0]) then TrimLeft(s[1..]) else s
  }

  function TrimRight(s: string): string
    decreases |s|
  {
    if s != "" && IsSpace(s[|s| - 1]) then TrimRight(s[..|s| - 1]) else s
  }

  function TrimSpace(s: string): string {
    TrimRight(TrimLeft(s))
  }

  /** Text that ends in something visible loses only leading white space. */
  lemma {:induction false} TrimVisible(s: string)
    requires s != "" && !IsSpace(s[|s| - 1])
    ensures TrimSpace(s) != "" && |TrimSpace(s)| <= |s| && TrimSpace(s) == s[|s| - |TrimSpace(s)|..]
    ensures !IsSpace(TrimSpace(s)[0]) && (!IsSpace(s[0]) ==> TrimSpace(s) == s)
  {
    if IsSpace(s[0]) {
      TrimVisible(s[1..]);
    }
  }

  predicate AllSpace(s: string) {
    forall ch | ch in s :: IsSpace(ch)
  }

  /** What trimming leaves: the text but for white space on both sides, and none of that. */
  predicate TrimmedTo(s: string, before: string, t: string, after: string) {
    && s == before + t + after && AllSpace(before) && AllSpace(after)
    && (t != "" ==> !IsSpace(t[0]) && !IsSpace(t[|t| - 1]))
  }

  lemma {:induction false} TrimLeftIs(s: string) returns (before: string)
    ensures s == before + TrimLeft(s) && AllSpace(before)
    ensures TrimLeft(s) != "" ==> !IsSpace(TrimLeft(s)[0])
  {
    before := "";
    if s != "" && IsSpace(s[0]) {
      before := TrimLeftIs(s[1..]);
      before := [s[0]] + before;
    }
  }

  lemma {:induction false} TrimRightIs(s: string) returns (after: string)
    ensures s == TrimRight(s) + after && AllSpace(after)
    ensures TrimRight(s) != "" ==> !IsSpace(TrimRight(s)[|TrimRight(s)| - 1])
    decreases |s|
  {
    after := "";
    if s != "" && IsSpace(s[|s| - 1]) {
      after := TrimRightIs(s[..|s| - 1]);
      assert s == s[..|s| - 1] + [s[|s| - 1]];
      after := after + [s[|s| - 1]];
    }
  }

  lemma TrimIs(s: string) returns (before: string, after: string)
    ensures TrimmedTo(s, before, TrimSpace(s), after)
  {
    before := TrimLeftIs(s);
    after := TrimRightIs(TrimLeft(s));
    assert s == before + (TrimSpace(s) + after);
    assert TrimSpace(s) != "" ==> TrimSpace(s)[0] == TrimLeft(s)[0];
  }

  /** Trimmed text is left as it is. */
  lemma TrimTwice(s: string)
    ensures TrimSpace(TrimSpace(s)) == TrimSpace(s)
  {
    var before, after := TrimIs(s);
    if TrimSpace(s) != "" {
      TrimVisible(TrimSpace(s));
    }
  }

  /** Go's order on strings. */
  predicate Less(a: string, b: string) {
    b != "" && (a == "" || a[0] < b[0] || (a[0] == b[0] && Less(a[1..], b[1..])))
  }

  lemma {:induction false} LessAsymmetric(a: string, b: string)
    requires Less(a, b)
    ensures !Less(b, a)
  {
    if a != "" && a[0] == b[0] {
      LessAsymmetric(a[1..], b[1..]);
    }
  }

  /** One text comes before another exactly when, at the end of all they have in common, it has ended
      and the other has not, or its character is the smaller one. */
  lemma {:induction false} LessIs(a: string, b: string) returns (k: nat)
    ensures k <= |a| && k <= |b| && a[..k] == b[..k] && (k < |a| && k < |b| ==> a[k] != b[k])
    ensures Less(a, b) <==> k < |b| && (k == |a| || a[k] < b[k])
  {
    k := 0;
    if a != "" && b != "" && a[0] == b[0] {
      k := LessIs(a[1..], b[1..]);
      assert a[..k + 1] == [a[0]] + a[1..][..k] && b[..k + 1] == [b[0]] + b[1..][..k];
      k := k + 1;
    }
  }

  function BeforeColon(s: string): string {
    if s == "" || s[0] == ':' then "" else [s[0]] + BeforeColon(s[1..])
  }

  lemma {:induction false} BeforeColonIs(m: string, s: string)
    requires ':' !in m
    ensures BeforeColon(m + ":" + s) == m
  {
    var x := m + ":" + s;
    if m != "" {
      assert x[0] == m[0] && x[1..] == m[1..] + ":" + s;
      BeforeColonIs(m[1..], s);
    }
  }

  lemma CutAtColon(m: string, s: string, n: string, t: string)
    requires ':' !in m && ':' !in n && m + ":" + s == n + ":" + t
    ensures m == n && s == t
  {
    BeforeColonIs(m, s);
    BeforeColonIs(n, t);
    assert s == (m + ":" + s)[|m| + 1..] && t == (n + ":" + t)[|n| + 1..];
  }

  /** `v` is the first of the texts that is not blank, or blank when all are. */
  predicate FirstText(texts: seq<string>, v: string) {
    || (exists i | 0 <= i < |texts| :: FirstAt(texts, i) && v == texts[i])
    || (v == "" && forall t | t in texts :: t == "")
  }

  predicate FirstAt(texts: seq<string>, i: int) {
    0 <= i < |texts| && texts[i] != "" && forall j | 0 <= j < i :: texts[j] == ""
  }

  lemma FirstTextNext(texts: seq<string>, v: string, t: string)
    requires FirstText(texts, v)
    ensures FirstText(texts + [t], if v != "" then v else t)
  {
    var more := texts + [t];
    if v != "" {
      var i :| 0 <= i < |texts| && FirstAt(texts, i) && v == texts[i];
      FirstAtMore(texts, t, i);
    } else {
      assert forall j | 0 <= j < |texts| :: texts[j] in texts && more[j] == texts[j];
      if t != "" {
        assert FirstAt(more, |texts|) && more[|texts|] == t;
      }
    }
  }

  lemma FirstAtMore(texts: seq<string>, t: string, i: int)
    requires FirstAt(texts, i)
    ensures FirstAt(texts + [t], i) && (texts + [t])[i] == texts[i]
  {
    assert forall j | 0 <= j <= i :: (texts + [t])[j] == texts[j];
  }
}
