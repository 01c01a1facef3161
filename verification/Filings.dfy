/** How a filing is named. */
module Filings {
  import opened Text

  predicate IsDigit(ch: char) {
    '0' <= ch <= '9'
  }

  function Digits(s: string): string {
    if s == "" then "" else (if IsDigit(s[0]) then [s[0]] else "") + Digits(s[1..])
  }

  function Zeros(k: nat): (z: string)
    ensures |z| == k && forall ch | ch in z :: ch == '0'
  {
    if k == 0 then "" else "0" + Zeros(k - 1)
  }

  /** Zeros in front to make ten, unless there is nothing. */
  function Padded(d: string): string {
    if d == "" || |d| >= 10 then d else Zeros(10 - |d|) + d
  }

  /** `NormalizeCIK`: the digits, padded. */
  function NormalizeCik(cik: string): string {
    Padded(Digits(TrimSpace(cik)))
  }

  function FilingIdentity(cik: string, accession: string): string {
    NormalizeCik(cik) + ":" + TrimSpace(accession)
  }

  // ---- digits ----

  lemma DigitIs(ch: char)
    ensures IsDigit(ch) <==> ch in "0123456789"
  {
  }

  predicate AllDigits(s: string) {
    forall ch | ch in s :: IsDigit(ch)
  }

  lemma {:induction false} DigitsConcat(a: string, b: string)
    ensures Digits(a + b) == Digits(a) + Digits(b)
  {
    if a == "" {
      assert a + b == b;
    } else {
      DigitsConcat(a[1..], b);
      assert (a + b)[0] == a[0] && (a + b)[1..] == a[1..] + b;
      var head := if IsDigit(a[0]) then [a[0]] else "";
      assert head + (Digits(a[1..]) + Digits(b)) == head + Digits(a[1..]) + Digits(b);
    }
  }

  lemma {:induction false} NoDigits(s: string)
    requires forall ch | ch in s :: !IsDigit(ch)
    ensures Digits(s) == ""
  {
    if s != "" {
      assert s[0] in s && forall ch | ch in s[1..] :: ch in s;
      NoDigits(s[1..]);
    }
  }

  lemma {:induction false} OnlyDigits(s: string)
    ensures AllDigits(Digits(s)) && (AllDigits(s) ==> Digits(s) == s)
  {
    if s != "" {
      OnlyDigits(s[1..]);
      assert s[0] in s && forall ch | ch in s[1..] :: ch in s;
    }
  }

  /** White space around a CIK holds no digits. */
  lemma TrimKeepsDigits(s: string)
    ensures Digits(TrimSpace(s)) == Digits(s)
  {
    var before, after := TrimIs(s);
    DigitsConcat(before + TrimSpace(s), after);
    DigitsConcat(before, TrimSpace(s));
    NoDigits(before);
    NoDigits(after);
  }

  lemma PaddedIs(d: string)
    requires AllDigits(d)
    ensures AllDigits(Padded(d)) && (Padded(d) == "" <==> d == "")
    ensures d != "" ==> |Padded(d)| == if |d| < 10 then 10 else |d|
    ensures |d| <= |Padded(d)| && Padded(d)[|Padded(d)| - |d|..] == d
    ensures forall i | 0 <= i < |Padded(d)| - |d| :: Padded(d)[i] == '0'
  {
    if 0 < |d| < 10 {
      ZerosInFront(Zeros(10 - |d|), d);
    }
  }

  lemma ZerosInFront(z: string, d: string)
    requires AllDigits(d) && forall ch | ch in z :: ch == '0'
    ensures AllDigits(z + d) && (z + d)[|z|..] == d && forall i | 0 <= i < |z| :: (z + d)[i] == '0'
  {
    assert forall i | 0 <= i < |z| :: (z + d)[i] == z[i] && z[i] in z;
  }

  lemma NormalIsPadded(cik: string)
    ensures NormalizeCik(cik) == Padded(Digits(cik)) && AllDigits(Digits(cik))
  {
    TrimKeepsDigits(cik);
    OnlyDigits(cik);
  }

  /** A normalised CIK is blank when there are no digits, and otherwise ends in the digits, has only
      zeros before them, and is ten long or as long as they are. */
  lemma NormalIs(cik: string)
    ensures var n, d := NormalizeCik(cik), Digits(cik);
            && AllDigits(n) && (n == "" <==> d == "")
            && (d != "" ==> |n| == if |d| < 10 then 10 else |d|)
            && |d| <= |n| && n[|n| - |d|..] == d
            && forall i | 0 <= i < |n| - |d| :: n[i] == '0'
  {
    NormalIsPadded(cik);
    PaddedIs(Digits(cik));
  }

  lemma NormalTwice(cik: string)
    ensures NormalizeCik(NormalizeCik(cik)) == NormalizeCik(cik)
  {
    NormalIs(cik);
    OnlyDigits(NormalizeCik(cik));
    TrimKeepsDigits(NormalizeCik(cik));
  }

  function StripZeros(s: string): string {
    if s != "" && s[0] == '0' then StripZeros(s[1..]) else s
  }

  lemma {:induction false} StripPadded(s: string, k: nat)
    requires k <= |s| && forall i | 0 <= i < k :: s[i] == '0'
    ensures StripZeros(s) == StripZeros(s[k..])
  {
    if k > 0 {
      StripPadded(s[1..], k - 1);
      assert s[1..][k - 1..] == s[k..];
    }
  }

  lemma {:induction false} StripShortens(s: string)
    ensures |StripZeros(s)| <= |s|
  {
    if s != "" && s[0] == '0' {
      StripShortens(s[1..]);
    }
  }

  lemma {:induction false} StripSame(s: string, t: string)
    requires |s| == |t| && StripZeros(s) == StripZeros(t)
    ensures s == t
  {
    if s != "" {
      StripShortens(s[1..]);
      StripShortens(t[1..]);
      if s[0] == '0' && t[0] == '0' {
        StripSame(s[1..], t[1..]);
      }
    }
  }

  /** A normalised CIK and its digits differ only in zeros in front. */
  lemma NormalStrips(cik: string)
    ensures StripZeros(NormalizeCik(cik)) == StripZeros(Digits(cik))
  {
    NormalIs(cik);
    StripPadded(NormalizeCik(cik), |NormalizeCik(cik)| - |Digits(cik)|);
  }

  lemma LongIsItself(cik: string)
    requires |Digits(cik)| >= 10
    ensures NormalizeCik(cik) == Digits(cik)
  {
    NormalIs(cik);
  }

  /** Two CIKs are one company's if and only if they have the same digits, or both have some, at most
      ten, that differ only in zeros in front. */
  lemma SameCikIff(a: string, b: string)
    ensures NormalizeCik(a) == NormalizeCik(b)
       <==> || Digits(a) == Digits(b)
            || (0 < |Digits(a)| <= 10 && 0 < |Digits(b)| <= 10 && StripZeros(Digits(a)) == StripZeros(Digits(b)))
  {
    TrimKeepsDigits(a);
    TrimKeepsDigits(b);
    NormalStrips(a);
    NormalStrips(b);
    NormalLength(a);
    NormalLength(b);
    if 0 < |Digits(a)| <= 10 && 0 < |Digits(b)| <= 10 && StripZeros(Digits(a)) == StripZeros(Digits(b)) {
      StripSame(NormalizeCik(a), NormalizeCik(b));
    }
    if |Digits(a)| > 10 {
      LongIsItself(a);
    }
    if |Digits(b)| > 10 {
      LongIsItself(b);
    }
  }

  lemma NormalLength(cik: string)
    ensures |NormalizeCik(cik)| == if Digits(cik) == "" then 0 else if |Digits(cik)| < 10 then 10 else |Digits(cik)|
  {
    NormalIs(cik);
  }

  // ---- identities ----

  /** Two filings have one identity if and only if they are one company's, under one accession
      number. */
  lemma IdentityIff(a: string, s: string, b: string, t: string)
    ensures FilingIdentity(a, s) == FilingIdentity(b, t)
       <==> NormalizeCik(a) == NormalizeCik(b) && TrimSpace(s) == TrimSpace(t)
  {
    NormalIs(a);
    NormalIs(b);
    if FilingIdentity(a, s) == FilingIdentity(b, t) {
      CutAtColon(NormalizeCik(a), TrimSpace(s), NormalizeCik(b), TrimSpace(t));
    }
  }
}
