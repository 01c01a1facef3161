/** A record codec of the kind the journal results ask for, so that they speak of something. */
module PlainCodec {
  import opened Wrappers
  import opened EventLog
  import opened Octets
  import opened Journal

  const OPEN: Byte := 123
  const CLOSE: Byte := 125
  const ONE: Byte := 49
  const COMMA: Byte := 44

  /** Numbers in unary, between braces. */
  function Unary(n: nat): Bytes {
    seq(n, _ => ONE)
  }

  function Encode(r: Record<nat>): Bytes {
    [OPEN] + Unary(r.seqNo) + [COMMA] + Unary(r.event) + [CLOSE]
  }

  ghost function Decode(b: Bytes): Option<Record<nat>> {
    if r :| Encode(r) == b then Some(r) else None
  }

  ghost function Plain(): Codec<nat> {
    Codec(Encode, Decode)
  }

  /** Where each byte of an encoding stands. */
  lemma Shape(r: Record<nat>)
    ensures var b, n := Encode(r), r.seqNo + 1;
            && |b| == r.seqNo + r.event + 3 && b[0] == OPEN && b[|b| - 1] == CLOSE && b[n] == COMMA
            && (forall i | 1 <= i < n :: b[i] == ONE) && (forall i | n < i < |b| - 1 :: b[i] == ONE)
  {
  }

  /** The comma and the length give both numbers back. */
  lemma Injective(r: Record<nat>, s: Record<nat>)
    requires Encode(r) == Encode(s)
    ensures r == s
  {
    Shape(r);
    Shape(s);
    assert Encode(s)[r.seqNo + 1] == COMMA && Encode(r)[s.seqNo + 1] == COMMA;
  }

  lemma DecodesBack(r: Record<nat>)
    ensures Decode(Encode(r)) == Some(r)
  {
    var s := Decode(Encode(r)).value;
    Injective(r, s);
  }

  /** Only whole encodings decode: they open once and close once, at their ends. */
  lemma DecodesOnly(b: Bytes)
    requires b == [] || b[|b| - 1] != CLOSE || exists i :: 0 < i < |b| && b[i] == OPEN
    ensures Decode(b) == None
  {
    forall r
      ensures Encode(r) != b
    {
      Shape(r);
    }
  }

  lemma PlainGoodLine(r: Record<nat>)
    ensures GoodLine(Plain(), r)
  {
    var line := Encode(r);
    Shape(r);
    DecodesBack(r);
    forall k | 0 < k < |line|
      ensures Decode(line[..k]) == None
    {
      DecodesOnly(line[..k]);
    }
  }

  lemma CutThenWhole(r: Record<nat>, k: nat, s: Record<nat>)
    requires 0 < k <= |Encode(r)|
    ensures Decode(Encode(r)[..k] + Encode(s)) == None
  {
    Shape(s);
    assert (Encode(r)[..k] + Encode(s))[k] == OPEN;
    DecodesOnly(Encode(r)[..k] + Encode(s));
  }

  /** The assumptions on a codec can be met. */
  lemma PlainIsValid()
    ensures Valid(Plain()) && SelfDelimiting(Plain())
  {
    forall r
      ensures GoodLine(Plain(), r)
    {
      PlainGoodLine(r);
    }
    forall r: Record<nat>, s: Record<nat>, k {:trigger Encode(r)[..k], Encode(s)} | 0 < k <= |Encode(r)|
      ensures Decode(Encode(r)[..k] + Encode(s)) == None
    {
      CutThenWhole(r, k, s);
    }
  }
}
