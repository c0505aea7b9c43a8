/** One line encoding that meets what the file store asks of its codec, standing in for JSON: the
    fields of an operation are joined length-prefixed, and every character is spelled with two bytes
    that are not a newline. */
module LineCodec {
  import opened Wrappers
  import opened Store
  import opened FileStore
  import Digest

  // ---- characters as bytes ---------------------------------------------------------------------

  function Spell(n: nat): seq<byte> { if n == 0 then [0] else [1] + Spell(n - 1) }

  function SpellAll(s: string): seq<byte>
  {
    if |s| == 0 then [] else Spell(s[0] as int) + SpellAll(s[1..])
  }

  function ReadNat(b: seq<byte>): (r: Option<(nat, seq<byte>)>)
    ensures r.Some? ==> |r.value.1| < |b|
  {
    if |b| == 0 then None
    else if b[0] == 0 then Some((0, b[1..]))
    else match ReadNat(b[1..])
      case None => None
      case Some((n, rest)) => Some((n + 1, rest))
  }

  predicate IsChar(n: nat) { n < 0xD800 || 0xE000 <= n < 0x11_0000 }

  function ReadAll(b: seq<byte>): Option<string>
    decreases |b|
  {
    if |b| == 0 then Some("")
    else match ReadNat(b)
      case None => None
      case Some((n, rest)) =>
        if !IsChar(n) then None
        else match ReadAll(rest)
          case None => None
          case Some(s) => Some([n as char] + s)
  }

  lemma {:induction false} ReadSpelled(n: nat, rest: seq<byte>)
    ensures ReadNat(Spell(n) + rest) == Some((n, rest))
  {
    if n == 0 {
      assert (Spell(n) + rest)[1..] == rest;
    } else {
      assert (Spell(n) + rest)[1..] == Spell(n - 1) + rest;
      ReadSpelled(n - 1, rest);
    }
  }

  lemma {:induction false} ReadAllSpelled(s: string)
    ensures ReadAll(SpellAll(s)) == Some(s)
  {
    if |s| > 0 {
      ReadSpelled(s[0] as int, SpellAll(s[1..]));
      ReadAllSpelled(s[1..]);
      assert s == [s[0]] + s[1..];
    }
  }

  lemma {:induction false} SpellNoNewline(n: nat)
    ensures NEWLINE !in Spell(n)
  {
    if n > 0 { SpellNoNewline(n - 1); }
  }

  lemma {:induction false} SpellAllNoNewline(s: string)
    ensures NEWLINE !in SpellAll(s)
  {
    if |s| > 0 {
      SpellNoNewline(s[0] as int);
      SpellAllNoNewline(s[1..]);
    }
  }

  // ---- operations as strings ------------------------------------------------------------------------

  function BytesText(v: seq<byte>): string { seq(|v|, i requires 0 <= i < |v| => v[i] as char) }

  predicate AreBytes(s: string) { forall i :: 0 <= i < |s| ==> s[i] as int < 256 }

  function TextBytes(s: string): seq<byte>
    requires AreBytes(s)
  {
    seq(|s|, i requires 0 <= i < |s| => s[i] as int as byte)
  }

  function IntText(n: int): string { if n < 0 then "-" + Digest.Itoa(-n) else Digest.Itoa(n) }

  predicate AllDigits(s: string) { forall i :: 0 <= i < |s| ==> Digest.IsDigit(s[i]) }

  function TextInt(s: string): int
  {
    if |s| > 0 && s[0] == '-' && AllDigits(s[1..]) then 0 - (Digest.ParseNat(s[1..]) as int)
    else if AllDigits(s) then Digest.ParseNat(s)
    else 0
  }

  lemma IntRoundTrip(n: int)
    ensures TextInt(IntText(n)) == n
  {
    if n < 0 {
      Digest.ItoaRoundTrip(-n);
      NegativeText(Digest.Itoa(-n));
    } else {
      Digest.ItoaRoundTrip(n);
      PositiveText(Digest.Itoa(n));
    }
  }

  lemma NegativeText(digits: string)
    requires AllDigits(digits)
    ensures TextInt("-" + digits) == 0 - Digest.ParseNat(digits)
  {}

  lemma PositiveText(digits: string)
    requires AllDigits(digits) && |digits| > 0
    ensures TextInt(digits) == Digest.ParseNat(digits)
  {}

  function Parts(o: Op): seq<string>
  {
    [o.key.coll, o.key.name, BytesText(o.value), IntText(o.e), if o.d then "d" else ""]
  }

  function FromParts(parts: seq<string>): Option<Op>
  {
    if |parts| != 5 || !AreBytes(parts[2]) || !InRange(TextInt(parts[3])) then None
    else Some(Op(Key(parts[0], parts[1]), TextBytes(parts[2]), TextInt(parts[3]), parts[4] == "d"))
  }

  lemma PartsRoundTrip(o: Op)
    ensures FromParts(Parts(o)) == Some(o)
  {
    IntRoundTrip(o.e);
    assert TextBytes(BytesText(o.value)) == o.value;
  }

  function Encode(o: Op): seq<byte> { SpellAll(Digest.EncodeAll(Parts(o))) }

  function Decode(line: seq<byte>): Option<Op>
  {
    match ReadAll(line)
    case None => None
    case Some(s) =>
      match Digest.DecodeAll(s)
      case None => None
      case Some(parts) => FromParts(parts)
  }

  /** The hypothesis every theorem about the file store starts from can be met. */
  lemma SoundCodecExists()
    ensures Sound(Codec(Encode, Decode))
  {
    forall o: Op
      ensures NEWLINE !in Encode(o) && Decode(Encode(o)) == Some(o)
    {
      var s := Digest.EncodeAll(Parts(o));
      SpellAllNoNewline(s);
      ReadAllSpelled(s);
      Digest.DecodeInvertsEncode(Parts(o));
      PartsRoundTrip(o);
    }
  }
}
