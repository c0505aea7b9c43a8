/** Length-prefixed digest input: the chunk codec, the idempotency key and the snapshot
    digest (internal/model/record.go, internal/idem/idem.go). */
module Digest {
  import opened Wrappers
  import opened Ordering
  import opened Model

  // ---- decimal lengths -------------------------------------------------------

  function DigitChar(d: nat): char
    requires d < 10
  {
    ['0', '1', '2', '3', '4', '5', '6', '7', '8', '9'][d]
  }

  predicate IsDigit(c: char) { '0' <= c <= '9' }

  function DigitValue(c: char): nat
    requires IsDigit(c)
  {
    c as int - '0' as int
  }

  function Itoa(n: nat): string
  {
    if n < 10 then [DigitChar(n)] else Itoa(n / 10) + [DigitChar(n % 10)]
  }

  function ParseNat(s: string): nat
    requires forall i :: 0 <= i < |s| ==> IsDigit(s[i])
  {
    if |s| == 0 then 0 else 10 * ParseNat(s[..|s| - 1]) + DigitValue(s[|s| - 1])
  }

  lemma DigitRoundTrip(d: nat)
    requires d < 10
    ensures IsDigit(DigitChar(d)) && DigitValue(DigitChar(d)) == d
  {}

  lemma ParseNatSnoc(s: string, c: char)
    requires forall i :: 0 <= i < |s| ==> IsDigit(s[i])
    requires IsDigit(c)
    ensures ParseNat(s + [c]) == 10 * ParseNat(s) + DigitValue(c)
  {}

  lemma {:induction false} ItoaRoundTrip(n: nat)
    ensures forall i :: 0 <= i < |Itoa(n)| ==> IsDigit(Itoa(n)[i])
    ensures |Itoa(n)| > 0
    ensures ParseNat(Itoa(n)) == n
  {
    DigitRoundTrip(n % 10);
    if n < 10 {
      assert Itoa(n) == [] + [DigitChar(n)];
      ParseNatSnoc([], DigitChar(n));
    } else {
      ItoaRoundTrip(n / 10);
      ParseNatSnoc(Itoa(n / 10), DigitChar(n % 10));
    }
  }

  // ---- chunks ----------------------------------------------------------------

  function Chunk(s: string): string { Itoa(|s|) + ":" + s }

  function EncodeAll(parts: seq<string>): string
  {
    if |parts| == 0 then "" else Chunk(parts[0]) + EncodeAll(parts[1..])
  }

  function ColonAt(s: string): (i: nat)
    ensures i <= |s|
    ensures ':' !in s[..i]
    ensures i < |s| ==> s[i] == ':'
  {
    if |s| == 0 || s[0] == ':' then 0
    else
      var i := 1 + ColonAt(s[1..]);
      assert s[..i] == [s[0]] + s[1..][..i - 1];
      i
  }

  /** Splits the first chunk off a digest input, or fails on one nobody wrote. */
  function DecodeChunk(s: string): (r: Option<(string, string)>)
    ensures r.Some? ==> |r.value.1| < |s|
  {
    var i := ColonAt(s);
    if i == |s| || !(forall k :: 0 <= k < i ==> IsDigit(s[..i][k])) then None
    else
      var n := ParseNat(s[..i]);
      var rest := s[i + 1..];
      if n > |rest| then None else Some((rest[..n], rest[n..]))
  }

  function DecodeAll(s: string): Option<seq<string>>
    decreases |s|
  {
    if |s| == 0 then Some([])
    else match DecodeChunk(s)
      case None => None
      case Some((part, rest)) =>
        match DecodeAll(rest)
        case None => None
        case Some(parts) => Some([part] + parts)
  }

  lemma {:induction false} ColonAfterDigits(digits: string, rest: string)
    requires forall i :: 0 <= i < |digits| ==> IsDigit(digits[i])
    ensures ColonAt(digits + ":" + rest) == |digits|
  {
    if |digits| > 0 {
      ColonAfterDigits(digits[1..], rest);
      assert (digits + ":" + rest)[1..] == digits[1..] + ":" + rest;
      assert IsDigit(digits[0]);
    }
  }

  lemma ChunkRoundTrip(part: string, rest: string)
    ensures DecodeChunk(Chunk(part) + rest) == Some((part, rest))
  {
    var digits := Itoa(|part|);
    var s := Chunk(part) + rest;
    ItoaRoundTrip(|part|);
    assert s == digits + ":" + (part + rest);
    ColonAfterDigits(digits, part + rest);
    assert s[..|digits|] == digits;
    assert s[|digits| + 1..] == part + rest;
    assert (part + rest)[..|part|] == part && (part + rest)[|part|..] == rest;
  }

  lemma DecodeCons(s: string, part: string, rest: string, parts: seq<string>)
    requires DecodeChunk(s) == Some((part, rest)) && DecodeAll(rest) == Some(parts)
    ensures DecodeAll(s) == Some([part] + parts)
  {}

  /** Length-prefixed concatenation loses nothing, whatever the parts contain. */
  lemma {:induction false} DecodeInvertsEncode(parts: seq<string>)
    ensures DecodeAll(EncodeAll(parts)) == Some(parts)
  {
    if |parts| > 0 {
      var rest := EncodeAll(parts[1..]);
      DecodeInvertsEncode(parts[1..]);
      ChunkRoundTrip(parts[0], rest);
      DecodeCons(Chunk(parts[0]) + rest, parts[0], rest, parts[1..]);
      assert parts == [parts[0]] + parts[1..];
    }
  }

  // ---- idempotency keys --------------------------------------------------------

  function KeyParts(sync: string, kind: string, source: Ref, target: Ref, payload: string): seq<string>
  {
    [sync, kind, source.connector, source.remoteID, target.connector, target.remoteID, payload]
  }

  /** The input `idem.Key` digests. The refs' own kinds take no part in it. */
  function IdemKey(sync: string, kind: string, source: Ref, target: Ref, payload: string): Hash
  {
    Sum(EncodeAll(KeyParts(sync, kind, source, target, payload)))
  }

  /** Two writes share a key exactly when all seven parts agree. */
  lemma IdemKeyInjective(
    sync: string, kind: string, source: Ref, target: Ref, payload: string,
    sync': string, kind': string, source': Ref, target': Ref, payload': string)
    ensures IdemKey(sync, kind, source, target, payload) == IdemKey(sync', kind', source', target', payload')
       <==> (sync == sync' && kind == kind'
             && source.connector == source'.connector && source.remoteID == source'.remoteID
             && target.connector == target'.connector && target.remoteID == target'.remoteID
             && payload == payload')
  {
    var a := KeyParts(sync, kind, source, target, payload);
    var b := KeyParts(sync', kind', source', target', payload');
    DecodeInvertsEncode(a);
    DecodeInvertsEncode(b);
    if EncodeAll(a) == EncodeAll(b) {
      assert a == b;
      assert a[0] == b[0] && a[1] == b[1] && a[2] == b[2] && a[3] == b[3];
      assert a[4] == b[4] && a[5] == b[5] && a[6] == b[6];
    }
  }

  // ---- snapshot digests --------------------------------------------------------

  function CanonicalValue(v: Value): string
  {
    match v
    case Null => "\0null"
    case Str(s) => "s" + s
    case Bool(b) => if b then "btrue" else "bfalse"
    case Time(text) => "t" + text
    case Number(text) => "n" + text
    case Other(text) => "x" + text
  }

  const Absent: string := "\0absent"

  lemma CanonicalValueInjective(a: Value, b: Value)
    ensures CanonicalValue(a) == CanonicalValue(b) ==> a == b
    ensures CanonicalValue(a) != Absent
  {
    var x, y := CanonicalValue(a), CanonicalValue(b);
    assert x[0] == Absent[0] ==> x == "\0null" && x[1] == 'n' && Absent[1] == 'a';
    if x == y {
      assert x[0] == y[0] && x[1..] == y[1..];
      assert a.Bool? ==> x[1] == (if a.b then 't' else 'f');
      assert b.Bool? ==> y[1] == (if b.b then 't' else 'f');
      assert a.Str? ==> x[1..] == a.s;
      assert b.Str? ==> y[1..] == b.s;
      assert a.Time? || a.Number? || a.Other? ==> x[1..] == a.text;
      assert b.Time? || b.Number? || b.Other? ==> y[1..] == b.text;
    }
  }

  function Rendered(fields: Fields, name: string): string
  {
    if name in fields then CanonicalValue(fields[name]) else Absent
  }

  function SnapshotParts(fields: Fields, sorted: seq<string>): seq<string>
  {
    if |sorted| == 0 then []
    else [sorted[0], Rendered(fields, sorted[0])] + SnapshotParts(fields, sorted[1..])
  }

  function Self(s: string): string { s }

  function SnapshotHash(fields: Fields, names: seq<string>): Hash
  {
    Sum(EncodeAll(SnapshotParts(fields, Sort(Self, names))))
  }

  lemma {:induction false} EncodeAllAppend(a: seq<string>, b: seq<string>)
    ensures EncodeAll(a + b) == EncodeAll(a) + EncodeAll(b)
  {
    if |a| == 0 {
      assert a + b == b;
    } else {
      EncodeAllAppend(a[1..], b);
      assert (a + b)[1..] == a[1..] + b;
      Associates(Chunk(a[0]), EncodeAll(a[1..]), EncodeAll(b));
    }
  }

  lemma EncodePair(x: string, y: string)
    ensures EncodeAll([x, y]) == Chunk(x) + Chunk(y)
  {
    assert [x, y][1..] == [y] && [y][1..] == [];
    assert EncodeAll([y]) == Chunk(y) + "";
  }

  lemma FeedStep(fields: Fields, s: seq<string>, name: string)
    ensures EncodeAll(SnapshotParts(fields, s + [name]))
         == EncodeAll(SnapshotParts(fields, s)) + Chunk(name) + Chunk(Rendered(fields, name))
  {
    SnapshotPartsSnoc(fields, s, name);
    EncodeAllAppend(SnapshotParts(fields, s), [name, Rendered(fields, name)]);
    EncodePair(name, Rendered(fields, name));
    Associates(EncodeAll(SnapshotParts(fields, s)), Chunk(name), Chunk(Rendered(fields, name)));
  }

  lemma {:induction false} SnapshotPartsSnoc(fields: Fields, s: seq<string>, name: string)
    ensures SnapshotParts(fields, s + [name]) == SnapshotParts(fields, s) + [name, Rendered(fields, name)]
  {
    if |s| > 0 {
      SnapshotPartsSnoc(fields, s[1..], name);
      assert (s + [name])[1..] == s[1..] + [name];
    }
  }

  /** The loop that feeds the hash writer chunk by chunk. */
  method FeedSnapshot(fields: Fields, names: seq<string>) returns (h: Hash)
    ensures h == SnapshotHash(fields, names)
  {
    var sorted := Sort(Self, names);
    var written := "";
    for i := 0 to |sorted|
      invariant written == EncodeAll(SnapshotParts(fields, sorted[..i]))
    {
      var name := sorted[i];
      assert sorted[..i + 1] == sorted[..i] + [name];
      FeedStep(fields, sorted[..i], name);
      written := written + Chunk(name);
      if name !in fields {
        written := written + Chunk(Absent);
      } else {
        written := written + Chunk(CanonicalValue(fields[name]));
      }
    }
    assert sorted[..|sorted|] == sorted;
    h := Sum(written);
  }

  /** A field is the same in two records when both lack it or both render it alike. */
  predicate SameField(f: Fields, g: Fields, name: string)
  {
    (name in f <==> name in g) && (name in f ==> f[name] == g[name])
  }

  predicate AgreeOn(f: Fields, g: Fields, names: seq<string>)
  {
    forall n :: n in names ==> SameField(f, g, n)
  }

  lemma RenderedDecidesField(f: Fields, g: Fields, name: string)
    ensures Rendered(f, name) == Rendered(g, name) <==> SameField(f, g, name)
  {
    if name in f { CanonicalValueInjective(f[name], if name in g then g[name] else Null); }
    if name in g { CanonicalValueInjective(g[name], Null); }
  }

  lemma {:induction false} PartsDecideFields(f: Fields, g: Fields, s: seq<string>)
    ensures SnapshotParts(f, s) == SnapshotParts(g, s) <==> AgreeOn(f, g, s)
  {
    if |s| > 0 {
      var a, b := SnapshotParts(f, s), SnapshotParts(g, s);
      PartsDecideFields(f, g, s[1..]);
      RenderedDecidesField(f, g, s[0]);
      assert a[2..] == SnapshotParts(f, s[1..]) && b[2..] == SnapshotParts(g, s[1..]);
      assert a[1] == Rendered(f, s[0]) && b[1] == Rendered(g, s[0]);
      assert forall n :: n in s <==> n == s[0] || n in s[1..];
    }
  }

  /** Equal digests mean equal mapped fields, present or absent; unmapped fields do not count. */
  lemma SnapshotHashDecidesFields(f: Fields, g: Fields, names: seq<string>)
    ensures SnapshotHash(f, names) == SnapshotHash(g, names) <==> AgreeOn(f, g, names)
  {
    var s := Sort(Self, names);
    var a, b := SnapshotParts(f, s), SnapshotParts(g, s);
    DecodeInvertsEncode(a);
    DecodeInvertsEncode(b);
    PartsDecideFields(f, g, s);
    assert forall n :: n in s <==> n in multiset(s);
    assert forall n :: n in names <==> n in multiset(names);
  }

  /** The digest does not depend on the order the names are listed in. */
  lemma SnapshotHashIgnoresNameOrder(f: Fields, names: seq<string>, names': seq<string>)
    requires multiset(names) == multiset(names')
    ensures SnapshotHash(f, names) == SnapshotHash(f, names')
  {
    SortIgnoresOrder(Self, names, names');
  }
}
