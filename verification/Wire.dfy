/**
 Bytes, fixed-width integers and the forward-only cursor of the wire encodings.

 `Read...` functions are the cursor's reads seen on the bytes that are left; the class
 `Cursor` performs the same reads by moving a position through a buffer.
 */
module Wire {
  import opened Wrappers
  import Text

  type Byte = x: int | 0 <= x < 256
  type Bytes = seq<Byte>

  const U32_LIMIT := 0x1_0000_0000
  const I64_LIMIT := 0x8000_0000_0000_0000
  const KEY_LEN := 32
  const SIG_LEN := 64

  type U32 = x: int | 0 <= x < 0x1_0000_0000
  type I64 = x: int | -0x8000_0000_0000_0000 <= x < 0x8000_0000_0000_0000
  type Key32 = b: Bytes | |b| == 32 witness seq(32, _ => 0)
  type Sig64 = b: Bytes | |b| == 64 witness seq(64, _ => 0)

  datatype WireError = Truncated | TagMismatch | NotUtf8 | UnknownKind | TrailingBytes

  /** The bytes of an ASCII literal. */
  function Ascii(s: string): (b: Bytes)
    ensures |b| == |s|
    ensures forall i :: 0 <= i < |s| && s[i] < 128 as char ==> b[i] == s[i] as int
  {
    seq(|s|, i requires 0 <= i < |s| => if s[i] < 128 as char then s[i] as int else 0)
  }

  // ----------------------------------------------------------------------
  // Big-endian integers
  // ----------------------------------------------------------------------

  function Pow256(n: nat): nat { if n == 0 then 1 else 256 * Pow256(n - 1) }

  function ToBe(v: nat, n: nat): (b: Bytes)
    ensures |b| == n
  {
    if n == 0 then [] else ToBe(v / 256, n - 1) + [v % 256]
  }

  function FromBe(b: Bytes): nat {
    if b == [] then 0 else FromBe(b[..|b| - 1]) * 256 + b[|b| - 1]
  }

  lemma {:induction false} BeRoundTrip(v: nat, n: nat)
    requires v < Pow256(n)
    ensures FromBe(ToBe(v, n)) == v
  {
    if n > 0 {
      BeRoundTrip(v / 256, n - 1);
      assert ToBe(v, n)[..n - 1] == ToBe(v / 256, n - 1);
    }
  }

  lemma {:induction false} BeCanonical(b: Bytes)
    ensures FromBe(b) < Pow256(|b|)
    ensures ToBe(FromBe(b), |b|) == b
  {
    if b != [] {
      var n := |b| - 1;
      BeCanonical(b[..n]);
      assert FromBe(b) / 256 == FromBe(b[..n]) && FromBe(b) % 256 == b[n];
    }
  }

  lemma PowersUsed()
    ensures Pow256(4) == 0x1_0000_0000 && Pow256(8) == 0x1_0000_0000_0000_0000
  {
    assert Pow256(2) == 65536;
    assert Pow256(4) == 256 * (256 * Pow256(2));
    assert Pow256(6) == 256 * (256 * Pow256(4));
    assert Pow256(8) == 256 * (256 * Pow256(6));
  }

  function U32Be(v: U32): Bytes { ToBe(v, 4) }

  /** Two's complement. */
  function I64Be(v: I64): Bytes { ToBe(if v < 0 then v + 2 * I64_LIMIT else v, 8) }

  /** The bytes of a number, the most significant first. */
  lemma U32Bytes(v: U32)
    ensures U32Be(v) == [v / 0x100_0000, v / 0x1_0000 % 0x100, v / 0x100 % 0x100, v % 0x100]
  {
    assert ToBe(v / 256 / 256 / 256, 1) == [v / 256 / 256 / 256 % 256];
    assert ToBe(v / 256 / 256, 2) == ToBe(v / 256 / 256 / 256, 1) + [v / 256 / 256 % 256];
    assert ToBe(v / 256, 3) == ToBe(v / 256 / 256, 2) + [v / 256 % 256];
  }

  /** A signed number is written as its two's complement: the first bit is its sign, and the
      two halves are those of the number modulo 2 to the 64th. */
  lemma I64Bytes(v: I64)
    ensures var u := if v < 0 then v + 0x1_0000_0000_0000_0000 else v;
            I64Be(v) == U32Be(u / 0x1_0000_0000) + U32Be(u % 0x1_0000_0000)
    ensures I64Be(v)[0] >= 0x80 <==> v < 0
  {
    var u := if v < 0 then v + 0x1_0000_0000_0000_0000 else v;
    ToBeHalves(u / 0x1_0000_0000, u % 0x1_0000_0000);
    U32Bytes(u / 0x1_0000_0000);
  }

  lemma ToBeHalves(hi: U32, lo: U32)
    ensures ToBe(hi * 0x1_0000_0000 + lo, 8) == U32Be(hi) + U32Be(lo)
  {
    ToBeStep(hi, lo, 4);
  }

  lemma {:induction false} ToBeStep(hi: nat, lo: nat, n: nat)
    requires lo < Pow256(n)
    ensures ToBe(hi * Pow256(n) + lo, n + 4) == ToBe(hi, 4) + ToBe(lo, n)
  {
    if n > 0 {
      assert (hi * Pow256(n) + lo) / 256 == hi * Pow256(n - 1) + lo / 256 && (hi * Pow256(n) + lo) % 256 == lo % 256 by {
        assert hi * Pow256(n) == hi * Pow256(n - 1) * 256;
      }
      ToBeStep(hi, lo / 256, n - 1);
    } else {
      assert hi * Pow256(0) + lo == hi;
      assert ToBe(hi, 4) + [] == ToBe(hi, 4);
    }
  }

  // ----------------------------------------------------------------------
  // Text
  // ----------------------------------------------------------------------

  predicate IsContinuation(b: Byte) { 0x80 <= b <= 0xBF }

  /** Well-formed UTF-8, byte ranges as in section 4 of RFC 3629. */
  predicate ValidUtf8(b: Bytes)
    decreases |b|
  {
    if b == [] then true
    else if b[0] <= 0x7F then ValidUtf8(b[1..])
    else if 0xC2 <= b[0] <= 0xDF then |b| >= 2 && IsContinuation(b[1]) && ValidUtf8(b[2..])
    else if 0xE0 <= b[0] <= 0xEF then
      && |b| >= 3
      && (if b[0] == 0xE0 then 0xA0 else 0x80) <= b[1] <= (if b[0] == 0xED then 0x9F else 0xBF)
      && IsContinuation(b[2]) && ValidUtf8(b[3..])
    else if 0xF0 <= b[0] <= 0xF4 then
      && |b| >= 4
      && (if b[0] == 0xF0 then 0x90 else 0x80) <= b[1] <= (if b[0] == 0xF4 then 0x8F else 0xBF)
      && IsContinuation(b[2]) && IsContinuation(b[3]) && ValidUtf8(b[4..])
    else false
  }

  type Utf8 = b: Bytes | ValidUtf8(b)

  lemma TwoBytes(x: Byte, y: Byte) returns (c: char)
    requires 0xC2 <= x <= 0xDF && IsContinuation(y)
    ensures Text.CharBytes(c) == [x, y]
  {
    var v := (x as int - 0xC0) * 0x40 + (y - 0x80);
    c := v as char;
    assert v / 0x40 == x as int - 0xC0 && v % 0x40 == y as int - 0x80;
  }

  lemma ThreeBytes(x: Byte, y: Byte, z: Byte) returns (c: char)
    requires 0xE0 <= x <= 0xEF && IsContinuation(z)
    requires (if x == 0xE0 then 0xA0 else 0x80) <= y <= (if x == 0xED then 0x9F else 0xBF)
    ensures Text.CharBytes(c) == [x, y, z]
  {
    var hi := (x as int - 0xE0) * 0x40 + (y - 0x80);
    var v := hi * 0x40 + (z - 0x80);
    c := v as char;
    assert v / 0x40 == hi && v % 0x40 == z as int - 0x80;
    assert v / 0x1000 == hi / 0x40 == x as int - 0xE0;
  }

  lemma FourBytes(w: Byte, x: Byte, y: Byte, z: Byte) returns (c: char)
    requires 0xF0 <= w <= 0xF4 && IsContinuation(y) && IsContinuation(z)
    requires (if w == 0xF0 then 0x90 else 0x80) <= x <= (if w == 0xF4 then 0x8F else 0xBF)
    ensures Text.CharBytes(c) == [w, x, y, z]
  {
    var hi := (w as int - 0xF0) * 0x40 + (x - 0x80);
    var mid := hi * 0x40 + (y - 0x80);
    var v := mid * 0x40 + (z - 0x80);
    c := v as char;
    assert v / 0x40 == mid && v % 0x40 == z as int - 0x80;
    assert v / 0x1000 == hi && mid % 0x40 == y as int - 0x80;
    assert v / 0x4_0000 == hi / 0x40 == w as int - 0xF0;
  }

  /** The character a well-formed string of bytes begins with. */
  lemma FirstChar(b: Bytes) returns (c: char, n: nat)
    requires b != [] && ValidUtf8(b)
    ensures 0 < n <= |b| && Text.CharBytes(c) == b[..n] && ValidUtf8(b[n..])
  {
    if b[0] <= 0x7F {
      c, n := b[0] as char, 1;
      assert b[..1] == [b[0]];
    } else if b[0] <= 0xDF {
      n := 2;
      c := TwoBytes(b[0], b[1]);
      assert b[..2] == [b[0], b[1]];
    } else if b[0] <= 0xEF {
      n := 3;
      c := ThreeBytes(b[0], b[1], b[2]);
      assert b[..3] == [b[0], b[1], b[2]];
    } else {
      n := 4;
      c := FourBytes(b[0], b[1], b[2], b[3]);
      assert b[..4] == [b[0], b[1], b[2], b[3]];
    }
  }

  lemma {:induction false} ValidIsEncoded(b: Bytes) returns (s: string)
    requires ValidUtf8(b)
    ensures Text.Utf8(s) == b
    decreases |b|
  {
    if b == [] {
      s := "";
    } else {
      var c, n := FirstChar(b);
      var rest := ValidIsEncoded(b[n..]);
      s := [c] + rest;
      assert s[1..] == rest && b == b[..n] + b[n..];
    }
  }

  lemma CharIsValid(c: char, rest: Bytes)
    requires ValidUtf8(rest)
    ensures ValidUtf8(Text.CharBytes(c) + rest)
  {
    var first: Bytes := Text.CharBytes(c);
    var b := first + rest;
    assert b[|first|..] == rest;
    assert b[0] == first[0];
    if |first| == 2 {
      assert b[1] == first[1];
    } else if |first| == 3 {
      assert b[1] == first[1] && b[2] == first[2];
      ThreeInRange(c as int);
    } else if |first| == 4 {
      assert b[1] == first[1] && b[2] == first[2] && b[3] == first[3];
      FourInRange(c as int);
    }
  }

  lemma ThreeInRange(v: int)
    requires 0x800 <= v < 0x1_0000 && !(0xD800 <= v < 0xE000)
    ensures var x, y := 0xE0 + v / 0x1000, 0x80 + v / 0x40 % 0x40;
            0xE0 <= x <= 0xEF && (if x == 0xE0 then 0xA0 else 0x80) <= y <= (if x == 0xED then 0x9F else 0xBF)
  {
    assert v / 0x1000 == v / 0x40 / 0x40;
  }

  lemma FourInRange(v: int)
    requires 0x1_0000 <= v < 0x11_0000
    ensures var x, y := 0xF0 + v / 0x4_0000, 0x80 + v / 0x1000 % 0x40;
            0xF0 <= x <= 0xF4 && (if x == 0xF0 then 0x90 else 0x80) <= y <= (if x == 0xF4 then 0x8F else 0xBF)
  {
    assert v / 0x4_0000 == v / 0x1000 / 0x40;
  }

  lemma {:induction false} EncodedIsValid(s: string)
    ensures forall i :: 0 <= i < |Text.Utf8(s)| ==> 0 <= Text.Utf8(s)[i] < 256
    ensures ValidUtf8(Text.Utf8(s))
  {
    if s != "" {
      EncodedIsValid(s[1..]);
      CharIsValid(s[0], Text.Utf8(s[1..]));
    }
  }

  /** The bytes accepted as text are the encodings of texts, and no others. */
  lemma Utf8Exactly(b: Bytes)
    ensures ValidUtf8(b) <==> exists s: string :: Text.Utf8(s) == b
  {
    if ValidUtf8(b) { var s := ValidIsEncoded(b); }
    forall s: string | Text.Utf8(s) == b
      ensures ValidUtf8(b)
    {
      EncodedIsValid(s);
    }
  }

  // ----------------------------------------------------------------------
  // Length prefixes
  // ----------------------------------------------------------------------

  /** The conversion of a length saturates. */
  function U32Len(n: nat): U32 { if n < U32_LIMIT then n else U32_LIMIT - 1 }

  function Prefixed(b: Bytes): Bytes { U32Be(U32Len(|b|)) + b }

  /** A length is written as it is when four bytes hold it, and otherwise as the most they hold. */
  lemma LengthsWritten(n: nat)
    ensures FromBe(U32Be(U32Len(n))) == if n < 0x1_0000_0000 then n else 0xFFFF_FFFF
  {
    PowersUsed();
    BeRoundTrip(U32Len(n), 4);
  }

  method PushLp(buffer: Bytes, bytes: Bytes) returns (r: Bytes)
    ensures r == buffer + Prefixed(bytes)
  {
    r := buffer + U32Be(U32Len(|bytes|));
    r := r + bytes;
  }

  /** A layout: fields one behind the other. */
  ghost function Laid(fields: seq<Bytes>): Bytes {
    if fields == [] then [] else fields[0] + Laid(fields[1..])
  }

  lemma LaidCons(first: Bytes, rest: seq<Bytes>)
    ensures Laid([first] + rest) == first + Laid(rest)
  {
    assert ([first] + rest)[1..] == rest;
  }

  lemma {:induction false} LaidConcat(a: seq<Bytes>, b: seq<Bytes>)
    ensures Laid(a + b) == Laid(a) + Laid(b)
  {
    if a == [] {
      assert a + b == b;
    } else {
      assert (a + b)[1..] == a[1..] + b;
      LaidConcat(a[1..], b);
    }
  }

  lemma LaidOne(field: Bytes)
    ensures Laid([field]) == field
  {
    assert [field][1..] == [];
  }

  lemma LaidTwo(a: Bytes, b: Bytes)
    ensures Laid([a, b]) == a + b
  {
    LaidCons(a, [b]);
    LaidOne(b);
  }

  // ----------------------------------------------------------------------
  // Reads on the remaining bytes
  // ----------------------------------------------------------------------

  function Take(b: Bytes, n: nat): Result<(Bytes, Bytes), WireError> {
    if n <= |b| then Ok((b[..n], b[n..])) else Err(Truncated)
  }

  function ReadTag(tag: Bytes, b: Bytes): Result<Bytes, WireError> {
    var (got, rest) :- Take(b, |tag|);
    if got == tag then Ok(rest) else Err(TagMismatch)
  }

  function ReadU8(b: Bytes): Result<(Byte, Bytes), WireError> {
    var (got, rest) :- Take(b, 1);
    Ok((got[0], rest))
  }

  function ReadU32(b: Bytes): (r: Result<(U32, Bytes), WireError>) {
    var (got, rest) :- Take(b, 4);
    BeCanonical(got);
    PowersUsed();
    Ok((FromBe(got), rest))
  }

  function ReadI64(b: Bytes): (r: Result<(I64, Bytes), WireError>) {
    var (got, rest) :- Take(b, 8);
    BeCanonical(got);
    PowersUsed();
    var u := FromBe(got);
    Ok((if u >= I64_LIMIT then u - 2 * I64_LIMIT else u, rest))
  }

  function ReadText(b: Bytes, n: nat): Result<(Utf8, Bytes), WireError> {
    var (got, rest) :- Take(b, n);
    if ValidUtf8(got) then Ok((got, rest)) else Err(NotUtf8)
  }

  function ReadPrefixed(b: Bytes): Result<(Utf8, Bytes), WireError> {
    var (n, rest) :- ReadU32(b);
    ReadText(rest, n)
  }

  function ReadEnd(b: Bytes): Result<(), WireError> {
    if b == [] then Ok(()) else Err(TrailingBytes)
  }

  // ----------------------------------------------------------------------
  // Reads undo writes, and writes undo reads
  // ----------------------------------------------------------------------

  lemma TakeConcat(a: Bytes, rest: Bytes)
    ensures Take(a + rest, |a|) == Ok((a, rest))
  {
    assert (a + rest)[..|a|] == a && (a + rest)[|a|..] == rest;
  }

  lemma TakeSplits(b: Bytes, n: nat)
    requires Take(b, n).Ok?
    ensures b == Take(b, n).value.0 + Take(b, n).value.1 && |Take(b, n).value.0| == n
  {
  }

  lemma TagReads(tag: Bytes, b: Bytes, rest: Bytes)
    ensures ReadTag(tag, b) == Ok(rest) <==> b == tag + rest
  {
    TakeConcat(tag, rest);
  }

  lemma U8Reads(b: Bytes, v: Byte, rest: Bytes)
    ensures ReadU8(b) == Ok((v, rest)) <==> b == [v] + rest
  {
    TakeConcat([v], rest);
  }

  lemma U32Reads(b: Bytes, v: U32, rest: Bytes)
    ensures ReadU32(b) == Ok((v, rest)) <==> b == U32Be(v) + rest
  {
    PowersUsed();
    if b == U32Be(v) + rest {
      TakeConcat(U32Be(v), rest);
      BeRoundTrip(v, 4);
    }
    if ReadU32(b) == Ok((v, rest)) {
      BeCanonical(b[..4]);
      assert b == b[..4] + b[4..];
    }
  }

  lemma I64Reads(b: Bytes, v: I64, rest: Bytes)
    ensures ReadI64(b) == Ok((v, rest)) <==> b == I64Be(v) + rest
  {
    PowersUsed();
    if b == I64Be(v) + rest {
      TakeConcat(I64Be(v), rest);
      BeRoundTrip(if v < 0 then v + 2 * I64_LIMIT else v, 8);
    }
    if ReadI64(b) == Ok((v, rest)) {
      BeCanonical(b[..8]);
      assert b == b[..8] + b[8..];
    }
  }

  lemma PrefixedReads(b: Bytes, t: Utf8, rest: Bytes)
    ensures ReadPrefixed(b) == Ok((t, rest)) <==> |t| < U32_LIMIT && b == Prefixed(t) + rest
  {
    if |t| < U32_LIMIT && b == Prefixed(t) + rest {
      assert b == U32Be(|t|) + (t + rest);
      U32Reads(b, |t|, t + rest);
      TakeConcat(t, rest);
    }
    if ReadPrefixed(b) == Ok((t, rest)) {
      var (n, tail) := ReadU32(b).value;
      U32Reads(b, n, tail);
      TakeSplits(tail, n);
      assert U32Be(n) + (t + rest) == U32Be(n) + t + rest;
    }
  }

  lemma ArrayReads(b: Bytes, v: Bytes, rest: Bytes)
    ensures Take(b, |v|) == Ok((v, rest)) <==> b == v + rest
  {
    TakeConcat(v, rest);
  }

  // ----------------------------------------------------------------------
  // The cursor
  // ----------------------------------------------------------------------

  class Cursor {
    const bytes: Bytes
    var pos: nat

    ghost predicate Valid()
      reads this
    {
      pos <= |bytes|
    }

    ghost function Rest(): Bytes
      reads this
      requires Valid()
    {
      bytes[pos..]
    }

    constructor (bytes: Bytes)
      ensures Valid() && this.bytes == bytes && Rest() == bytes
    {
      this.bytes := bytes;
      pos := 0;
    }

    /** A failed read does not move the position; no read moves it back or beyond the end. */
    method TakeBytes(len: nat) returns (r: Result<Bytes, WireError>)
      requires Valid()
      modifies this`pos
      ensures Valid() && old(pos) <= pos
      ensures Take(old(Rest()), len).Err? ==> r == Err(Take(old(Rest()), len).error) && pos == old(pos)
      ensures Take(old(Rest()), len).Ok? ==> r == Ok(Take(old(Rest()), len).value.0) && Rest() == Take(old(Rest()), len).value.1
    {
      var end := pos + len;
      if end > |bytes| { return Err(Truncated); }
      r := Ok(bytes[pos..end]);
      assert bytes[pos..][..len] == bytes[pos..end] && bytes[pos..][len..] == bytes[end..];
      pos := end;
    }

    method ExpectTag(tag: Bytes) returns (r: Result<(), WireError>)
      requires Valid()
      modifies this`pos
      ensures Valid() && old(pos) <= pos
      ensures r.Ok? <==> ReadTag(tag, old(Rest())).Ok?
      ensures r.Ok? ==> Rest() == ReadTag(tag, old(Rest())).value
      ensures r.Err? ==> r.error == ReadTag(tag, old(Rest())).error
    {
      var got := TakeBytes(|tag|);
      if got.Err? { return Err(got.error); }
      if got.value == tag { return Ok(()); }
      r := Err(TagMismatch);
    }

    method GetU8() returns (r: Result<Byte, WireError>)
      requires Valid()
      modifies this`pos
      ensures Valid() && old(pos) <= pos
      ensures r.Ok? <==> ReadU8(old(Rest())).Ok?
      ensures r.Ok? ==> (r.value, Rest()) == ReadU8(old(Rest())).value
      ensures r.Err? ==> r.error == ReadU8(old(Rest())).error
    {
      var got := TakeBytes(1);
      if got.Err? { return Err(got.error); }
      r := Ok(got.value[0]);
    }

    method GetU32() returns (r: Result<U32, WireError>)
      requires Valid()
      modifies this`pos
      ensures Valid() && old(pos) <= pos
      ensures r.Ok? <==> ReadU32(old(Rest())).Ok?
      ensures r.Ok? ==> (r.value, Rest()) == ReadU32(old(Rest())).value
      ensures r.Err? ==> r.error == ReadU32(old(Rest())).error
    {
      var got := TakeBytes(4);
      if got.Err? { return Err(got.error); }
      BeCanonical(got.value);
      PowersUsed();
      r := Ok(FromBe(got.value));
    }

    method GetI64() returns (r: Result<I64, WireError>)
      requires Valid()
      modifies this`pos
      ensures Valid() && old(pos) <= pos
      ensures r.Ok? <==> ReadI64(old(Rest())).Ok?
      ensures r.Ok? ==> (r.value, Rest()) == ReadI64(old(Rest())).value
      ensures r.Err? ==> r.error == ReadI64(old(Rest())).error
    {
      var got := TakeBytes(8);
      if got.Err? { return Err(got.error); }
      BeCanonical(got.value);
      PowersUsed();
      var u := FromBe(got.value);
      r := Ok(if u >= I64_LIMIT then u - 2 * I64_LIMIT else u);
    }

    method GetText(len: nat) returns (r: Result<Utf8, WireError>)
      requires Valid()
      modifies this`pos
      ensures Valid() && old(pos) <= pos
      ensures r.Ok? <==> ReadText(old(Rest()), len).Ok?
      ensures r.Ok? ==> (r.value, Rest()) == ReadText(old(Rest()), len).value
      ensures r.Err? ==> r.error == ReadText(old(Rest()), len).error
    {
      var got := TakeBytes(len);
      if got.Err? { return Err(got.error); }
      if ValidUtf8(got.value) { return Ok(got.value); }
      r := Err(NotUtf8);
    }

    method GetPrefixed() returns (r: Result<Utf8, WireError>)
      requires Valid()
      modifies this`pos
      ensures Valid() && old(pos) <= pos
      ensures r.Ok? <==> ReadPrefixed(old(Rest())).Ok?
      ensures r.Ok? ==> (r.value, Rest()) == ReadPrefixed(old(Rest())).value
      ensures r.Err? ==> r.error == ReadPrefixed(old(Rest())).error
    {
      var len := GetU32();
      if len.Err? { return Err(len.error); }
      r := GetText(len.value);
    }

    method ExpectEnd() returns (r: Result<(), WireError>)
      requires Valid()
      ensures r == ReadEnd(Rest())
    {
      if pos == |bytes| { return Ok(()); }
      r := Err(TrailingBytes);
    }
  }
}
