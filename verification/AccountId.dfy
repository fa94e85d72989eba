/**
 Account handles: sixteen bytes, written as 32 hexadecimal digits.
 */
module AccountId {
  import opened Wrappers
  import opened Text
  import opened Wire

  const HANDLE_LEN := 16

  datatype HandleError = Malformed

  function HexDigit(v: int): char
    requires 0 <= v < 16
  {
    if v < 10 then '0' + v as char else 'a' + (v - 10) as char
  }

  function HexValue(c: char): Option<int> {
    if '0' <= c <= '9' then Some(c as int - '0' as int)
    else if 'a' <= c <= 'f' then Some(c as int - 'a' as int + 10)
    else if 'A' <= c <= 'F' then Some(c as int - 'A' as int + 10)
    else None
  }

  function ToHex(b: Bytes): string {
    if b == [] then "" else [HexDigit(b[0] / 16), HexDigit(b[0] % 16)] + ToHex(b[1..])
  }

  function PairValue(hi: char, lo: char): Option<Byte> {
    match (HexValue(hi), HexValue(lo))
    case (Some(h), Some(l)) => Some(h * 16 + l)
    case _ => None
  }

  function PairsFromHex(s: string): Option<Bytes>
    requires |s| % 2 == 0
  {
    if s == "" then Some([])
    else
      match (PairValue(s[0], s[1]), PairsFromHex(s[2..]))
      case (Some(b), Some(rest)) => Some([b] + rest)
      case _ => None
  }

  function LowerHex(s: string): string {
    seq(|s|, i requires 0 <= i < |s| => if 'A' <= s[i] <= 'F' then s[i] - 'A' + 'a' else s[i])
  }

  lemma {:induction false} HexRoundTrip(b: Bytes)
    ensures |ToHex(b)| == 2 * |b| && PairsFromHex(ToHex(b)) == Some(b)
  {
    if b != [] {
      HexRoundTrip(b[1..]);
      var hi, lo := b[0] / 16, b[0] % 16;
      PairWritten(b[0]);
      PairRead(HexDigit(hi), HexDigit(lo), ToHex(b[1..]));
      assert [b[0]] + b[1..] == b;
    }
  }

  lemma PairRead(hi: char, lo: char, rest: string)
    requires |rest| % 2 == 0 && PairValue(hi, lo).Some? && PairsFromHex(rest).Some?
    ensures PairsFromHex([hi, lo] + rest) == Some([PairValue(hi, lo).value] + PairsFromHex(rest).value)
  {
    var s := [hi, lo] + rest;
    assert s[0] == hi && s[1] == lo && s[2..] == rest;
  }

  lemma PairWritten(b: Byte)
    ensures PairValue(HexDigit(b / 16), HexDigit(b % 16)) == Some(b)
  {
  }

  /** Handles are read in either case and written back in lower case. */
  lemma {:induction false} HexCanonical(s: string)
    requires |s| % 2 == 0 && PairsFromHex(s).Some?
    ensures ToHex(PairsFromHex(s).value) == LowerHex(s)
  {
    if s != "" {
      HexCanonical(s[2..]);
      var hi, lo := HexValue(s[0]).value, HexValue(s[1]).value;
      assert (hi * 16 + lo) / 16 == hi && (hi * 16 + lo) % 16 == lo;
      assert LowerHex(s) == LowerHex(s[..2]) + LowerHex(s[2..]);
      assert LowerHex(s[..2]) == [HexDigit(hi), HexDigit(lo)];
    }
  }

  /** The handle's written form. */
  method WriteHex(b: Bytes) returns (s: string)
    ensures s == ToHex(b)
  {
    s := "";
    for i := 0 to |b|
      invariant s + ToHex(b[i..]) == ToHex(b)
    {
      assert b[i..][1..] == b[i + 1..];
      ghost var rest := ToHex(b[i + 1..]);
      assert s + ([HexDigit(b[i] / 16), HexDigit(b[i] % 16)] + rest) == (s + [HexDigit(b[i] / 16)] + [HexDigit(b[i] % 16)]) + rest;
      s := s + [HexDigit(b[i] / 16)];
      s := s + [HexDigit(b[i] % 16)];
    }
  }

  function FromHex(s: string): Result<Bytes, HandleError> {
    var hex := Trim(s);
    if |hex| != 2 * HANDLE_LEN then Err(Malformed)
    else
      match PairsFromHex(hex)
      case Some(b) => Ok(b)
      case None => Err(Malformed)
  }

  method ReadHex(s: string) returns (r: Result<Bytes, HandleError>)
    ensures r == FromHex(s)
  {
    var hex := Trim(s);
    if |hex| != 2 * HANDLE_LEN { return Err(Malformed); }
    var bytes: Bytes := [];
    NothingRead(hex);
    assert hex[2 * 0..] == hex;
    for i := 0 to HANDLE_LEN
      invariant ReadUpTo(hex, bytes, hex[2 * i..])
    {
      assert hex[2 * i..][0] == hex[2 * i] && hex[2 * i..][1] == hex[2 * i + 1] && hex[2 * i..][2..] == hex[2 * (i + 1)..];
      ReadOn(hex, bytes, hex[2 * i..]);
      var hi, lo := HexValue(hex[2 * i]), HexValue(hex[2 * i + 1]);
      if hi.None? || lo.None? { return Err(Malformed); }
      bytes := bytes + [hi.value * 16 + lo.value];
    }
    AllRead(hex, bytes);
    r := Ok(bytes);
  }

  ghost function Behind(done: Bytes, rest: Option<Bytes>): Option<Bytes> {
    if rest.Some? then Some(done + rest.value) else None
  }

  /** What stands before `rest` is behind the reader and gave `done`. */
  ghost predicate ReadUpTo(hex: string, done: Bytes, rest: string) {
    |hex| % 2 == 0 && |rest| % 2 == 0 && PairsFromHex(hex) == Behind(done, PairsFromHex(rest))
  }

  lemma NothingRead(hex: string)
    requires |hex| % 2 == 0
    ensures ReadUpTo(hex, [], hex)
  {
    var r := PairsFromHex(hex);
    if r.Some? { assert [] + r.value == r.value; }
  }

  lemma PairsStep(rest: string)
    requires |rest| % 2 == 0 && rest != ""
    ensures var pair := PairValue(rest[0], rest[1]);
            PairsFromHex(rest) == if pair.Some? then Behind([pair.value], PairsFromHex(rest[2..])) else None
  {
  }

  lemma BehindStep(all: Option<Bytes>, done: Bytes, here: Option<Bytes>, pair: Option<Byte>, rest: Option<Bytes>)
    requires all == Behind(done, here) && here == if pair.Some? then Behind([pair.value], rest) else None
    ensures if pair.Some? then all == Behind(done + [pair.value], rest) else all.None?
  {
    if pair.Some? && rest.Some? {
      assert done + ([pair.value] + rest.value) == (done + [pair.value]) + rest.value;
    }
  }

  lemma ReadOn(hex: string, done: Bytes, rest: string)
    requires ReadUpTo(hex, done, rest) && rest != ""
    ensures var pair := PairValue(rest[0], rest[1]);
            if pair.Some? then ReadUpTo(hex, done + [pair.value], rest[2..]) else PairsFromHex(hex).None?
  {
    PairsStep(rest);
    BehindStep(PairsFromHex(hex), done, PairsFromHex(rest), PairValue(rest[0], rest[1]), PairsFromHex(rest[2..]));
  }

  lemma AllRead(hex: string, done: Bytes)
    requires ReadUpTo(hex, done, "")
    ensures PairsFromHex(hex) == Some(done)
  {
    assert done + [] == done;
  }

  /** A text reads as a handle exactly when, trimmed and in lower case, it is how the handle
      is written. */
  lemma HandleReads(s: string, b: Bytes)
    ensures FromHex(s) == Ok(b) <==> |b| == HANDLE_LEN && LowerHex(Trim(s)) == ToHex(b)
  {
    var hex := Trim(s);
    HexRoundTrip(b);
    if |hex| == 2 * HANDLE_LEN {
      LowerReadsAlike(hex);
      if PairsFromHex(hex).Some? {
        HexCanonical(hex);
        HexRoundTrip(PairsFromHex(hex).value);
      }
    }
  }

  /** Case does not matter to the reader. */
  lemma {:induction false} LowerReadsAlike(s: string)
    requires |s| % 2 == 0
    ensures PairsFromHex(LowerHex(s)) == PairsFromHex(s)
  {
    if s != "" {
      LowerReadsAlike(s[2..]);
      assert LowerHex(s)[2..] == LowerHex(s[2..]);
      assert HexValue(LowerHex(s)[0]) == HexValue(s[0]) && HexValue(LowerHex(s)[1]) == HexValue(s[1]);
    }
  }
}
