/** The string operations the components share. */
module Text {
  import opened Wrappers

  /** Characters with the Unicode White_Space property. */
  predicate IsWhitespace(c: char) {
    || '\U{0009}' <= c <= '\U{000D}' || c == ' ' || c == '\U{0085}' || c == '\U{00A0}' || c == '\U{1680}'
    || '\U{2000}' <= c <= '\U{200A}' || c == '\U{2028}' || c == '\U{2029}' || c == '\U{202F}'
    || c == '\U{205F}' || c == '\U{3000}'
  }

  function TrimStart(s: string): string {
    if s != "" && IsWhitespace(s[0]) then TrimStart(s[1..]) else s
  }

  function TrimEnd(s: string): string {
    if s != "" && IsWhitespace(s[|s| - 1]) then TrimEnd(s[..|s| - 1]) else s
  }

  function Trim(s: string): string { TrimEnd(TrimStart(s)) }

  lemma TrimNothing(s: string)
    requires s != "" ==> !IsWhitespace(s[0]) && !IsWhitespace(s[|s| - 1])
    ensures Trim(s) == s
  {
  }

  /** Trimming cuts off all the white space at both ends, and nothing else. */
  lemma TrimCuts(s: string, lo: nat, hi: nat)
    requires lo <= hi <= |s|
    requires (forall i :: 0 <= i < lo ==> IsWhitespace(s[i])) && forall i :: hi <= i < |s| ==> IsWhitespace(s[i])
    requires lo < hi ==> !IsWhitespace(s[lo]) && !IsWhitespace(s[hi - 1])
    ensures Trim(s) == s[lo..hi]
  {
    if lo < hi {
      TrimStartCuts(s, lo);
      assert TrimStart(s) == s[lo..];
      TrimEndCuts(s[lo..], hi - lo);
      assert s[lo..][..hi - lo] == s[lo..hi];
    } else {
      TrimStartCuts(s, |s|);
    }
  }

  lemma {:induction false} TrimStartCuts(s: string, lo: nat)
    requires lo <= |s| && forall i :: 0 <= i < lo ==> IsWhitespace(s[i])
    requires lo < |s| ==> !IsWhitespace(s[lo])
    ensures TrimStart(s) == s[lo..]
  {
    if lo > 0 {
      TrimStartCuts(s[1..], lo - 1);
      assert s[1..][lo - 1..] == s[lo..];
    }
  }

  lemma {:induction false} TrimEndCuts(s: string, hi: nat)
    requires hi <= |s| && forall i :: hi <= i < |s| ==> IsWhitespace(s[i])
    requires hi > 0 ==> !IsWhitespace(s[hi - 1])
    ensures TrimEnd(s) == s[..hi]
  {
    if hi < |s| {
      TrimEndCuts(s[..|s| - 1], hi);
      assert s[..|s| - 1][..hi] == s[..hi];
    } else {
      assert s[..hi] == s;
    }
  }

  function FoldChar(c: char): char {
    if 'A' <= c <= 'Z' then c - 'A' + 'a' else c
  }

  /** ASCII case folding. */
  function Fold(s: string): (t: string)
    ensures |t| == |s|
  {
    seq(|s|, i requires 0 <= i < |s| => FoldChar(s[i]))
  }

  /** Pieces between separators; always at least one. */
  function Split(s: string, sep: char): (pieces: seq<string>)
    ensures pieces != []
  {
    if s == "" then [""]
    else
      var rest := Split(s[1..], sep);
      if s[0] == sep then [""] + rest else [[s[0]] + rest[0]] + rest[1..]
  }

  function Join(pieces: seq<string>, sep: char): string {
    if pieces == [] then ""
    else if |pieces| == 1 then pieces[0]
    else pieces[0] + [sep] + Join(pieces[1..], sep)
  }

  lemma {:induction false} JoinSplit(s: string, sep: char)
    ensures Join(Split(s, sep), sep) == s
  {
    if s != "" {
      JoinSplit(s[1..], sep);
      var rest := Split(s[1..], sep);
      if s[0] == sep {
        assert ([""] + rest)[1..] == rest;
        assert Join([""] + rest, sep) == "" + [sep] + Join(rest, sep);
      } else {
        var pieces := [[s[0]] + rest[0]] + rest[1..];
        assert pieces[1..] == rest[1..];
        if |rest| > 1 {
          assert [s[0]] + rest[0] + [sep] + Join(rest[1..], sep) == [s[0]] + (rest[0] + [sep] + Join(rest[1..], sep));
        }
      }
    }
  }

  /** The pieces of a string are made of its own characters. */
  lemma {:induction false} SplitChars(s: string, sep: char)
    ensures forall p <- Split(s, sep) :: forall c <- p :: c in s && c != sep
  {
    if s != "" {
      SplitChars(s[1..], sep);
      var rest := Split(s[1..], sep);
      forall p | p in Split(s, sep)
        ensures forall c <- p :: c in s && c != sep
      {
        if s[0] != sep && p == [s[0]] + rest[0] {
          assert rest[0] in rest;
        } else if p != "" {
          assert p in rest;
        }
      }
    }
  }

  /** Pieces without the separator come apart again as they were joined. */
  lemma {:induction false} SplitJoin(pieces: seq<string>, sep: char)
    requires pieces != [] && forall p <- pieces :: sep !in p
    ensures Split(Join(pieces, sep), sep) == pieces
  {
    if |pieces| == 1 {
      SplitPiece(pieces[0], sep);
    } else {
      assert pieces == [pieces[0]] + pieces[1..];
      SplitJoin(pieces[1..], sep);
      SplitFront(pieces[0], Join(pieces[1..], sep), sep);
    }
  }

  lemma {:induction false} SplitPiece(p: string, sep: char)
    requires sep !in p
    ensures Split(p, sep) == [p]
  {
    if p != "" {
      assert p[0] in p;
      SplitPiece(p[1..], sep);
      assert [p[0]] + p[1..] == p;
    }
  }

  lemma {:induction false} SplitFront(p: string, rest: string, sep: char)
    requires sep !in p
    ensures Split(p + [sep] + rest, sep) == [p] + Split(rest, sep)
  {
    var all := p + [sep] + rest;
    if p == "" {
      assert all[0] == sep && all[1..] == rest;
    } else {
      assert all[0] == p[0] && p[0] in p;
      assert all[1..] == p[1..] + [sep] + rest;
      SplitFront(p[1..], rest, sep);
      assert [p[0]] + p[1..] == p;
    }
  }

  function Find(s: string, c: char): (r: Option<nat>)
    ensures r.Some? ==> r.value < |s| && s[r.value] == c && c !in s[..r.value]
    ensures r.None? ==> c !in s
  {
    if s == "" then None
    else if s[0] == c then Some(0)
    else
      match Find(s[1..], c)
      case None => None
      case Some(i) => assert s[..i + 1] == [s[0]] + s[1..][..i]; Some(i + 1)
  }

  lemma {:induction false} FindBehind(s: string, c: char, rest: string)
    requires c !in s
    ensures Find(s + [c] + rest, c) == Some(|s|)
  {
    var all := s + [c] + rest;
    if s != "" {
      assert all[0] == s[0] && s[0] in s;
      assert all[1..] == s[1..] + [c] + rest;
      FindBehind(s[1..], c, rest);
    }
  }

  lemma {:induction false} FindNothing(s: string, c: char)
    requires c !in s
    ensures Find(s, c).None?
  {
    if s != "" { FindNothing(s[1..], c); }
  }

  predicate Contains(s: string, piece: string) {
    piece <= s || (s != "" && Contains(s[1..], piece))
  }

  /** Lexicographic order on strings. */
  predicate Before(a: string, b: string) {
    if b == "" then false
    else if a == "" then true
    else a[0] < b[0] || (a[0] == b[0] && Before(a[1..], b[1..]))
  }

  /** Read off the strings: up to some position they agree, and there the first one ends or
      has the smaller character. */
  ghost predicate ComesBefore(a: string, b: string) {
    exists k :: 0 <= k < |b| && k <= |a| && a[..k] == b[..k] && (k == |a| || a[k] < b[k])
  }

  lemma {:induction false} BeforeMeans(a: string, b: string)
    ensures Before(a, b) <==> ComesBefore(a, b)
    decreases |b|
  {
    if b != "" && a != "" {
      var a', b' := a[1..], b[1..];
      BeforeMeans(a', b');
      if Before(a, b) {
        if a[0] < b[0] {
          assert a[..0] == b[..0];
        } else {
          var k :| 0 <= k < |b'| && k <= |a'| && a'[..k] == b'[..k] && (k == |a'| || a'[k] < b'[k]);
          assert a[..k + 1] == [a[0]] + a'[..k] == b[..k + 1];
        }
      }
      if ComesBefore(a, b) {
        var k :| 0 <= k < |b| && k <= |a| && a[..k] == b[..k] && (k == |a| || a[k] < b[k]);
        if k > 0 {
          assert a[..k][0] == b[..k][0];
          assert a'[..k - 1] == a[..k][1..] == b[..k][1..] == b'[..k - 1];
          assert k - 1 == |a'| || a'[k - 1] < b'[k - 1];
        }
      }
    } else if b != "" {
      assert a[..0] == b[..0];
    }
  }

  lemma {:induction false} BeforeOrders(a: string, b: string, c: string)
    ensures !Before(a, a)
    ensures Before(a, b) || Before(b, a) || a == b
    ensures Before(a, b) && Before(b, c) ==> Before(a, c)
    decreases |a|
  {
    if a != "" && b != "" && c != "" {
      BeforeOrders(a[1..], b[1..], c[1..]);
      assert a[0] == b[0] && a[1..] == b[1..] ==> a == [a[0]] + a[1..] == b;
    } else if a != "" {
      BeforeOrders(a[1..], if b == "" then "" else b[1..], "");
      assert b != "" && a[0] == b[0] && a[1..] == b[1..] ==> a == [a[0]] + a[1..] == b;
    }
  }

  ghost predicate PieceAt(s: string, piece: string, at: nat) {
    at + |piece| <= |s| && s[at..at + |piece|] == piece
  }

  /** A piece is contained where it stands at some position. */
  lemma {:induction false} ContainsAt(s: string, piece: string)
    ensures Contains(s, piece) <==> exists at: nat :: PieceAt(s, piece, at)
  {
    if piece <= s {
      assert PieceAt(s, piece, 0);
    } else if s != "" {
      var rest := s[1..];
      ContainsAt(rest, piece);
      if Contains(rest, piece) {
        var at: nat :| PieceAt(rest, piece, at);
        assert s[at + 1..at + 1 + |piece|] == rest[at..at + |piece|];
        assert PieceAt(s, piece, at + 1);
      }
      forall at: nat | PieceAt(s, piece, at)
        ensures Contains(s, piece)
      {
        assert at > 0;
        assert rest[at - 1..at - 1 + |piece|] == s[at..at + |piece|];
        assert PieceAt(rest, piece, at - 1);
      }
    }
  }

  /** One letter, in either case. */
  ghost predicate SameLetter(c: char, d: char) {
    || c == d
    || ('A' <= c <= 'Z' && d as int == c as int + 32)
    || ('A' <= d <= 'Z' && c as int == d as int + 32)
  }

  ghost predicate SameLetters(a: string, b: string) {
    |a| == |b| && forall i :: 0 <= i < |a| ==> SameLetter(a[i], b[i])
  }

  lemma FoldTells(a: string, b: string)
    ensures Fold(a) == Fold(b) <==> SameLetters(a, b)
  {
    if Fold(a) == Fold(b) {
      assert |a| == |b|;
      forall i | 0 <= i < |a|
        ensures SameLetter(a[i], b[i])
      {
        assert Fold(a)[i] == Fold(b)[i];
      }
    }
  }

  ghost predicate StandsAt(text: string, needle: string, at: nat) {
    at + |needle| <= |text| && SameLetters(text[at..at + |needle|], needle)
  }

  /** The needle stands somewhere in the text, in whatever case. */
  ghost predicate Occurs(needle: string, text: string) {
    exists at: nat :: StandsAt(text, needle, at)
  }

  lemma OccursExactly(needle: string, text: string)
    ensures Contains(Fold(text), Fold(needle)) <==> Occurs(needle, text)
  {
    ContainsAt(Fold(text), Fold(needle));
    forall at: nat
      ensures PieceAt(Fold(text), Fold(needle), at) <==> StandsAt(text, needle, at)
    {
      FoldedAt(text, needle, at);
    }
  }

  lemma FoldPart(text: string, lo: nat, hi: nat)
    requires lo <= hi <= |text|
    ensures Fold(text)[lo..hi] == Fold(text[lo..hi])
  {
    var part, folded := Fold(text)[lo..hi], Fold(text[lo..hi]);
    assert |part| == |folded|;
    forall i | 0 <= i < |part|
      ensures part[i] == folded[i]
    {
      assert part[i] == Fold(text)[lo + i] && text[lo..hi][i] == text[lo + i];
    }
  }

  lemma FoldedAt(text: string, needle: string, at: nat)
    ensures PieceAt(Fold(text), Fold(needle), at) <==> StandsAt(text, needle, at)
  {
    if at + |needle| <= |text| {
      FoldPart(text, at, at + |needle|);
      FoldTells(text[at..at + |needle|], needle);
    }
  }

  // ----------------------------------------------------------------------
  // UTF-8
  // ----------------------------------------------------------------------

  /** One character in UTF-8, as in section 3 of RFC 3629. */
  function CharBytes(c: char): (b: seq<int>)
    ensures 1 <= |b| <= 4 && forall i :: 0 <= i < |b| ==> 0 <= b[i] < 256
  {
    var v := c as int;
    if v < 0x80 then [v]
    else if v < 0x800 then [0xC0 + v / 0x40, 0x80 + v % 0x40]
    else if v < 0x1_0000 then [0xE0 + v / 0x1000, 0x80 + v / 0x40 % 0x40, 0x80 + v % 0x40]
    else [0xF0 + v / 0x4_0000, 0x80 + v / 0x1000 % 0x40, 0x80 + v / 0x40 % 0x40, 0x80 + v % 0x40]
  }

  function Utf8(s: string): seq<int> {
    if s == "" then [] else CharBytes(s[0]) + Utf8(s[1..])
  }

  lemma {:induction false} Utf8Concat(a: string, b: string)
    ensures Utf8(a + b) == Utf8(a) + Utf8(b)
  {
    if a == "" {
      assert a + b == b;
    } else {
      assert (a + b)[1..] == a[1..] + b;
      Utf8Concat(a[1..], b);
      assert CharBytes(a[0]) + (Utf8(a[1..]) + Utf8(b)) == (CharBytes(a[0]) + Utf8(a[1..])) + Utf8(b);
    }
  }
}
