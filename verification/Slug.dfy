/**
 Filename-safe slugs.
 */
module Slug {
  import opened Wrappers
  import Text

  predicate IsLowerAlnum(c: char) { 'a' <= c <= 'z' || '0' <= c <= '9' }

  function SlugChar(c: char): char {
    if IsLowerAlnum(c) then c else if 'A' <= c <= 'Z' then c - 'A' + 'a' else '-'
  }

  function Mapped(s: string): string {
    seq(|s|, i requires 0 <= i < |s| => SlugChar(s[i]))
  }

  /** Runs of hyphens become one; `prevHyphen` says whether one has just been kept. */
  function Collapsed(s: string, prevHyphen: bool): string {
    if s == "" then ""
    else if s[0] == '-' then (if prevHyphen then "" else "-") + Collapsed(s[1..], true)
    else [s[0]] + Collapsed(s[1..], false)
  }

  method Collapse(s: string) returns (collapsed: string)
    ensures collapsed == Collapsed(s, false)
  {
    collapsed := "";
    var prevHyphen := false;
    for i := 0 to |s|
      invariant collapsed + Collapsed(s[i..], prevHyphen) == Collapsed(s, false)
    {
      assert s[i..][1..] == s[i + 1..];
      ghost var rest := Collapsed(s[i + 1..], s[i] == '-');
      if s[i] == '-' {
        if !prevHyphen {
          assert collapsed + ("-" + rest) == (collapsed + "-") + rest;
          collapsed := collapsed + "-";
        } else {
          assert "" + rest == rest;
        }
        prevHyphen := true;
      } else {
        assert collapsed + ([s[i]] + rest) == (collapsed + [s[i]]) + rest;
        collapsed := collapsed + [s[i]];
        prevHyphen := false;
      }
    }
  }

  function TrimLeft(s: string): string {
    if s != "" && s[0] == '-' then TrimLeft(s[1..]) else s
  }

  function TrimRight(s: string): string {
    if s != "" && s[|s| - 1] == '-' then TrimRight(s[..|s| - 1]) else s
  }

  function LastHyphen(s: string): (r: Option<nat>)
    ensures r.Some? ==> r.value < |s| && s[r.value] == '-' && '-' !in s[r.value + 1..]
    ensures r.None? ==> '-' !in s
  {
    if s == "" then None
    else if s[|s| - 1] == '-' then Some(|s| - 1)
    else
      var r := LastHyphen(s[..|s| - 1]);
      assert r.Some? ==> s[r.value + 1..] == s[..|s| - 1][r.value + 1..] + [s[|s| - 1]];
      r
  }

  function Truncated(s: string, maxLen: nat): string {
    if |s| <= maxLen then s
    else
      var candidate := s[..maxLen];
      match LastHyphen(candidate)
      case Some(pos) => if pos >= maxLen / 2 then candidate[..pos] else candidate
      case None => candidate
  }

  function Trimmed(input: string): string { TrimRight(TrimLeft(Collapsed(Mapped(input), false))) }

  function Slugified(input: string, maxLen: nat): string {
    if Trimmed(input) == "" then "untitled" else Truncated(Trimmed(input), maxLen)
  }

  method Slugify(input: string, maxLen: nat) returns (slug: string)
    ensures slug == Slugified(input, maxLen)
  {
    var collapsed := Collapse(Mapped(input));
    var trimmed := TrimRight(TrimLeft(collapsed));
    if trimmed == "" { return "untitled"; }
    slug := Truncated(trimmed, maxLen);
  }

  // ----------------------------------------------------------------------
  // The normal form
  // ----------------------------------------------------------------------

  /** Lower-case letters, digits and hyphens, and never two hyphens in a row. */
  ghost predicate Clean(s: string) {
    && (forall i :: 0 <= i < |s| ==> IsLowerAlnum(s[i]) || s[i] == '-')
    && (forall i :: 0 < i < |s| ==> !(s[i - 1] == '-' && s[i] == '-'))
  }

  /** What every slug looks like. */
  ghost predicate IsSlug(s: string) {
    Clean(s) && s != "" && s[0] != '-' && s[|s| - 1] != '-'
  }

  lemma {:induction false} CollapsedIsClean(s: string, prevHyphen: bool)
    requires forall i :: 0 <= i < |s| ==> IsLowerAlnum(s[i]) || s[i] == '-'
    ensures Clean(Collapsed(s, prevHyphen))
    ensures prevHyphen && Collapsed(s, prevHyphen) != "" ==> Collapsed(s, prevHyphen)[0] != '-'
  {
    if s != "" {
      CollapsedIsClean(s[1..], s[0] == '-');
      var rest := Collapsed(s[1..], s[0] == '-');
      if s[0] == '-' && prevHyphen {
        assert "" + rest == rest;
      } else {
        CleanCons(s[0], rest);
      }
    }
  }

  lemma CleanCons(c: char, rest: string)
    requires Clean(rest) && (IsLowerAlnum(c) || c == '-') && !(c == '-' && rest != "" && rest[0] == '-')
    ensures Clean([c] + rest)
  {
    var s := [c] + rest;
    forall i | 0 < i < |s|
      ensures !(s[i - 1] == '-' && s[i] == '-')
    {
      if i > 1 { assert s[i - 1] == rest[i - 2] && s[i] == rest[i - 1]; }
    }
  }

  lemma {:induction false} TrimLeftSuffix(s: string)
    requires Clean(s)
    ensures Clean(TrimLeft(s)) && (TrimLeft(s) != "" ==> TrimLeft(s)[0] != '-')
  {
    if s != "" && s[0] == '-' { TrimLeftSuffix(s[1..]); }
  }

  lemma {:induction false} TrimRightPrefix(s: string)
    requires Clean(s)
    ensures Clean(TrimRight(s)) && TrimRight(s) <= s && (TrimRight(s) != "" ==> TrimRight(s)[|TrimRight(s)| - 1] != '-')
  {
    if s != "" && s[|s| - 1] == '-' { TrimRightPrefix(s[..|s| - 1]); }
  }

  lemma TrimmedIsSlug(input: string)
    ensures Trimmed(input) == "" || IsSlug(Trimmed(input))
  {
    CollapsedIsClean(Mapped(input), false);
    TrimLeftSuffix(Collapsed(Mapped(input), false));
    TrimRightPrefix(TrimLeft(Collapsed(Mapped(input), false)));
  }

  lemma CleanPrefix(s: string, pos: nat)
    requires IsSlug(s) && 0 < pos < |s| && s[pos] == '-'
    ensures IsSlug(s[..pos])
  {
    assert s[pos - 1] != '-';
  }

  lemma TruncatedIsSlug(s: string, maxLen: nat)
    requires IsSlug(s) && maxLen >= 1
    ensures IsSlug(Truncated(s, maxLen)) && |Truncated(s, maxLen)| <= maxLen && Truncated(s, maxLen) <= s
  {
    if |s| > maxLen {
      var candidate := s[..maxLen];
      assert forall i :: 0 <= i < maxLen ==> candidate[i] == s[i];
      var last := LastHyphen(candidate);
      if last.Some? {
        var pos := last.value;
        assert candidate[pos] == s[pos];
        if pos < maxLen / 2 {
          assert candidate[maxLen - 1] in candidate[pos + 1..];
        } else {
          CleanPrefix(s, pos);
        }
      } else {
        assert candidate[maxLen - 1] in candidate;
      }
    }
  }

  /** Every slug is in normal form, unless the limit is zero and cuts everything away. */
  lemma SlugIsNormal(input: string, maxLen: nat)
    ensures IsSlug(Slugified(input, maxLen)) <==> maxLen >= 1 || Trimmed(input) == ""
  {
    TrimmedIsSlug(input);
    if Trimmed(input) == "" {
      assert IsSlug("untitled");
    } else if maxLen >= 1 {
      TruncatedIsSlug(Trimmed(input), maxLen);
    }
  }

  /** The limit is kept exactly when it leaves room for the fallback or the input has
      something to make a slug of. */
  lemma SlugFits(input: string, maxLen: nat)
    ensures |Slugified(input, maxLen)| <= maxLen <==> maxLen >= 8 || Trimmed(input) != ""
  {
    TrimmedIsSlug(input);
    if Trimmed(input) != "" && maxLen >= 1 {
      TruncatedIsSlug(Trimmed(input), maxLen);
    }
  }

  lemma {:induction false} CollapsedKeeps(s: string, prevHyphen: bool)
    requires Clean(s) && (prevHyphen && s != "" ==> s[0] != '-')
    ensures Collapsed(s, prevHyphen) == s
  {
    if s != "" {
      assert s == [s[0]] + s[1..];
      if s[0] == '-' && |s| > 1 { assert !(s[0] == '-' && s[1] == '-'); }
      CollapsedKeeps(s[1..], s[0] == '-');
    }
  }

  lemma SlugKept(s: string)
    requires IsSlug(s)
    ensures Trimmed(s) == s
  {
    assert Mapped(s) == s;
    CollapsedKeeps(s, false);
  }

  /** The strings left alone are exactly the normal forms that fit, whatever the limit. */
  lemma SlugFixedPoints(s: string, maxLen: nat)
    ensures Slugified(s, maxLen) == s <==> IsSlug(s) && |s| <= maxLen
  {
    if IsSlug(s) { SlugKept(s); }
    if Slugified(s, maxLen) == s {
      SlugKept("untitled");
      SlugIsNormal(s, maxLen);
      SlugFits(s, maxLen);
    }
  }

  /** Slugifying twice is slugifying once exactly when the fallback fits or is not needed,
      and the limit leaves room for anything at all. */
  lemma SlugIdempotent(input: string, maxLen: nat)
    ensures Slugified(Slugified(input, maxLen), maxLen) == Slugified(input, maxLen)
            <==> maxLen >= 8 || (maxLen >= 1 && Trimmed(input) != "")
  {
    SlugIsNormal(input, maxLen);
    SlugFits(input, maxLen);
    SlugFixedPoints(Slugified(input, maxLen), maxLen);
  }

  // ----------------------------------------------------------------------
  // What a slug says of its input
  // ----------------------------------------------------------------------

  ghost predicate IsAsciiAlnum(c: char) { 'a' <= c <= 'z' || 'A' <= c <= 'Z' || '0' <= c <= '9' }

  ghost function Lowered(c: char): char
    requires IsAsciiAlnum(c)
  {
    if 'A' <= c <= 'Z' then (c as int + 32) as char else c
  }

  /** The words of a text: its longest runs of ASCII letters and digits, in lower case. */
  ghost function Words(s: string): (words: seq<string>)
    ensures s != "" && IsAsciiAlnum(s[0]) ==> words != []
  {
    if s == "" then []
    else if !IsAsciiAlnum(s[0]) then Words(s[1..])
    else if |s| > 1 && IsAsciiAlnum(s[1]) then
      var rest := Words(s[1..]);
      [[Lowered(s[0])] + rest[0]] + rest[1..]
    else [[Lowered(s[0])]] + Words(s[1..])
  }

  ghost function Joined(s: string): string { Text.Join(Words(s), '-') }

  /** A hyphen is left over at the end when something follows the last word. */
  ghost function Tail(s: string): string {
    if Words(s) != [] && !IsAsciiAlnum(s[|s| - 1]) then "-" else ""
  }

  lemma {:induction false} NoWords(s: string)
    requires Words(s) == []
    ensures s == "" || !IsAsciiAlnum(s[|s| - 1])
  {
    if |s| > 1 { NoWords(s[1..]); }
  }

  lemma MappedRest(s: string)
    requires s != ""
    ensures Mapped(s)[1..] == Mapped(s[1..])
    ensures Mapped(s)[0] == if IsAsciiAlnum(s[0]) then Lowered(s[0]) else '-'
    ensures IsAsciiAlnum(s[0]) ==> Mapped(s)[0] != '-'
  {
  }

  /** Behind a hyphen, what is collapsed is the words with single hyphens between them. */
  lemma {:induction false} CollapsedWords(s: string)
    ensures Collapsed(Mapped(s), true) == Joined(s) + Tail(s)
  {
    if s == "" {
      assert Mapped(s) == "";
    } else {
      MappedRest(s);
      CollapsedWords(s[1..]);
      if !IsAsciiAlnum(s[0]) {
        assert "" + Collapsed(Mapped(s[1..]), true) == Collapsed(Mapped(s[1..]), true);
      } else {
        WordInFront(s);
      }
    }
  }

  lemma WordInFront(s: string)
    requires s != "" && IsAsciiAlnum(s[0]) && Collapsed(Mapped(s[1..]), true) == Joined(s[1..]) + Tail(s[1..])
    ensures Collapsed(Mapped(s), true) == Joined(s) + Tail(s)
  {
    var l, rest := Lowered(s[0]), s[1..];
    MappedRest(s);
    CollapsedBehindWord(rest);
    assert Collapsed(Mapped(s), true) == [l] + Collapsed(Mapped(rest), false);
    if rest == "" {
      assert Words(s) == [[l]] + [];
    } else if IsAsciiAlnum(rest[0]) {
      var words := Words(rest);
      JoinLonger(l, words);
      assert [l] + (Text.Join(words, '-') + Tail(s)) == [l] + Text.Join(words, '-') + Tail(s);
    } else {
      NewWord(s);
    }
  }

  lemma CollapsedBehindWord(s: string)
    ensures Collapsed(Mapped(s), false) ==
            (if s != "" && !IsAsciiAlnum(s[0]) then "-" else "") + Collapsed(Mapped(s), true)
  {
    if s != "" {
      MappedRest(s);
      if !IsAsciiAlnum(s[0]) {
        assert "" + Collapsed(Mapped(s[1..]), true) == Collapsed(Mapped(s[1..]), true);
      } else {
        assert "" + Collapsed(Mapped(s), true) == Collapsed(Mapped(s), true);
      }
    }
  }

  lemma JoinLonger(l: char, words: seq<string>)
    requires words != []
    ensures Text.Join([[l] + words[0]] + words[1..], '-') == [l] + Text.Join(words, '-')
  {
    var longer := [[l] + words[0]] + words[1..];
    assert longer[1..] == words[1..];
    if |words| > 1 {
      assert [l] + words[0] + ['-'] + Text.Join(words[1..], '-') == [l] + (words[0] + ['-'] + Text.Join(words[1..], '-'));
    }
  }

  lemma NewWord(s: string)
    requires |s| > 1 && IsAsciiAlnum(s[0]) && !IsAsciiAlnum(s[1])
    ensures [Lowered(s[0])] + ("-" + (Joined(s[1..]) + Tail(s[1..]))) == Joined(s) + Tail(s)
  {
    var l, words := Lowered(s[0]), Words(s[1..]);
    assert Words(s) == [[l]] + words && Words(s)[1..] == words;
    if words == [] {
      NoWords(s[1..]);
      assert Joined(s) == [l] && Tail(s) == "-";
    } else {
      assert Joined(s) == [l] + ['-'] + Joined(s[1..]);
      assert Tail(s) == Tail(s[1..]);
    }
  }

  lemma {:induction false} WordsAreWords(s: string)
    ensures forall w <- Words(s) :: w != "" && '-' !in w
  {
    if s != "" {
      WordsAreWords(s[1..]);
      if IsAsciiAlnum(s[0]) && |s| > 1 && IsAsciiAlnum(s[1]) {
        assert Words(s[1..])[0] in Words(s[1..]);
      }
    }
  }

  lemma {:induction false} JoinedEnds(words: seq<string>)
    requires words != [] && forall w <- words :: w != "" && '-' !in w
    ensures var j := Text.Join(words, '-'); j != "" && j[0] != '-' && j[|j| - 1] != '-'
  {
    assert words[0] in words;
    if |words| > 1 {
      assert forall w <- words[1..] :: w in words;
      JoinedEnds(words[1..]);
    }
  }

  lemma TrimsEnds(front: string, middle: string, back: string)
    requires front in {"", "-"} && back in {"", "-"} && middle != "" && middle[0] != '-' && middle[|middle| - 1] != '-'
    ensures TrimRight(TrimLeft(front + middle + back)) == middle
  {
    var all := front + middle + back;
    if front == "-" {
      assert all[1..] == middle + back;
      assert TrimLeft(all) == TrimLeft(middle + back);
    } else {
      assert all == middle + back;
    }
    assert TrimLeft(middle + back) == middle + back;
    if back == "-" {
      assert (middle + back)[..|middle + back| - 1] == middle;
    } else {
      assert middle + back == middle;
    }
  }

  /** Before it is cut to length, a slug is the words of its input with one hyphen between
      each two of them. */
  lemma TrimmedIsWords(input: string)
    ensures Trimmed(input) == Joined(input)
  {
    CollapsedWords(input);
    CollapsedBehindWord(input);
    WordsAreWords(input);
    var front := if input != "" && !IsAsciiAlnum(input[0]) then "-" else "";
    if Words(input) == [] {
      assert Joined(input) + Tail(input) == "";
      assert Collapsed(Mapped(input), false) == front + "" == front;
      assert TrimLeft(front) == "" by { if front == "-" { assert front[1..] == ""; } }
    } else {
      JoinedEnds(Words(input));
      TrimsEnds(front, Joined(input), Tail(input));
      assert front + (Joined(input) + Tail(input)) == front + Joined(input) + Tail(input);
    }
  }

  /** Where a slug that is too long is cut: at the last hyphen within the limit, if that leaves
      at least half of it, and otherwise at the limit. */
  lemma TruncationCuts(s: string, maxLen: nat)
    requires |s| > maxLen
    ensures exists n: nat :: n <= maxLen && Truncated(s, maxLen) == s[..n]
                             && (n < maxLen ==> s[n] == '-' && n >= maxLen / 2 && '-' !in s[n + 1..maxLen])
                             && (n == maxLen ==> '-' !in s[maxLen / 2..maxLen])
  {
    var candidate := s[..maxLen];
    match LastHyphen(candidate) {
      case Some(pos) =>
        assert candidate[pos + 1..] == s[pos + 1..maxLen];
        if pos >= maxLen / 2 {
          assert candidate[..pos] == s[..pos];
        } else {
          assert forall c <- s[maxLen / 2..maxLen] :: c in s[pos + 1..maxLen] by {
            assert s[maxLen / 2..maxLen] == s[pos + 1..maxLen][maxLen / 2 - pos - 1..];
          }
        }
      case None =>
        assert forall c <- s[maxLen / 2..maxLen] :: c in candidate;
    }
  }

  /** The slug of any input: its words with single hyphens between them, cut to the limit;
      and `untitled` when there are none. */
  lemma SlugExactly(input: string, maxLen: nat)
    ensures Slugified(input, maxLen) ==
            if Words(input) == [] then "untitled"
            else if |Joined(input)| <= maxLen then Joined(input) else Truncated(Joined(input), maxLen)
  {
    TrimmedIsWords(input);
    WordsAreWords(input);
    if Words(input) != [] { JoinedEnds(Words(input)); }
  }
}
