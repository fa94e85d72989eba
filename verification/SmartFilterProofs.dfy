/** Printing a filter and parsing it again. */
module SmartFilterProofs {
  import opened Wrappers
  import opened Text
  import opened SmartFilter

  /** Free of white space. */
  ghost predicate Solid(s: string) {
    forall c <- s :: !IsWhitespace(c)
  }

  /** No quote character stands right behind a colon. Elsewhere quotes mean nothing to the
      tokenizer and the parser. */
  ghost predicate Calm(s: string) {
    forall i :: 0 < i < |s| && s[i - 1] == ':' ==> !IsQuote(s[i])
  }

  lemma CalmPart(s: string, lo: nat, hi: nat)
    requires Calm(s) && lo <= hi <= |s|
    ensures Calm(s[lo..hi])
  {
    var part := s[lo..hi];
    forall i | 0 < i < |part| && part[i - 1] == ':'
      ensures !IsQuote(part[i])
    {
      assert s[lo + i - 1] == ':' && s[lo + i] == part[i];
    }
  }

  // ----------------------------------------------------------------------
  // A token without white space and without quoting is printed back as it was
  // ----------------------------------------------------------------------

  lemma {:induction false} NamesPrintBack<T>(named: string -> Option<T>, name: T -> string, items: seq<string>)
    requires forall s :: named(s).Some? ==> name(named(s).value) == s
    requires ParseList(named, items).Some? && forall s <- items :: Solid(s)
    ensures Names(name, ParseList(named, items).value) == items
  {
    if items != [] {
      assert items[0] in items;
      SolidTrim(items[0]);
      NamesPrintBack(named, name, items[1..]);
      assert items == [items[0]] + items[1..];
    }
  }

  lemma SolidTrim(s: string)
    requires Solid(s)
    ensures Trim(s) == s
  {
    if s != "" { assert s[0] in s && s[|s| - 1] in s; }
    TrimNothing(s);
  }

  lemma SolidItems(value: string)
    requires Solid(value)
    ensures forall s <- Split(value, ',') :: Solid(s)
    ensures TrimAll(Split(value, ',')) == Split(value, ',')
  {
    SplitChars(value, ',');
    forall s | s in Split(value, ',')
      ensures Solid(s) && Trim(s) == s
    {
      assert Solid(s);
      SolidTrim(s);
    }
  }

  lemma ListPrintsBack(key: string, value: string, negated: bool)
    requires Solid(value) && (key == "type" || key == "status") && ParseValue(key, value, negated).Ok?
    ensures var p := ParseValue(key, value, negated).value;
            && (key == "type" ==> !negated && p.OfType? && Join(Names(TypeName, p.types), ',') == value)
            && (key == "status" && !negated ==> p.InStatus? && Join(Names(StatusName, p.statuses), ',') == value)
            && (key == "status" && negated ==> p.NotInStatus? && Join(Names(StatusName, p.excluded), ',') == value)
  {
    SolidItems(value);
    JoinSplit(value, ',');
    if key == "type" {
      NamesPrintBack(TypeNamed, TypeName, Split(value, ','));
    } else {
      NamesPrintBack(StatusNamed, StatusName, Split(value, ','));
    }
  }

  lemma SingleValue(key: string, value: string, negated: bool)
    requires key != "type" && key != "status" && ParseValue(key, value, negated).Ok?
    ensures !negated
    ensures var p := ParseValue(key, value, negated).value;
            || (key == "tag" && p == Tagged(TrimAll(Split(value, ','))))
            || (key == "source" && p == FromSource(value))
            || (key == "since" && p == CreatedSince(value))
            || (key == "before" && p == CreatedBefore(value))
            || (key == "text" && p == Matching(value))
  {
  }

  lemma ValuePrintsBack(key: string, value: string, negated: bool)
    requires Solid(value) && ParseValue(key, value, negated).Ok?
    ensures Shown(ParseValue(key, value, negated).value) == (if negated then "-" else "") + (key + ":") + value
  {
    if key == "type" || key == "status" {
      KeyColons();
      ListPrintsBack(key, value, negated);
      assert "" + (key + ":") == key + ":";
    } else {
      SinglePrintsBack(key, value, negated);
    }
  }

  lemma SinglePrintsBack(key: string, value: string, negated: bool)
    requires key != "type" && key != "status"
    requires Solid(value) && ParseValue(key, value, negated).Ok?
    ensures Shown(ParseValue(key, value, negated).value) == (if negated then "-" else "") + (key + ":") + value
  {
    SingleValue(key, value, negated);
    var p := ParseValue(key, value, negated).value;
    NothingInFront(key + ":");
    KeyColons();
    if key == "tag" {
      SolidItems(value);
      JoinSplit(value, ',');
      assert Shown(p) == "tag:" + value;
    } else {
      SingleShown(key, value, p);
    }
  }

  lemma NothingInFront(s: string)
    ensures "" + s == s
  {
  }

  lemma SingleShown(key: string, value: string, p: Predicate)
    requires || (key == "source" && p == FromSource(value)) || (key == "since" && p == CreatedSince(value))
             || (key == "before" && p == CreatedBefore(value)) || (key == "text" && p == Matching(value))
    ensures Shown(p) == (key + ":") + value
  {
    KeyColons();
  }

  lemma KeyColons()
    ensures "type" + ":" == "type:" && "tag" + ":" == "tag:" && "status" + ":" == "status:" && "source" + ":" == "source:"
    ensures "since" + ":" == "since:" && "before" + ":" == "before:" && "text" + ":" == "text:" && "-" + "status:" == "-status:"
  {
  }

  /** How a token without its sign falls into key and value. */
  lemma BodyParts(body: string, negated: bool) returns (key: string, value: string)
    requires Calm(body) && Solid(body) && Find(body, ':').Some?
    ensures body == (key + ":") + value && Solid(value)
    ensures ParseBody(body, negated) == if value == "" then Err(InvalidValue(key, "", EmptyValue)) else ParseValue(key, value, negated)
  {
    var colon := Find(body, ':').value;
    key, value := body[..colon], body[colon + 1..];
    SolidSuffix(body, value);
    if value != "" { assert body[colon] == ':' && value[0] == body[colon + 1]; }
    assert Unquoted(value) == value;
  }

  lemma SolidSuffix(body: string, value: string)
    requires Solid(body) && |value| <= |body| && value == body[|body| - |value|..]
    ensures Solid(value)
  {
    forall c | c in value
      ensures c in body
    {
    }
  }

  lemma Regroup(a: string, b: string, c: string)
    ensures a + (b + c) == a + b + c
  {
  }

  /** A token is its sign and its body. */
  lemma TokenSplits(token: string) returns (negated: bool, body: string)
    requires Solid(token) && Calm(token)
    ensures token == (if negated then "-" else "") + body && ParseToken(token) == ParseBody(body, negated)
    ensures Solid(body) && Calm(body)
  {
    negated := token != "" && token[0] == '-';
    body := if negated then token[1..] else token;
    SolidSuffix(token, body);
    CalmPart(token, if negated then 1 else 0, |token|);
  }

  lemma TokenPrintsBack(token: string)
    requires Solid(token) && Calm(token) && ParseToken(token).Ok?
    ensures Shown(ParseToken(token).value) == token
  {
    var negated, body := TokenSplits(token);
    BodyPrintsBack(body, negated);
  }

  lemma BodyPrintsBack(body: string, negated: bool)
    requires Solid(body) && Calm(body) && ParseBody(body, negated).Ok?
    ensures Shown(ParseBody(body, negated).value) == (if negated then "-" else "") + body
  {
    var key, value := BodyParts(body, negated);
    ValuePrintsBack(key, value, negated);
    Regroup(if negated then "-" else "", key + ":", value);
  }

  // ----------------------------------------------------------------------
  // Tokens of a query without quoting
  // ----------------------------------------------------------------------

  ghost predicate Words(tokens: seq<string>) {
    forall t <- tokens :: t != "" && Solid(t) && Calm(t)
  }

  /** Without quoting a token never contains white space. */
  lemma {:induction false} SolidTokens(q: string, i: nat, start: Option<nat>)
    requires Calm(q) && i <= |q|
    requires start.Some? ==> start.value < i && Solid(q[start.value..i])
    ensures forall s <- Spans(q, i, start) :: s.0 < s.1 <= |q| && Solid(q[s.0..s.1])
    decreases |q| - i
  {
    if i < |q| {
      if IsWhitespace(q[i]) {
        SolidTokens(q, i + 1, None);
      } else {
        var from := start.GetOr(i);
        assert NextPosition(q, i) == i + 1;
        assert q[from..i + 1] == q[from..i] + [q[i]];
        SolidTokens(q, i + 1, Some(from));
      }
    }
  }

  lemma CalmTokensAreWords(q: string)
    requires Calm(q)
    ensures Words(Tokens(q))
  {
    SpansFit(q, 0, None);
    SolidTokens(q, 0, None);
    var spans := Spans(q, 0, None);
    forall t | t in Tokens(q)
      ensures t != "" && Solid(t) && Calm(t)
    {
      var k :| 0 <= k < |spans| && t == q[spans[k].0..spans[k].1];
      assert spans[k] in spans;
      CalmPart(q, spans[k].0, spans[k].1);
    }
  }

  // ----------------------------------------------------------------------
  // Scanning one token
  // ----------------------------------------------------------------------

  /** From position `i` on, the tokenizer meets no white space outside quoted stretches. */
  ghost predicate Walks(t: string, i: nat)
    requires i <= |t|
    decreases |t| - i
  {
    i == |t| || (!IsWhitespace(t[i]) && Walks(t, NextPosition(t, i)))
  }

  /** From position `i` on, every quoted stretch the tokenizer enters is closed. */
  ghost predicate Closes(t: string, i: nat)
    requires i <= |t|
    decreases |t| - i
  {
    i == |t|
    || (&& (t[i] == ':' && i + 1 < |t| && IsQuote(t[i + 1]) ==> t[i + 1] in t[i + 2..])
        && Closes(t, NextPosition(t, i)))
  }

  lemma {:induction false} WordWalks(t: string, i: nat)
    requires Solid(t) && Calm(t) && i <= |t|
    ensures Walks(t, i) && Closes(t, i)
    decreases |t| - i
  {
    if i < |t| {
      assert t[i] in t;
      assert NextPosition(t, i) == i + 1;
      WordWalks(t, i + 1);
    }
  }

  lemma QuoteIsNotSpace(c: char)
    ensures IsWhitespace(c) ==> !IsQuote(c)
  {
  }

  /** Looking for a closing quote inside a part of the query and in the query itself. */
  lemma {:induction false} AfterQuoteInside(q: string, a: nat, end: nat, i: nat, quote: char)
    requires a + i <= end <= |q| && AfterQuote(q, a + i, quote) <= end
    ensures AfterQuote(q[a..end], i, quote) == AfterQuote(q, a + i, quote) - a
    decreases end - i
  {
    if a + i < end {
      assert q[a..end][i] == q[a + i];
      if q[a + i] != quote { AfterQuoteInside(q, a, end, i + 1, quote); }
    }
  }

  lemma {:induction false} AfterQuoteCloses(q: string, a: nat, end: nat, i: nat, quote: char)
    requires a + i <= end <= |q| && quote in q[a..end][i..]
    ensures AfterQuote(q, a + i, quote) <= end
    decreases end - i
  {
    var t := q[a..end];
    assert t[i] == q[a + i];
    if q[a + i] != quote {
      assert t[i..] == [t[i]] + t[i + 1..];
      AfterQuoteCloses(q, a, end, i + 1, quote);
    }
  }

  lemma {:induction false} AfterQuoteFound(q: string, i: nat, quote: char)
    requires i <= |q| && AfterQuote(q, i, quote) < |q|
    ensures AfterQuote(q, i, quote) > i && q[AfterQuote(q, i, quote) - 1] == quote
    decreases |q| - i
  {
    if q[i] != quote { AfterQuoteFound(q, i + 1, quote); }
  }

  /** One turn of the loop inside a part of the query and in the query itself. */
  lemma NextInside(q: string, a: nat, end: nat, j: nat)
    requires a + j < end <= |q| && NextPosition(q, a + j) <= end
    ensures NextPosition(q[a..end], j) == NextPosition(q, a + j) - a
  {
    var t := q[a..end];
    assert t[j] == q[a + j];
    if a + j + 1 < end {
      assert t[j + 1] == q[a + j + 1];
      if q[a + j] == ':' && IsQuote(q[a + j + 1]) {
        AfterQuoteInside(q, a, end, j + 2, q[a + j + 1]);
      }
    }
  }

  /** A turn that starts inside a token ends inside it. */
  lemma NextStays(q: string, a: nat, end: nat, j: nat)
    requires a + j < end <= |q| && (end < |q| ==> IsWhitespace(q[end]) && Closes(q[a..end], j))
    ensures NextPosition(q, a + j) <= end
  {
    var t := q[a..end];
    assert t[j] == q[a + j];
    if a + j + 1 < end {
      assert t[j + 1] == q[a + j + 1];
      if q[a + j] == ':' && IsQuote(q[a + j + 1]) && end < |q| {
        AfterQuoteCloses(q, a, end, j + 2, q[a + j + 1]);
      }
    } else if end < |q| {
      QuoteIsNotSpace(q[end]);
    }
  }

  /** A token is scanned through to the space or the end behind it. */
  lemma {:induction false} ScansOn(q: string, a: nat, end: nat, j: nat)
    requires a + j <= end <= |q| && Walks(q[a..end], j)
    requires end < |q| ==> IsWhitespace(q[end]) && Closes(q[a..end], j)
    ensures Spans(q, a + j, Some(a)) == Spans(q, end, Some(a))
    decreases end - j
  {
    if a + j < end {
      assert q[a..end][j] == q[a + j];
      NextStays(q, a, end, j);
      NextInside(q, a, end, j);
      ScansOn(q, a, end, NextPosition(q, a + j) - a);
    }
  }

  lemma ScansToken(q: string, a: nat, end: nat)
    requires a < end <= |q| && Walks(q[a..end], 0)
    requires end < |q| ==> IsWhitespace(q[end]) && Closes(q[a..end], 0)
    ensures Spans(q, a, None) == Spans(q, end, Some(a))
  {
    assert q[a..end][0] == q[a];
    NextStays(q, a, end, 0);
    NextInside(q, a, end, 0);
    ScansOn(q, a, end, NextPosition(q, a) - a);
  }

  /** Tokens that come apart again when they are joined by spaces: each is scanned through,
      and only the last may leave a quoted stretch open. */
  ghost predicate Scannable(tokens: seq<string>) {
    forall k :: 0 <= k < |tokens| ==>
      tokens[k] != "" && Walks(tokens[k], 0) && (k < |tokens| - 1 ==> Closes(tokens[k], 0))
  }

  lemma ScannableRest(tokens: seq<string>)
    requires tokens != [] && Scannable(tokens)
    ensures Scannable(tokens[1..])
  {
    var rest := tokens[1..];
    forall k | 0 <= k < |rest|
      ensures rest[k] != "" && Walks(rest[k], 0) && (k < |rest| - 1 ==> Closes(rest[k], 0))
    {
      assert rest[k] == tokens[k + 1];
    }
  }

  lemma WordsScannable(tokens: seq<string>)
    requires Words(tokens)
    ensures Scannable(tokens)
  {
    forall k | 0 <= k < |tokens|
      ensures tokens[k] != "" && Walks(tokens[k], 0) && Closes(tokens[k], 0)
    {
      assert tokens[k] in tokens;
      WordWalks(tokens[k], 0);
    }
  }

  /** Tokenizing from position `at` on gives these tokens. */
  ghost predicate Yields(q: string, at: nat, tokens: seq<string>)
    requires at <= |q|
  {
    var spans := Spans(q, at, None);
    (forall s <- spans :: s.0 <= s.1 <= |q|) && Slices(q, spans) == tokens
  }

  /** Tokenizing such tokens joined by spaces gives them back. */
  lemma {:induction false} JoinedTokens(q: string, at: nat, tokens: seq<string>)
    requires tokens != [] && Scannable(tokens) && at <= |q| && q[at..] == Join(tokens, ' ')
    ensures Yields(q, at, tokens)
    decreases |tokens|
  {
    var t := tokens[0];
    if |tokens| == 1 {
      assert q[at..|q|] == t && tokens == [t];
      LastToken(q, at, t);
    } else {
      var rest, end := tokens[1..], at + |t|;
      FirstOfJoined(q, at, t, Join(rest, ' '));
      ScannableRest(tokens);
      JoinedTokens(q, end + 1, rest);
      OneMoreToken(q, at, end, t, rest);
      assert tokens == [t] + rest;
    }
  }

  lemma FirstOfJoined(q: string, at: nat, t: string, after: string)
    requires at <= |q| && q[at..] == t + [' '] + after
    ensures at + |t| < |q| && q[at..at + |t|] == t && q[at + |t|] == ' ' && q[at + |t| + 1..] == after
  {
    assert q[at..][..|t|] == t && q[at..][|t|] == ' ' && q[at..][|t| + 1..] == after;
  }

  lemma OneMoreToken(q: string, at: nat, end: nat, t: string, rest: seq<string>)
    requires at < end < |q| && q[at..end] == t && Walks(t, 0) && Closes(t, 0)
    requires q[end] == ' ' && Yields(q, end + 1, rest)
    ensures Yields(q, at, [t] + rest)
  {
    ScansToSpace(q, at, end, t);
    YieldsCons(q, at, end, t, rest);
  }

  lemma YieldsCons(q: string, at: nat, end: nat, t: string, rest: seq<string>)
    requires at <= end < |q| && q[at..end] == t && Yields(q, end + 1, rest)
    requires Spans(q, at, None) == [(at, end)] + Spans(q, end + 1, None)
    ensures Yields(q, at, [t] + rest)
  {
    SlicesCons(q, (at, end), Spans(q, end + 1, None));
  }

  lemma LastToken(q: string, at: nat, t: string)
    requires t != "" && Walks(t, 0) && at < |q| && q[at..|q|] == t
    ensures Yields(q, at, [t])
  {
    ScansToken(q, at, |q|);
    assert Spans(q, at, None) == [(at, |q|)];
  }

  lemma ScansToSpace(q: string, a: nat, end: nat, t: string)
    requires a < end < |q| && q[a..end] == t && Walks(t, 0) && Closes(t, 0) && IsWhitespace(q[end])
    ensures Spans(q, a, None) == [(a, end)] + Spans(q, end + 1, None)
  {
    ScansToken(q, a, end);
  }

  lemma WordInFront(before: string, t: string, after: string)
    ensures var q := before + (t + [' '] + after);
            && q == (before + t + [' ']) + after
            && q[|before|..|before| + |t|] == t && q[|before| + |t|] == ' '
  {
  }

  lemma SlicesCons(q: string, s: (nat, nat), rest: seq<(nat, nat)>)
    requires s.0 <= s.1 <= |q| && forall r <- rest :: r.0 <= r.1 <= |q|
    ensures forall r <- [s] + rest :: r.0 <= r.1 <= |q|
    ensures Slices(q, [s] + rest) == [q[s.0..s.1]] + Slices(q, rest)
  {
  }

  lemma TokensOfJoined(tokens: seq<string>)
    requires tokens != [] && Scannable(tokens)
    ensures Tokens(Join(tokens, ' ')) == tokens
  {
    JoinedTokens(Join(tokens, ' '), 0, tokens);
  }

  lemma {:induction false} JoinEnds(tokens: seq<string>)
    requires tokens != [] && forall k :: 0 <= k < |tokens| ==> tokens[k] != ""
    ensures var q, first, last := Join(tokens, ' '), tokens[0], tokens[|tokens| - 1];
            q != "" && q[0] == first[0] && q[|q| - 1] == last[|last| - 1]
    decreases |tokens|
  {
    if |tokens| > 1 {
      assert forall k :: 0 <= k < |tokens[1..]| ==> tokens[1..][k] == tokens[k + 1];
      JoinEnds(tokens[1..]);
    }
  }

  // ----------------------------------------------------------------------
  // Round trip
  // ----------------------------------------------------------------------

  lemma {:induction false} EachPrintsBack(parse: string -> Result<Predicate, FilterError>, tokens: seq<string>)
    requires ParseEach(parse, tokens).Ok?
    requires forall t <- tokens :: parse(t).Ok? ==> Shown(parse(t).value) == t
    ensures ShownAll(ParseEach(parse, tokens).value) == tokens
  {
    if tokens != [] {
      assert tokens[0] in tokens;
      EachPrintsBack(parse, tokens[1..]);
      assert tokens == [tokens[0]] + tokens[1..];
    }
  }

  lemma TokensPrintBack(tokens: seq<string>)
    requires Words(tokens) && ParseTokens(tokens).Ok?
    ensures ShownAll(ParseTokens(tokens).value) == tokens
  {
    forall t | t in tokens && ParseToken(t).Ok?
      ensures Shown(ParseToken(t).value) == t
    {
      TokenPrintsBack(t);
    }
    EachPrintsBack(ParseToken, tokens);
  }

  lemma {:induction false} TrimStartKeeps(s: string)
    ensures forall c <- TrimStart(s) :: c in s
  {
    if s != "" && IsWhitespace(s[0]) { TrimStartKeeps(s[1..]); }
  }

  lemma {:induction false} TrimEndKeeps(s: string)
    ensures forall c <- TrimEnd(s) :: c in s
  {
    if s != "" && IsWhitespace(s[|s| - 1]) { TrimEndKeeps(s[..|s| - 1]); }
  }

  /** Trimming cuts a part out of the middle. */
  lemma {:induction false} TrimEndPrefix(s: string)
    ensures TrimEnd(s) <= s
    ensures TrimEnd(s) != "" ==> !IsWhitespace(TrimEnd(s)[|TrimEnd(s)| - 1])
  {
    if s != "" && IsWhitespace(s[|s| - 1]) { TrimEndPrefix(s[..|s| - 1]); }
  }

  lemma {:induction false} TrimStartSuffix(s: string)
    ensures |TrimStart(s)| <= |s| && TrimStart(s) == s[|s| - |TrimStart(s)|..]
  {
    if s != "" && IsWhitespace(s[0]) { TrimStartSuffix(s[1..]); }
  }

  lemma TrimKeepsCalm(query: string)
    requires Calm(query)
    ensures Calm(Trim(query))
  {
    var s := TrimStart(query);
    TrimStartSuffix(query);
    CalmPart(query, |query| - |s|, |query|);
    TrimEndPrefix(s);
    CalmPart(s, 0, |Trim(query)|);
    assert Trim(query) == s[0..|Trim(query)|];
  }

  /** For every query that parses and quotes nothing, printing the filter and parsing again
      gives the same filter; moreover the printed form is the query's own tokens with single
      spaces. */
  lemma PrintParse(query: string)
    requires Calm(query) && Parsed(query).Ok?
    ensures Displayed(Parsed(query).value) == Join(Tokens(Trim(query)), ' ')
    ensures Parsed(Displayed(Parsed(query).value)) == Parsed(query)
  {
    var tokens := Tokens(Trim(query));
    TrimKeepsCalm(query);
    CalmTokensAreWords(Trim(query));
    TokensPrintBack(tokens);
    assert tokens != [];
    WordsReadBack(tokens);
  }

  lemma WordsReadBack(tokens: seq<string>)
    requires tokens != [] && Words(tokens)
    ensures Join(tokens, ' ') != "" && Trim(Join(tokens, ' ')) == Join(tokens, ' ') && Tokens(Join(tokens, ' ')) == tokens
  {
    var first, last := tokens[0], tokens[|tokens| - 1];
    assert first in tokens && last in tokens;
    assert first[0] in first && last[|last| - 1] in last;
    WordsScannable(tokens);
    JoinedReadsBack(tokens);
  }

  lemma JoinedReadsBack(tokens: seq<string>)
    requires tokens != [] && Scannable(tokens)
    requires !IsWhitespace(tokens[0][0]) && !IsWhitespace(tokens[|tokens| - 1][|tokens[|tokens| - 1]| - 1])
    ensures Join(tokens, ' ') != "" && Trim(Join(tokens, ' ')) == Join(tokens, ' ') && Tokens(Join(tokens, ' ')) == tokens
  {
    JoinEnds(tokens);
    TrimNothing(Join(tokens, ' '));
    TokensOfJoined(tokens);
  }

  lemma TextColon(raw: string)
    ensures Find("text:" + raw, ':') == Some(4)
  {
    var t := "text:" + raw;
    assert t == ['t', 'e', 'x', 't', ':'] + raw;
    assert t[0] == 't' && t[1..][0] == 'e' && t[1..][1..][0] == 'x' && t[1..][1..][1..][0] == 't' && t[1..][1..][1..][1..][0] == ':';
    assert Find(t[1..][1..][1..][1..], ':') == Some(0);
    assert Find(t[1..][1..][1..], ':') == Some(1);
    assert Find(t[1..][1..], ':') == Some(2);
    assert Find(t[1..], ':') == Some(3);
  }

  lemma TextToken(raw: string)
    requires Unquoted(raw) != ""
    ensures ParseToken("text:" + raw) == Ok(Matching(Unquoted(raw)))
  {
    var t := "text:" + raw;
    TextColon(raw);
    assert t[0] == 't' && t[..4] == "text" && t[5..] == raw;
  }

  lemma {:induction false} AfterQuoteSkips(q: string, i: nat, end: nat, quote: char)
    requires i <= end < |q| && q[end] == quote && quote !in q[i..end]
    ensures AfterQuote(q, i, quote) == end + 1
    decreases end - i
  {
    if i < end {
      assert q[i] == q[i..end][0];
      assert q[i..end][1..] == q[i + 1..end];
      AfterQuoteSkips(q, i + 1, end, quote);
    }
  }

  /** A quoted stretch behind `text:` is scanned as one token. */
  lemma QuotedToken(q: string, v: string, quote: char)
    requires IsQuote(quote) && quote !in v && q == "text:" + ([quote] + v + [quote])
    ensures Tokens(q) == [q]
  {
    var end := 6 + |v|;
    assert q[4] == ':' && q[5] == quote && q[end] == quote && q[6..end] == v && |q| == end + 1;
    AfterQuoteSkips(q, 6, end, quote);
    assert NextPosition(q, 4) == |q|;
    assert Spans(q, |q|, Some(0)) == [(0, |q|)];
    assert q[0] == 't' && q[1] == 'e' && q[2] == 'x' && q[3] == 't';
    assert Spans(q, 3, Some(0)) == Spans(q, 4, Some(0));
    assert Spans(q, 2, Some(0)) == Spans(q, 3, Some(0));
    assert Spans(q, 1, Some(0)) == Spans(q, 2, Some(0));
    assert Spans(q, 0, None) == Spans(q, 1, Some(0));
    assert q[0..|q|] == q;
  }

  lemma OneToken(token: string, p: Predicate)
    requires ParseToken(token) == Ok(p)
    ensures ParseTokens([token]) == Ok([p])
  {
    assert [token][1..] == [] && ParseEach(ParseToken, []) == Ok([]);
    assert [p] + [] == [p];
  }

  /** A quoted text value is taken literally, white space, colons and the other quote
      character included. */
  lemma QuotedText(v: string, quote: char)
    requires v != "" && IsQuote(quote) && quote !in v
    ensures Parsed("text:" + ([quote] + v + [quote])) == Ok([Matching(v)])
  {
    var raw := [quote] + v + [quote];
    var q := "text:" + raw;
    assert q[0] == 't' && q[|q| - 1] == quote;
    QuoteIsNotSpace(quote);
    TrimNothing(q);
    QuotedToken(q, v, quote);
    assert raw[1..|raw| - 1] == v && Unquoted(raw) == v;
    TextToken(raw);
    OneToken(q, Matching(v));
  }

  lemma TwoWords()
    ensures Parsed("text:a b") == Err(MissingSeparator("b"))
  {
    var words := ["text:" + "a", "b"];
    assert words[1..] == ["b"] && Join(["b"], ' ') == "b";
    assert Join(words, ' ') == "text:a b";
    assert Words(words);
    WordsReadBack(words);
    TrimNothing("text:a b");
    TextToken("a");
    assert Find("b", ':') == None;
    assert ParseEach(ParseToken, words[1..]) == Err(MissingSeparator("b"));
  }

  /** With quotes the round trip fails: the quotes are not printed, so a value with a
      space falls apart. */
  lemma QuotedValueNotReprinted()
    ensures Parsed("text:" + (['"'] + "a b" + ['"'])) == Ok([Matching("a b")])
    ensures Displayed([Matching("a b")]) == "text:a b"
    ensures Parsed("text:a b") == Err(MissingSeparator("b"))
  {
    QuotedText("a b", '"');
    TwoWordsShown();
    TwoWords();
  }

  lemma TwoWordsShown()
    ensures Displayed([Matching("a b")]) == "text:a b"
  {
    assert Shown(Matching("a b")) == "text:" + "a b" == "text:a b";
    assert ShownAll([Matching("a b")]) == ["text:a b"];
  }
}
