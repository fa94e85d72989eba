/**
 The smart-filter language: tokenizer, parser and printer.
 */
module SmartFilter {
  import opened Wrappers
  import opened Text

  datatype ContentType = FeedItem | Article | Bookmark | Highlight | Pdf | PodcastEpisode

  datatype Status = Inbox | Later | Reference | Reading | Archived | Discarded

  function TypeName(t: ContentType): string {
    match t
    case FeedItem => "feed_item"
    case Article => "article"
    case Bookmark => "bookmark"
    case Highlight => "highlight"
    case Pdf => "pdf"
    case PodcastEpisode => "podcast_episode"
  }

  function TypeNamed(s: string): (r: Option<ContentType>)
    ensures r.Some? ==> TypeName(r.value) == s
  {
    if s == "feed_item" then Some(FeedItem)
    else if s == "article" then Some(Article)
    else if s == "bookmark" then Some(Bookmark)
    else if s == "highlight" then Some(Highlight)
    else if s == "pdf" then Some(Pdf)
    else if s == "podcast_episode" then Some(PodcastEpisode)
    else None
  }

  function StatusName(s: Status): string {
    match s
    case Inbox => "inbox"
    case Later => "later"
    case Reference => "reference"
    case Reading => "reading"
    case Archived => "archived"
    case Discarded => "discarded"
  }

  function StatusNamed(s: string): (r: Option<Status>)
    ensures r.Some? ==> StatusName(r.value) == s
  {
    if s == "inbox" then Some(Inbox)
    else if s == "later" then Some(Later)
    else if s == "reference" then Some(Reference)
    else if s == "reading" then Some(Reading)
    else if s == "archived" then Some(Archived)
    else if s == "discarded" then Some(Discarded)
    else None
  }

  datatype Predicate =
    | OfType(types: seq<ContentType>)
    | Tagged(tags: seq<string>)
    | InStatus(statuses: seq<Status>)
    | NotInStatus(excluded: seq<Status>)
    | FromSource(source: string)
    | CreatedSince(since: string)
    | CreatedBefore(before: string)
    | Matching(text: string)

  datatype Reason = EmptyValue | BadMember | NegationUnsupported | BadDate

  datatype FilterError =
    | UnknownKey(key: string)
    | MissingSeparator(token: string)
    | InvalidValue(invalidKey: string, value: string, reason: Reason)
    | EmptyFilter

  // ----------------------------------------------------------------------
  // Tokenizer
  // ----------------------------------------------------------------------

  predicate IsQuote(c: char) { c == '"' || c == '\'' }

  /** The position after the next `quote`, or the end. */
  function AfterQuote(q: string, i: nat, quote: char): (r: nat)
    requires i <= |q|
    ensures i <= r <= |q|
    decreases |q| - i
  {
    if i == |q| then i else if q[i] == quote then i + 1 else AfterQuote(q, i + 1, quote)
  }

  /** One turn of the tokenizer's loop on a character that is not white space. */
  function NextPosition(q: string, i: nat): (r: nat)
    requires i < |q|
    ensures i < r <= |q|
  {
    if q[i] == ':' && i + 1 < |q| && IsQuote(q[i + 1]) then AfterQuote(q, i + 2, q[i + 1]) else i + 1
  }

  /** The tokens from position `i` on, as ranges; `start` is where an open token began. */
  function Spans(q: string, i: nat, start: Option<nat>): seq<(nat, nat)>
    requires i <= |q|
    decreases |q| - i
  {
    if i == |q| then (if start.Some? then [(start.value, |q|)] else [])
    else if IsWhitespace(q[i]) then
      (if start.Some? then [(start.value, i)] else []) + Spans(q, i + 1, None)
    else Spans(q, NextPosition(q, i), Some(start.GetOr(i)))
  }

  function Slices(q: string, spans: seq<(nat, nat)>): seq<string>
    requires forall s <- spans :: s.0 <= s.1 <= |q|
  {
    seq(|spans|, k requires 0 <= k < |spans| => q[spans[k].0..spans[k].1])
  }

  /** In order, apart from each other, not empty, inside [from, |q|). */
  ghost predicate InOrder(q: string, spans: seq<(nat, nat)>, from: nat) {
    && (forall k :: 0 <= k < |spans| ==> from <= spans[k].0 < spans[k].1 <= |q|)
    && (forall k, l :: 0 <= k < l < |spans| ==> spans[k].1 < spans[l].0)
  }

  ghost predicate Inside(spans: seq<(nat, nat)>, j: nat) {
    exists k :: 0 <= k < |spans| && spans[k].0 <= j < spans[k].1
  }

  ghost predicate Covers(q: string, spans: seq<(nat, nat)>, from: nat) {
    && InOrder(q, spans, from)
    && (forall k :: 0 <= k < |spans| ==> spans[k].0 < |q| && !IsWhitespace(q[spans[k].0]))
    && (forall j :: from <= j < |q| && !IsWhitespace(q[j]) ==> Inside(spans, j))
  }

  /** One more token in front, followed by a white-space character. */
  lemma InOrderCons(q: string, from: nat, i: nat, rest: seq<(nat, nat)>)
    requires from < i < |q| && InOrder(q, rest, i + 1)
    ensures InOrder(q, [(from, i)] + rest, from)
  {
    var spans := [(from, i)] + rest;
    forall k | 0 <= k < |spans|
      ensures from <= spans[k].0 < spans[k].1 <= |q|
    {
      if k > 0 { assert spans[k] == rest[k - 1]; }
    }
    forall k, l | 0 <= k < l < |spans|
      ensures spans[k].1 < spans[l].0
    {
      assert spans[l] == rest[l - 1];
      if k > 0 { assert spans[k] == rest[k - 1]; }
    }
  }

  lemma InsideCons(s: (nat, nat), rest: seq<(nat, nat)>, j: nat)
    ensures s.0 <= j < s.1 || Inside(rest, j) ==> Inside([s] + rest, j)
  {
    var spans := [s] + rest;
    if s.0 <= j < s.1 {
      assert spans[0].0 <= j < spans[0].1;
    } else if Inside(rest, j) {
      var k :| 0 <= k < |rest| && rest[k].0 <= j < rest[k].1;
      assert spans[k + 1] == rest[k];
    }
  }

  lemma {:induction false} SpansInOrder(q: string, i: nat, start: Option<nat>)
    requires i <= |q| && (start.Some? ==> start.value < i)
    ensures InOrder(q, Spans(q, i, start), start.GetOr(i))
    decreases |q| - i
  {
    if i < |q| {
      if IsWhitespace(q[i]) {
        SpansInOrder(q, i + 1, None);
        if start.Some? { InOrderCons(q, start.value, i, Spans(q, i + 1, None)); }
      } else {
        SpansInOrder(q, NextPosition(q, i), Some(start.GetOr(i)));
      }
    }
  }

  lemma {:induction false} SpansBegin(q: string, i: nat, start: Option<nat>)
    requires i <= |q| && (start.Some? ==> start.value < i && !IsWhitespace(q[start.value]))
    ensures forall s <- Spans(q, i, start) :: s.0 < |q| && !IsWhitespace(q[s.0])
    decreases |q| - i
  {
    if i < |q| {
      if IsWhitespace(q[i]) {
        SpansBegin(q, i + 1, None);
      } else {
        SpansBegin(q, NextPosition(q, i), Some(start.GetOr(i)));
      }
    }
  }

  lemma {:induction false} SpansInside(q: string, i: nat, start: Option<nat>, j: nat)
    requires i <= |q| && (start.Some? ==> start.value < i)
    requires start.GetOr(i) <= j < |q| && !IsWhitespace(q[j])
    ensures Inside(Spans(q, i, start), j)
    decreases |q| - i
  {
    if i == |q| {
      assert Spans(q, i, start)[0].0 <= j < Spans(q, i, start)[0].1;
    } else if !IsWhitespace(q[i]) {
      SpansInside(q, NextPosition(q, i), Some(start.GetOr(i)), j);
    } else {
      if j > i { SpansInside(q, i + 1, None, j); }
      if start.Some? {
        InsideCons((start.value, i), Spans(q, i + 1, None), j);
      } else {
        assert Spans(q, i, start) == Spans(q, i + 1, None);
      }
    }
  }

  /** Tokens are disjoint slices in order, and together they cover every character that
      is not white space. Each begins with such a character. */
  lemma SpansCover(q: string, i: nat, start: Option<nat>)
    requires i <= |q|
    requires start.Some? ==> start.value < i && !IsWhitespace(q[start.value])
    ensures Covers(q, Spans(q, i, start), start.GetOr(i))
  {
    SpansInOrder(q, i, start);
    SpansBegin(q, i, start);
    forall j | start.GetOr(i) <= j < |q| && !IsWhitespace(q[j])
      ensures Inside(Spans(q, i, start), j)
    {
      SpansInside(q, i, start, j);
    }
  }

  /** Every range lies inside the string. */
  lemma {:induction false} SpansFit(q: string, i: nat, start: Option<nat>)
    requires i <= |q| && (start.Some? ==> start.value < i)
    ensures forall s <- Spans(q, i, start) :: s.0 < s.1 <= |q|
    decreases |q| - i
  {
    if i < |q| {
      if IsWhitespace(q[i]) {
        SpansFit(q, i + 1, None);
      } else {
        SpansFit(q, NextPosition(q, i), Some(start.GetOr(i)));
      }
    }
  }

  function Tokens(q: string): seq<string> {
    SpansFit(q, 0, None);
    Slices(q, Spans(q, 0, None))
  }

  method Tokenize(query: string) returns (tokens: seq<string>)
    ensures tokens == Tokens(query)
  {
    SpansFit(query, 0, None);
    tokens := [];
    ghost var spans: seq<(nat, nat)> := [];
    var i := 0;
    var tokenStart: Option<nat> := None;
    while i < |query|
      invariant i <= |query| && (tokenStart.Some? ==> tokenStart.value < i)
      invariant (forall s <- spans :: s.0 <= s.1 <= |query|) && tokens == Slices(query, spans)
      invariant spans + Spans(query, i, tokenStart) == Spans(query, 0, None)
      decreases |query| - i
    {
      if IsWhitespace(query[i]) {
        if tokenStart.Some? {
          SlicesSnoc(query, spans, (tokenStart.value, i), Spans(query, i + 1, None));
          tokens := tokens + [query[tokenStart.value..i]];
          spans := spans + [(tokenStart.value, i)];
          tokenStart := None;
        }
        i := i + 1;
      } else {
        if tokenStart.None? { tokenStart := Some(i); }
        i := SkipCharacter(query, i);
      }
    }
    if tokenStart.Some? {
      SlicesSnoc(query, spans, (tokenStart.value, |query|), []);
      assert query[tokenStart.value..] == query[tokenStart.value..|query|];
      tokens := tokens + [query[tokenStart.value..]];
      spans := spans + [(tokenStart.value, |query|)];
    }
    assert spans == Spans(query, 0, None);
  }

  lemma SlicesSnoc(q: string, spans: seq<(nat, nat)>, s: (nat, nat), rest: seq<(nat, nat)>)
    requires (forall r <- spans :: r.0 <= r.1 <= |q|) && s.0 <= s.1 <= |q|
    ensures forall r <- spans + [s] :: r.0 <= r.1 <= |q|
    ensures Slices(q, spans + [s]) == Slices(q, spans) + [q[s.0..s.1]]
    ensures spans + ([s] + rest) == (spans + [s]) + rest
  {
  }

  /** Steps over one character and, after a colon, over a quoted stretch. */
  method SkipCharacter(query: string, position: nat) returns (i: nat)
    requires position < |query|
    ensures i == NextPosition(query, position)
  {
    i := position + 1;
    if query[position] == ':' && i < |query| && IsQuote(query[i]) {
      var quote := query[i];
      i := i + 1;
      while i < |query|
        invariant position + 2 <= i <= |query|
        invariant AfterQuote(query, position + 2, quote) == AfterQuote(query, i, quote)
      {
        i := i + 1;
        if query[i - 1] == quote { break; }
      }
    }
  }

  // ----------------------------------------------------------------------
  // Parser
  // ----------------------------------------------------------------------

  function Unquoted(raw: string): string {
    if |raw| >= 2 && IsQuote(raw[0]) && raw[|raw| - 1] == raw[0] then raw[1..|raw| - 1] else raw
  }

  /** A comma-separated list, every member read by the same parser. */
  function ParseList<T>(named: string -> Option<T>, items: seq<string>): Option<seq<T>> {
    if items == [] then Some([])
    else
      match (named(Trim(items[0])), ParseList(named, items[1..]))
      case (Some(t), Some(ts)) => Some([t] + ts)
      case _ => None
  }

  function TrimAll(items: seq<string>): seq<string> {
    seq(|items|, i requires 0 <= i < |items| => Trim(items[i]))
  }

  /** What an unsigned integer parser accepts: digits, possibly after a plus sign. The
      parts of a date are too short to overflow. */
  predicate IsUnsigned(s: string) {
    var digits := if s != "" && s[0] == '+' then s[1..] else s;
    digits != "" && forall c <- digits :: '0' <= c <= '9'
  }

  predicate IsDate(s: string) {
    var parts := Split(s, '-');
    && |s| == 10 && |parts| == 3 && |parts[0]| == 4 && |parts[1]| == 2 && |parts[2]| == 2
    && IsUnsigned(parts[0]) && IsUnsigned(parts[1]) && IsUnsigned(parts[2])
  }

  function RejectNegation(key: string, value: string, negated: bool, p: Predicate): Result<Predicate, FilterError> {
    if negated then Err(InvalidValue(key, value, NegationUnsupported)) else Ok(p)
  }

  function ParseValue(key: string, value: string, negated: bool): Result<Predicate, FilterError> {
    if key == "type" then
      (match ParseList(TypeNamed, Split(value, ','))
       case None => Err(InvalidValue("type", value, BadMember))
       case Some(types) => RejectNegation("type", value, negated, OfType(types)))
    else if key == "tag" then RejectNegation("tag", value, negated, Tagged(TrimAll(Split(value, ','))))
    else if key == "status" then
      (match ParseList(StatusNamed, Split(value, ','))
       case None => Err(InvalidValue("status", value, BadMember))
       case Some(statuses) => Ok(if negated then NotInStatus(statuses) else InStatus(statuses)))
    else if key == "source" then RejectNegation("source", value, negated, FromSource(value))
    else if key == "since" then ParseDate("since", value, negated, CreatedSince(value))
    else if key == "before" then ParseDate("before", value, negated, CreatedBefore(value))
    else if key == "text" then RejectNegation("text", value, negated, Matching(value))
    else Err(UnknownKey(key))
  }

  function ParseDate(key: string, value: string, negated: bool, p: Predicate): Result<Predicate, FilterError> {
    var _ :- RejectNegation(key, value, negated, p);
    if IsDate(value) then Ok(p) else Err(InvalidValue("date", value, BadDate))
  }

  function ParseToken(token: string): Result<Predicate, FilterError> {
    var negated := token != "" && token[0] == '-';
    ParseBody(if negated then token[1..] else token, negated)
  }

  /** A token without its sign. */
  function ParseBody(body: string, negated: bool): Result<Predicate, FilterError> {
    match Find(body, ':')
    case None => Err(MissingSeparator(body))
    case Some(colon) =>
      var key, value := body[..colon], Unquoted(body[colon + 1..]);
      if value == "" then Err(InvalidValue(key, value, EmptyValue)) else ParseValue(key, value, negated)
  }

  /** Parsing token by token, stopping at the first error. */
  function ParseEach(parse: string -> Result<Predicate, FilterError>, tokens: seq<string>): Result<seq<Predicate>, FilterError> {
    if tokens == [] then Ok([])
    else
      var p :- parse(tokens[0]);
      var ps :- ParseEach(parse, tokens[1..]);
      Ok([p] + ps)
  }

  function ParseTokens(tokens: seq<string>): Result<seq<Predicate>, FilterError> {
    ParseEach(ParseToken, tokens)
  }

  /** A filter is its list of predicates. */
  function Parsed(query: string): Result<seq<Predicate>, FilterError> {
    var q := Trim(query);
    if q == "" then Err(EmptyFilter)
    else
      var ps :- ParseTokens(Tokens(q));
      if ps == [] then Err(EmptyFilter) else Ok(ps)
  }

  method Parse(query: string) returns (r: Result<seq<Predicate>, FilterError>)
    ensures r == Parsed(query)
  {
    var q := Trim(query);
    if q == "" { return Err(EmptyFilter); }
    var tokens := Tokenize(q);
    var predicates := ParseAll(tokens);
    if predicates.Err? { return predicates; }
    if predicates.value == [] { return Err(EmptyFilter); }
    r := predicates;
  }

  method ParseAll(tokens: seq<string>) returns (r: Result<seq<Predicate>, FilterError>)
    ensures r == ParseTokens(tokens)
  {
    var predicates := [];
    assert tokens[0..] == tokens;
    PrependNothing(ParseTokens(tokens));
    for i := 0 to |tokens|
      invariant ParseTokens(tokens) == Prepend(predicates, ParseTokens(tokens[i..]))
    {
      var p := ParseToken(tokens[i]);
      ParseEachStep(ParseToken, tokens, i);
      if p.Err? { return Err(p.error); }
      PrependStep(predicates, p.value, ParseTokens(tokens[i + 1..]));
      predicates := predicates + [p.value];
    }
    PrependEmpty(predicates);
    assert tokens[|tokens|..] == [];
    r := Ok(predicates);
  }

  lemma ParseEachStep(parse: string -> Result<Predicate, FilterError>, tokens: seq<string>, i: nat)
    requires i < |tokens|
    ensures parse(tokens[i]).Err? ==> ParseEach(parse, tokens[i..]) == Err(parse(tokens[i]).error)
    ensures parse(tokens[i]).Ok? ==>
              ParseEach(parse, tokens[i..]) == Prepend([parse(tokens[i]).value], ParseEach(parse, tokens[i + 1..]))
  {
    assert tokens[i..][1..] == tokens[i + 1..];
  }

  lemma PrependEmpty(done: seq<Predicate>)
    ensures Prepend(done, Ok([])) == Ok(done)
  {
    assert done + [] == done;
  }

  ghost function Prepend(done: seq<Predicate>, rest: Result<seq<Predicate>, FilterError>): Result<seq<Predicate>, FilterError> {
    if rest.Err? then rest else Ok(done + rest.value)
  }

  lemma PrependNothing(rest: Result<seq<Predicate>, FilterError>)
    ensures Prepend([], rest) == rest
  {
    if rest.Ok? { assert [] + rest.value == rest.value; }
  }

  lemma PrependStep(done: seq<Predicate>, p: Predicate, rest: Result<seq<Predicate>, FilterError>)
    ensures Prepend(done, Prepend([p], rest)) == Prepend(done + [p], rest)
  {
    if rest.Ok? { assert done + ([p] + rest.value) == done + [p] + rest.value; }
  }

  // ----------------------------------------------------------------------
  // Printer
  // ----------------------------------------------------------------------

  function Names<T>(name: T -> string, members: seq<T>): seq<string> {
    seq(|members|, i requires 0 <= i < |members| => name(members[i]))
  }

  function Shown(p: Predicate): string {
    match p
    case OfType(types) => "type:" + Join(Names(TypeName, types), ',')
    case Tagged(tags) => "tag:" + Join(tags, ',')
    case InStatus(statuses) => "status:" + Join(Names(StatusName, statuses), ',')
    case NotInStatus(statuses) => "-status:" + Join(Names(StatusName, statuses), ',')
    case FromSource(source) => "source:" + source
    case CreatedSince(date) => "since:" + date
    case CreatedBefore(date) => "before:" + date
    case Matching(text) => "text:" + text
  }

  function ShownAll(ps: seq<Predicate>): seq<string> {
    seq(|ps|, i requires 0 <= i < |ps| => Shown(ps[i]))
  }

  function Displayed(ps: seq<Predicate>): string { Join(ShownAll(ps), ' ') }

  method Display(predicates: seq<Predicate>) returns (s: string)
    ensures s == Displayed(predicates)
  {
    s := "";
    var first := true;
    for i := 0 to |predicates|
      invariant first <==> i == 0
      invariant s == Join(ShownAll(predicates)[..i], ' ')
    {
      if !first { s := s + " "; }
      first := false;
      s := s + Shown(predicates[i]);
      JoinSnoc(ShownAll(predicates)[..i], Shown(predicates[i]), ' ');
      assert ShownAll(predicates)[..i + 1] == ShownAll(predicates)[..i] + [Shown(predicates[i])];
    }
    assert ShownAll(predicates)[..|predicates|] == ShownAll(predicates);
  }

  lemma Associate(a: string, b: string, c: string, d: string)
    ensures a + (b + c + d) == a + b + c + d
  {
  }

  lemma {:induction false} JoinSnoc(pieces: seq<string>, last: string, sep: char)
    ensures Join(pieces + [last], sep) == if pieces == [] then last else Join(pieces, sep) + [sep] + last
  {
    if |pieces| > 1 {
      assert (pieces + [last])[1..] == pieces[1..] + [last];
      JoinSnoc(pieces[1..], last, sep);
      Associate(pieces[0] + [sep], Join(pieces[1..], sep), [sep], last);
    } else if |pieces| == 1 {
      assert (pieces + [last])[1..] == [last];
    }
  }
}
