/** Which queries the parser accepts, said without the parser's own tests, and which error
    it reports for every other one. */
module SmartFilterAccepts {
  import opened Wrappers
  import opened Text
  import opened SmartFilter
  import opened SmartFilterProofs
  import opened SmartFilterReprint

  // ----------------------------------------------------------------------
  // Dates
  // ----------------------------------------------------------------------

  ghost predicate IsDigit(c: char) { '0' <= c <= '9' }

  /** Ten characters: four, two and two between hyphens, each part digits after a plus sign
      that may stand in front. */
  ghost predicate DateShape(v: string) {
    && |v| == 10 && v[4] == '-' && v[7] == '-'
    && (IsDigit(v[0]) || v[0] == '+') && IsDigit(v[1]) && IsDigit(v[2]) && IsDigit(v[3])
    && (IsDigit(v[5]) || v[5] == '+') && IsDigit(v[6])
    && (IsDigit(v[8]) || v[8] == '+') && IsDigit(v[9])
  }

  lemma FourUnsigned(s: string)
    requires |s| == 4
    ensures IsUnsigned(s) <==> (IsDigit(s[0]) || s[0] == '+') && IsDigit(s[1]) && IsDigit(s[2]) && IsDigit(s[3])
  {
    if s[0] == '+' {
      assert s[1..][0] == s[1] && s[1..][1] == s[2] && s[1..][2] == s[3];
    }
  }

  lemma TwoUnsigned(s: string)
    requires |s| == 2
    ensures IsUnsigned(s) <==> (IsDigit(s[0]) || s[0] == '+') && IsDigit(s[1])
  {
    if s[0] == '+' {
      assert s[1..][0] == s[1];
    }
  }

  /** Ten characters fall into parts of four, two and two exactly at two hyphens. */
  lemma ThreeParts(v: string, a: string, b: string, c: string)
    requires |v| == 10 && |a| == 4 && |b| == 2 && |c| == 2 && '-' !in a && '-' !in b && '-' !in c
    ensures Split(v, '-') == [a, b, c] <==> v[..4] == a && v[4] == '-' && v[5..7] == b && v[7] == '-' && v[8..] == c
  {
    var parts := [a, b, c];
    assert parts[1..] == [b, c] && parts[1..][1..] == [c];
    assert Join(parts[1..], '-') == b + ['-'] + c;
    assert Join(parts, '-') == a + ['-'] + (b + ['-'] + c);
    SplitJoin(parts, '-');
    JoinSplit(v, '-');
    if v[..4] == a && v[4] == '-' && v[5..7] == b && v[7] == '-' && v[8..] == c {
      assert v == a + ['-'] + (b + ['-'] + c);
    }
  }

  /** The date test, by positions. */
  lemma DateExactly(v: string)
    ensures IsDate(v) <==> DateShape(v)
  {
    if IsDate(v) {
      var parts := Split(v, '-');
      SplitChars(v, '-');
      assert parts == [parts[0], parts[1], parts[2]];
      assert parts[0] in parts && parts[1] in parts && parts[2] in parts;
      ThreeParts(v, parts[0], parts[1], parts[2]);
      PartsTell(v, parts[0], parts[1], parts[2]);
    }
    if DateShape(v) {
      ThreeParts(v, v[..4], v[5..7], v[8..]);
      PartsTell(v, v[..4], v[5..7], v[8..]);
    }
  }

  lemma PartsTell(v: string, a: string, b: string, c: string)
    requires |v| == 10 && v[..4] == a && v[4] == '-' && v[5..7] == b && v[7] == '-' && v[8..] == c
    ensures IsUnsigned(a) && IsUnsigned(b) && IsUnsigned(c) <==> DateShape(v)
  {
    FourUnsigned(a);
    TwoUnsigned(b);
    TwoUnsigned(c);
    assert a[0] == v[0] && a[1] == v[1] && a[2] == v[2] && a[3] == v[3];
    assert b[0] == v[5] && b[1] == v[6] && c[0] == v[8] && c[1] == v[9];
  }

  // ----------------------------------------------------------------------
  // Lists of names
  // ----------------------------------------------------------------------

  /** The value is a list of these pieces, put together with commas. */
  ghost predicate Listed(value: string, pieces: seq<string>) {
    pieces != [] && (forall p <- pieces :: ',' !in p) && value == Join(pieces, ',')
  }

  lemma ListedIsSplit(value: string, pieces: seq<string>)
    ensures Listed(value, pieces) <==> pieces == Split(value, ',')
  {
    JoinSplit(value, ',');
    SplitChars(value, ',');
    if Listed(value, pieces) { SplitJoin(pieces, ','); }
  }

  /** Every piece, trimmed, is the name of the thing at its place. */
  ghost predicate NamesAt<T>(name: T -> string, pieces: seq<string>, ts: seq<T>) {
    |ts| == |pieces| && forall k :: 0 <= k < |pieces| ==> Trim(pieces[k]) == name(ts[k])
  }

  ghost predicate Inverse<T(!new)>(named: string -> Option<T>, name: T -> string) {
    forall s: string, t: T :: named(s) == Some(t) <==> s == name(t)
  }

  lemma {:induction false} ListReads<T(!new)>(named: string -> Option<T>, name: T -> string, pieces: seq<string>, ts: seq<T>)
    requires Inverse(named, name)
    ensures ParseList(named, pieces) == Some(ts) <==> NamesAt(name, pieces, ts)
  {
    if pieces != [] {
      if ts != [] {
        ListReads(named, name, pieces[1..], ts[1..]);
        ListHead(named, name, pieces, ts);
      }
    }
  }

  lemma ListHead<T(!new)>(named: string -> Option<T>, name: T -> string, pieces: seq<string>, ts: seq<T>)
    requires Inverse(named, name) && pieces != [] && ts != []
    ensures NamesAt(name, pieces, ts) <==> Trim(pieces[0]) == name(ts[0]) && NamesAt(name, pieces[1..], ts[1..])
    ensures ParseList(named, pieces) == Some(ts) <==>
            Trim(pieces[0]) == name(ts[0]) && ParseList(named, pieces[1..]) == Some(ts[1..])
  {
    assert ts == [ts[0]] + ts[1..];
    if NamesAt(name, pieces[1..], ts[1..]) {
      assert forall k :: 0 < k < |pieces| ==> pieces[k] == pieces[1..][k - 1] && ts[k] == ts[1..][k - 1];
    }
    assert named(Trim(pieces[0])) == Some(ts[0]) <==> Trim(pieces[0]) == name(ts[0]);
  }

  lemma TypesInverse()
    ensures Inverse(TypeNamed, TypeWord)
  {
    forall s: string, t
      ensures TypeNamed(s) == Some(t) <==> s == TypeWord(t)
    {
      TypeNamedAgain(t);
    }
  }

  lemma StatusesInverse()
    ensures Inverse(StatusNamed, StatusWord)
  {
    forall s: string, t
      ensures StatusNamed(s) == Some(t) <==> s == StatusWord(t)
    {
      StatusNamedAgain(t);
    }
  }

  // ----------------------------------------------------------------------
  // Values
  // ----------------------------------------------------------------------

  /** How users write the types of content. */
  ghost function TypeWord(t: ContentType): string {
    if t.FeedItem? then "feed_item"
    else if t.Article? then "article"
    else if t.Bookmark? then "bookmark"
    else if t.Highlight? then "highlight"
    else if t.Pdf? then "pdf"
    else "podcast_episode"
  }

  /** And the statuses. */
  ghost function StatusWord(s: Status): string {
    if s.Inbox? then "inbox"
    else if s.Later? then "later"
    else if s.Reference? then "reference"
    else if s.Reading? then "reading"
    else if s.Archived? then "archived"
    else "discarded"
  }

  /** What a value means under its key: the filter's grammar, without a parser. */
  ghost predicate Means(key: string, value: string, negated: bool, p: Predicate) {
    match p
    case OfType(types) => key == "type" && !negated && exists pieces :: Listed(value, pieces) && NamesAt(TypeWord, pieces, types)
    case Tagged(tags) => key == "tag" && !negated && exists pieces :: Listed(value, pieces) && NamesAt((t: string) => t, pieces, tags)
    case InStatus(statuses) =>
      key == "status" && !negated && exists pieces :: Listed(value, pieces) && NamesAt(StatusWord, pieces, statuses)
    case NotInStatus(statuses) =>
      key == "status" && negated && exists pieces :: Listed(value, pieces) && NamesAt(StatusWord, pieces, statuses)
    case FromSource(source) => key == "source" && !negated && source == value
    case CreatedSince(date) => key == "since" && !negated && date == value && DateShape(value)
    case CreatedBefore(date) => key == "before" && !negated && date == value && DateShape(value)
    case Matching(text) => key == "text" && !negated && text == value
  }

  lemma TypesMean(value: string, types: seq<ContentType>)
    ensures ParseList(TypeNamed, Split(value, ',')) == Some(types) <==>
            exists pieces :: Listed(value, pieces) && NamesAt(TypeWord, pieces, types)
  {
    TypesInverse();
    ListedIsSplit(value, Split(value, ','));
    ListReads(TypeNamed, TypeWord, Split(value, ','), types);
    forall pieces | Listed(value, pieces)
      ensures pieces == Split(value, ',')
    {
      ListedIsSplit(value, pieces);
    }
  }

  lemma StatusesMean(value: string, statuses: seq<Status>)
    ensures ParseList(StatusNamed, Split(value, ',')) == Some(statuses) <==>
            exists pieces :: Listed(value, pieces) && NamesAt(StatusWord, pieces, statuses)
  {
    StatusesInverse();
    ListedIsSplit(value, Split(value, ','));
    ListReads(StatusNamed, StatusWord, Split(value, ','), statuses);
    forall pieces | Listed(value, pieces)
      ensures pieces == Split(value, ',')
    {
      ListedIsSplit(value, pieces);
    }
  }

  lemma TagsMean(value: string, tags: seq<string>)
    ensures TrimAll(Split(value, ',')) == tags <==>
            exists pieces :: Listed(value, pieces) && NamesAt((t: string) => t, pieces, tags)
  {
    ListedIsSplit(value, Split(value, ','));
    assert TrimAll(Split(value, ',')) == tags <==> NamesAt((t: string) => t, Split(value, ','), tags);
    forall pieces | Listed(value, pieces)
      ensures pieces == Split(value, ',')
    {
      ListedIsSplit(value, pieces);
    }
  }

  /** A value is read as a predicate exactly when it means that predicate. */
  lemma ValueExactly(key: string, value: string, negated: bool, p: Predicate)
    ensures ParseValue(key, value, negated) == Ok(p) <==> Means(key, value, negated, p)
  {
    if p.OfType? {
      TypeExactly(key, value, negated, p);
    } else if p.Tagged? {
      TagExactly(key, value, negated, p);
    } else if p.InStatus? || p.NotInStatus? {
      StatusExactly(key, value, negated, p);
    } else if p.CreatedSince? || p.CreatedBefore? {
      DatedExactly(key, value, negated, p);
    } else {
      PlainExactly(key, value, negated, p);
    }
  }

  lemma TypeExactly(key: string, value: string, negated: bool, p: Predicate)
    requires p.OfType?
    ensures ParseValue(key, value, negated) == Ok(p) <==> Means(key, value, negated, p)
  {
    TypesMean(value, p.types);
  }

  lemma TagExactly(key: string, value: string, negated: bool, p: Predicate)
    requires p.Tagged?
    ensures ParseValue(key, value, negated) == Ok(p) <==> Means(key, value, negated, p)
  {
    TagsMean(value, p.tags);
  }

  lemma StatusExactly(key: string, value: string, negated: bool, p: Predicate)
    requires p.InStatus? || p.NotInStatus?
    ensures ParseValue(key, value, negated) == Ok(p) <==> Means(key, value, negated, p)
  {
    var statuses := if p.InStatus? then p.statuses else p.excluded;
    StatusesMean(value, statuses);
    StatusValue(value, negated, ParseList(StatusNamed, Split(value, ',')));
    if ParseValue(key, value, negated) == Ok(p) { ValueNotLonger(key, value, negated, p); }
  }

  lemma StatusValue(value: string, negated: bool, list: Option<seq<Status>>)
    requires list == ParseList(StatusNamed, Split(value, ','))
    ensures ParseValue("status", value, negated) ==
            if list.None? then Err(InvalidValue("status", value, BadMember))
            else Ok(if negated then NotInStatus(list.value) else InStatus(list.value))
  {
  }

  lemma PlainExactly(key: string, value: string, negated: bool, p: Predicate)
    requires p.FromSource? || p.Matching?
    ensures ParseValue(key, value, negated) == Ok(p) <==> Means(key, value, negated, p)
  {
    if ParseValue(key, value, negated) == Ok(p) { ValueNotLonger(key, value, negated, p); }
  }

  lemma DatedExactly(key: string, value: string, negated: bool, p: Predicate)
    requires p.CreatedSince? || p.CreatedBefore?
    ensures ParseValue(key, value, negated) == Ok(p) <==> Means(key, value, negated, p)
  {
    DateExactly(value);
    DateValue(value, negated);
    if ParseValue(key, value, negated) == Ok(p) { ValueNotLonger(key, value, negated, p); }
  }

  lemma DateValue(value: string, negated: bool)
    ensures ParseValue("since", value, negated) ==
            if negated then Err(InvalidValue("since", value, NegationUnsupported))
            else if IsDate(value) then Ok(CreatedSince(value)) else Err(InvalidValue("date", value, BadDate))
    ensures ParseValue("before", value, negated) ==
            if negated then Err(InvalidValue("before", value, NegationUnsupported))
            else if IsDate(value) then Ok(CreatedBefore(value)) else Err(InvalidValue("date", value, BadDate))
  {
  }

  ghost predicate KnownKey(key: string) {
    key in {"type", "tag", "status", "source", "since", "before", "text"}
  }

  /** A list whose every piece is a name. */
  ghost predicate AllNames<T(!new)>(name: T -> string, value: string) {
    exists pieces, ts :: Listed(value, pieces) && NamesAt(name, pieces, ts)
  }

  /** What is reported for a value that means nothing. */
  lemma ValueErrors(key: string, value: string, negated: bool)
    requires ParseValue(key, value, negated).Err?
    ensures ParseValue(key, value, negated).error ==
            if !KnownKey(key) then UnknownKey(key)
            else if key == "type" && !AllNames(TypeWord, value) then InvalidValue("type", value, BadMember)
            else if key == "status" then InvalidValue("status", value, BadMember)
            else if negated then InvalidValue(key, value, NegationUnsupported)
            else InvalidValue("date", value, BadDate)
  {
    if key == "type" {
      TypeListErrors(value);
    }
  }

  lemma TypeListErrors(value: string)
    ensures ParseList(TypeNamed, Split(value, ',')).Some? <==> AllNames(TypeWord, value)
  {
    var read := ParseList(TypeNamed, Split(value, ','));
    if read.Some? { TypesMean(value, read.value); }
    forall pieces, types | Listed(value, pieces) && NamesAt(TypeWord, pieces, types)
      ensures read == Some(types)
    {
      TypesMean(value, types);
    }
  }

  // ----------------------------------------------------------------------
  // Tokens
  // ----------------------------------------------------------------------

  /** A token is a sign, a key and, behind its first colon, a value; a value wrapped in a
      pair of like quotes stands for what is between them. */
  ghost predicate Composed(token: string, negated: bool, key: string, value: string) {
    && ':' !in key && (!negated ==> key == "" || key[0] != '-')
    && exists raw :: token == TokenOf(negated, key, raw) && StandsFor(raw, value)
  }

  ghost predicate StandsFor(raw: string, value: string) {
    if |raw| >= 2 && raw[0] in {'"', '\''} && raw[|raw| - 1] == raw[0] then raw == [raw[0]] + value + [raw[0]]
    else raw == value
  }

  lemma ComposedReads(token: string, negated: bool, key: string, value: string)
    requires Composed(token, negated, key, value)
    ensures ParseToken(token) == if value == "" then Err(InvalidValue(key, "", EmptyValue)) else ParseValue(key, value, negated)
  {
    var raw :| token == TokenOf(negated, key, raw) && StandsFor(raw, value);
    KeyedToken(negated, key, raw);
    StandsForOne(raw, value);
  }

  lemma StandsForOne(raw: string, value: string)
    ensures StandsFor(raw, value) <==> Unquoted(raw) == value
  {
    if |raw| >= 2 && raw[|raw| - 1] == raw[0] {
      assert raw == [raw[0]] + raw[1..|raw| - 1] + [raw[0]];
      assert ([raw[0]] + value + [raw[0]])[1..|value| + 1] == value;
    }
  }

  lemma Composes(token: string) returns (negated: bool, key: string, value: string)
    requires ':' in token
    ensures Composed(token, negated, key, value)
  {
    negated := token[0] == '-';
    var body := if negated then token[1..] else token;
    assert token == (if negated then ['-'] else []) + body;
    var raw;
    key, raw := ColonSplits(body);
    value := Unquoted(raw);
    StandsForOne(raw, value);
    assert token == TokenOf(negated, key, raw);
  }

  lemma ColonSplits(body: string) returns (key: string, raw: string)
    requires ':' in body
    ensures body == key + [':'] + raw && ':' !in key
  {
    var colon := Find(body, ':').value;
    key, raw := body[..colon], body[colon + 1..];
  }

  /** A token is accepted exactly when it is composed of a sign, a key and a value, not empty,
      that together mean a predicate; and that predicate it is read as. */
  lemma TokenExactly(token: string, p: Predicate)
    ensures ParseToken(token) == Ok(p) <==>
            exists negated, key, value :: Composed(token, negated, key, value) && value != "" && Means(key, value, negated, p)
  {
    if ParseToken(token) == Ok(p) {
      TokenHasColon(token);
      var negated, key, value := Composes(token);
      ComposedReads(token, negated, key, value);
      ValueExactly(key, value, negated, p);
    }
    forall negated, key, value | Composed(token, negated, key, value) && value != "" && Means(key, value, negated, p)
      ensures ParseToken(token) == Ok(p)
    {
      ComposedReads(token, negated, key, value);
      ValueExactly(key, value, negated, p);
    }
  }

  /** Without a colon there is no token to read. */
  lemma TokenHasColon(token: string)
    ensures ':' !in token ==>
            ParseToken(token) == Err(MissingSeparator(if token != "" && token[0] == '-' then token[1..] else token))
    ensures ParseToken(token).Ok? ==> ':' in token
  {
    if ':' !in token {
      var body := if token != "" && token[0] == '-' then token[1..] else token;
      assert forall c <- body :: c in token;
    }
  }

  // ----------------------------------------------------------------------
  // Queries
  // ----------------------------------------------------------------------

  /** What a token reads as, by the grammar alone. */
  ghost predicate Reads(token: string, p: Predicate) {
    exists negated, key, value :: Composed(token, negated, key, value) && value != "" && Means(key, value, negated, p)
  }

  ghost predicate AllRead(tokens: seq<string>, filter: seq<Predicate>) {
    |filter| == |tokens| && forall k :: 0 <= k < |tokens| ==> Reads(tokens[k], filter[k])
  }

  lemma {:induction false} EachExactly(parse: string -> Result<Predicate, FilterError>, tokens: seq<string>, filter: seq<Predicate>)
    ensures ParseEach(parse, tokens) == Ok(filter) <==>
            |filter| == |tokens| && forall k :: 0 <= k < |tokens| ==> parse(tokens[k]) == Ok(filter[k])
  {
    if tokens != [] && filter != [] {
      EachExactly(parse, tokens[1..], filter[1..]);
      assert filter == [filter[0]] + filter[1..];
      assert forall k :: 0 < k < |tokens| ==> tokens[k] == tokens[1..][k - 1];
      assert forall k :: 0 < k < |filter| ==> filter[k] == filter[1..][k - 1];
    }
  }

  lemma TokensExactly(tokens: seq<string>, filter: seq<Predicate>)
    ensures ParseTokens(tokens) == Ok(filter) <==> AllRead(tokens, filter)
  {
    EachExactly(ParseToken, tokens, filter);
    if |filter| == |tokens| {
      forall k | 0 <= k < |tokens|
        ensures ParseToken(tokens[k]) == Ok(filter[k]) <==> Reads(tokens[k], filter[k])
      {
        TokenExactly(tokens[k], filter[k]);
      }
    }
  }

  /** A query is read as a filter exactly when it holds tokens and every one of them reads as
      the predicate at its place. */
  lemma QueryExactly(query: string, filter: seq<Predicate>)
    ensures Parsed(query) == Ok(filter) <==> filter != [] && AllRead(Tokens(Trim(query)), filter)
  {
    TokensExactly(Tokens(Trim(query)), filter);
    if Trim(query) == "" { assert Tokens("") == []; }
  }

  /** A list of tokens joined by spaces is read token by token. */
  lemma JoinedExactly(tokens: seq<string>, filter: seq<Predicate>)
    requires tokens != [] && Words(tokens)
    ensures Parsed(Join(tokens, ' ')) == Ok(filter) <==> AllRead(tokens, filter)
  {
    WordsReadBack(tokens);
    QueryExactly(Join(tokens, ' '), filter);
  }

  /** A query that is refused: it is empty, or the first token that reads as nothing names
      the error. */
  lemma RefusedAt(query: string, k: nat)
    requires k < |Tokens(Trim(query))| && ParseToken(Tokens(Trim(query))[k]).Err?
    requires forall i :: 0 <= i < k ==> ParseToken(Tokens(Trim(query))[i]).Ok?
    ensures Parsed(query) == Err(ParseToken(Tokens(Trim(query))[k]).error)
  {
    EachFails(ParseToken, Tokens(Trim(query)), k);
  }

  lemma {:induction false} EachFails(parse: string -> Result<Predicate, FilterError>, tokens: seq<string>, k: nat)
    requires k < |tokens| && parse(tokens[k]).Err? && forall i :: 0 <= i < k ==> parse(tokens[i]).Ok?
    ensures ParseEach(parse, tokens) == Err(parse(tokens[k]).error)
    decreases |tokens|
  {
    if k > 0 { EachFails(parse, tokens[1..], k - 1); }
  }

  /** For example: a date. */
  lemma DateToken(date: string)
    requires DateShape(date)
    ensures Parsed("since:" + date) == Ok([CreatedSince(date)]) && Parsed("before:" + date) == Ok([CreatedBefore(date)])
  {
    KeyColons();
    DateAlone("since", date, CreatedSince(date));
    DateAlone("before", date, CreatedBefore(date));
  }

  lemma DateAlone(key: string, date: string, p: Predicate)
    requires DateShape(date) && (key == "since" || key == "before")
    requires p == if key == "since" then CreatedSince(date) else CreatedBefore(date)
    ensures Parsed(key + ":" + date) == Ok([p])
  {
    var token := key + ":" + date;
    DateIsWord(key, date);
    assert Composed(token, false, key, date) by { assert token == TokenOf(false, key, date) && StandsFor(date, date); }
    assert Means(key, date, false, p);
    assert Join([token], ' ') == token;
    assert AllRead([token], [p]);
    JoinedExactly([token], [p]);
  }

  lemma DateIsWord(key: string, date: string)
    requires DateShape(date) && (key == "since" || key == "before")
    ensures Words([key + ":" + date]) && ':' !in key
  {
    var token := key + ":" + date;
    forall c | c in date
      ensures !IsWhitespace(c) && !IsQuote(c)
    {
      var i :| 0 <= i < |date| && date[i] == c;
      assert c == '-' || c == '+' || IsDigit(c);
    }
    assert forall c <- key + ":" :: !IsWhitespace(c) && !IsQuote(c);
    assert forall c <- token :: c in key + ":" || c in date;
    assert forall i :: 0 <= i < |token| ==> token[i] in token;
  }
}
