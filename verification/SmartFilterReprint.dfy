/** When a filter read from any query, with quotes or without, survives being printed. */
module SmartFilterReprint {
  import opened Wrappers
  import opened Text
  import opened SmartFilter
  import opened SmartFilterProofs

  // ----------------------------------------------------------------------
  // The parts of a printed predicate
  // ----------------------------------------------------------------------

  /** What the printer puts behind the colon. */
  ghost function ValueShown(p: Predicate): string {
    match p
    case OfType(types) => Join(Names(TypeName, types), ',')
    case Tagged(tags) => Join(tags, ',')
    case InStatus(statuses) => Join(Names(StatusName, statuses), ',')
    case NotInStatus(statuses) => Join(Names(StatusName, statuses), ',')
    case FromSource(v) => v
    case CreatedSince(v) => v
    case CreatedBefore(v) => v
    case Matching(v) => v
  }

  ghost function KeyOf(p: Predicate): string {
    match p
    case OfType(_) => "type"
    case Tagged(_) => "tag"
    case InStatus(_) => "status"
    case NotInStatus(_) => "status"
    case FromSource(_) => "source"
    case CreatedSince(_) => "since"
    case CreatedBefore(_) => "before"
    case Matching(_) => "text"
  }

  /** A token put together from its parts. */
  ghost function TokenOf(negated: bool, key: string, value: string): string {
    (if negated then ['-'] else []) + (key + [':'] + value)
  }

  lemma ShownParts(p: Predicate)
    ensures Shown(p) == TokenOf(p.NotInStatus?, KeyOf(p), ValueShown(p))
    ensures ':' !in KeyOf(p) && KeyOf(p) != "" && KeyOf(p)[0] != '-'
  {
    KeyColons();
  }

  /** A token made of a sign, a key and a value falls apart into them. */
  lemma KeyedToken(negated: bool, key: string, raw: string)
    requires ':' !in key && (!negated ==> key == "" || key[0] != '-')
    ensures ParseToken(TokenOf(negated, key, raw))
         == if Unquoted(raw) == "" then Err(InvalidValue(key, "", EmptyValue)) else ParseValue(key, Unquoted(raw), negated)
  {
    var body := key + [':'] + raw;
    var token := TokenOf(negated, key, raw);
    FindBehind(key, ':', raw);
    assert body[..|key|] == key && body[|key| + 1..] == raw;
    assert body[0] == (if key == "" then ':' else key[0]);
    assert token[0] == (if negated then '-' else body[0]);
    assert (if negated then token[1..] else token) == body;
  }

  lemma TokenParts(token: string, p: Predicate) returns (negated: bool, key: string, raw: string)
    requires ParseToken(token) == Ok(p)
    ensures |token| == |TokenOf(negated, key, raw)|
    ensures Unquoted(raw) != "" && ParseValue(key, Unquoted(raw), negated) == Ok(p)
  {
    negated := token != "" && token[0] == '-';
    var body := if negated then token[1..] else token;
    var colon := Find(body, ':').value;
    key, raw := body[..colon], body[colon + 1..];
  }

  // ----------------------------------------------------------------------
  // Reading a predicate's own print
  // ----------------------------------------------------------------------

  lemma TypeNamedAgain(t: ContentType)
    ensures TypeNamed(TypeName(t)) == Some(t) && ',' !in TypeName(t) && TypeName(t) != "" && Trim(TypeName(t)) == TypeName(t)
  {
    TrimNothing(TypeName(t));
  }

  lemma StatusNamedAgain(s: Status)
    ensures StatusNamed(StatusName(s)) == Some(s) && ',' !in StatusName(s) && StatusName(s) != ""
         && Trim(StatusName(s)) == StatusName(s)
  {
    TrimNothing(StatusName(s));
  }

  lemma {:induction false} NamesReadAgain<T>(named: string -> Option<T>, name: T -> string, ts: seq<T>)
    requires forall t <- ts :: named(name(t)) == Some(t) && Trim(name(t)) == name(t)
    ensures ParseList(named, Names(name, ts)) == Some(ts)
  {
    if ts != [] {
      assert ts == [ts[0]] + ts[1..];
      assert Names(name, ts)[1..] == Names(name, ts[1..]);
      NamesReadAgain(named, name, ts[1..]);
    }
  }

  lemma NamesSplitAgain<T>(name: T -> string, ts: seq<T>)
    requires ts != [] && forall t <- ts :: name(t) != "" && ',' !in name(t)
    ensures Join(Names(name, ts), ',') != "" && Split(Join(Names(name, ts), ','), ',') == Names(name, ts)
  {
    var names := Names(name, ts);
    assert names[0] == name(ts[0]);
    forall n | n in names
      ensures ',' !in n
    {
      var k :| 0 <= k < |names| && names[k] == n;
      assert n == name(ts[k]);
    }
    SplitJoin(names, ',');
  }

  lemma TypesReadAgain(types: seq<ContentType>)
    requires types != []
    ensures ValueShown(OfType(types)) != "" && ParseValue("type", ValueShown(OfType(types)), false) == Ok(OfType(types))
  {
    forall t | t in types
      ensures TypeNamed(TypeName(t)) == Some(t) && ',' !in TypeName(t) && TypeName(t) != "" && Trim(TypeName(t)) == TypeName(t)
    {
      TypeNamedAgain(t);
    }
    NamesSplitAgain(TypeName, types);
    NamesReadAgain(TypeNamed, TypeName, types);
  }

  lemma StatusesReadAgain(statuses: seq<Status>, negated: bool)
    requires statuses != []
    ensures Join(Names(StatusName, statuses), ',') != ""
    ensures ParseValue("status", Join(Names(StatusName, statuses), ','), negated)
         == Ok(if negated then NotInStatus(statuses) else InStatus(statuses))
  {
    forall s | s in statuses
      ensures StatusNamed(StatusName(s)) == Some(s) && ',' !in StatusName(s) && StatusName(s) != ""
           && Trim(StatusName(s)) == StatusName(s)
    {
      StatusNamedAgain(s);
    }
    NamesSplitAgain(StatusName, statuses);
    NamesReadAgain(StatusNamed, StatusName, statuses);
  }

  lemma TrimEndTwice(s: string)
    ensures TrimEnd(TrimEnd(s)) == TrimEnd(s)
  {
    TrimEndPrefix(s);
  }

  lemma {:induction false} TrimStartBegins(s: string)
    ensures TrimStart(s) != "" ==> !IsWhitespace(TrimStart(s)[0])
  {
    if s != "" && IsWhitespace(s[0]) { TrimStartBegins(s[1..]); }
  }

  lemma TrimTwice(s: string)
    ensures Trim(Trim(s)) == Trim(s)
  {
    var t := TrimStart(s);
    TrimStartBegins(s);
    TrimEndPrefix(t);
    if Trim(s) != "" { assert Trim(s)[0] == t[0]; }
    assert TrimStart(Trim(s)) == Trim(s);
    TrimEndTwice(t);
  }

  lemma TagsReadAgain(value: string, tags: seq<string>)
    requires tags == TrimAll(Split(value, ',')) && tags != [""]
    ensures Join(tags, ',') != "" && ParseValue("tag", Join(tags, ','), false) == Ok(Tagged(tags))
  {
    SplitChars(value, ',');
    forall k | 0 <= k < |tags|
      ensures ',' !in tags[k] && Trim(tags[k]) == tags[k]
    {
      var piece := Split(value, ',')[k];
      assert piece in Split(value, ',') && tags[k] == Trim(piece);
      TrimStartKeeps(piece);
      TrimEndKeeps(TrimStart(piece));
      TrimTwice(piece);
    }
    SplitJoin(tags, ',');
    assert TrimAll(tags) == tags;
  }

  lemma {:induction false} ListSize<T>(named: string -> Option<T>, items: seq<string>)
    requires ParseList(named, items).Some?
    ensures |ParseList(named, items).value| == |items|
  {
    if items != [] { ListSize(named, items[1..]); }
  }

  /** What a value that parsed says of the predicate: read again, its print gives it back. */
  lemma ValueReadsAgain(key: string, value: string, negated: bool, p: Predicate)
    requires value != "" && ParseValue(key, value, negated) == Ok(p) && p != Tagged([""])
    ensures ValueShown(p) != "" && ParseValue(KeyOf(p), ValueShown(p), p.NotInStatus?) == Ok(p)
  {
    if key == "type" {
      ListSize(TypeNamed, Split(value, ','));
      TypesReadAgain(p.types);
    } else if key == "status" {
      ListSize(StatusNamed, Split(value, ','));
      StatusesReadAgain(if negated then p.excluded else p.statuses, negated);
    } else if key == "tag" {
      TagsReadAgain(value, p.tags);
    } else {
      SingleValue(key, value, negated);
    }
  }

  /** A predicate that some token parsed to is what its own print parses to, exactly when the
      print's value is not wrapped in quotes and the predicate is not the empty tag. */
  lemma PredicateReadsAgain(token: string, p: Predicate)
    requires ParseToken(token) == Ok(p)
    ensures ParseToken(Shown(p)) == Ok(p) <==> Unquoted(ValueShown(p)) == ValueShown(p) && p != Tagged([""])
  {
    var negated, key, raw := TokenParts(token, p);
    ShownParts(p);
    KeyedToken(p.NotInStatus?, KeyOf(p), ValueShown(p));
    if p == Tagged([""]) {
      assert ValueShown(p) == "";
    } else {
      ValueReadsAgain(key, Unquoted(raw), negated, p);
    }
    if ParseToken(Shown(p)) == Ok(p) {
      NothingUnquoted(p);
    }
  }

  lemma NothingUnquoted(p: Predicate)
    requires ParseValue(KeyOf(p), Unquoted(ValueShown(p)), p.NotInStatus?) == Ok(p)
    ensures Unquoted(ValueShown(p)) == ValueShown(p)
  {
    ValueNotLonger(KeyOf(p), Unquoted(ValueShown(p)), p.NotInStatus?, p);
  }

  // ----------------------------------------------------------------------
  // A print is never longer than the token it came from
  // ----------------------------------------------------------------------

  lemma TrimShorter(s: string)
    ensures |Trim(s)| <= |s|
  {
    TrimStartSuffix(s);
    TrimEndPrefix(TrimStart(s));
  }

  lemma {:induction false} JoinShorter(a: seq<string>, b: seq<string>, sep: char)
    requires |a| == |b| && forall k :: 0 <= k < |a| ==> |a[k]| <= |b[k]|
    ensures |Join(a, sep)| <= |Join(b, sep)|
  {
    if |a| > 1 {
      assert forall k :: 0 <= k < |a[1..]| ==> a[1..][k] == a[k + 1] && b[1..][k] == b[k + 1];
      JoinShorter(a[1..], b[1..], sep);
    }
  }

  lemma {:induction false} NamesShorter<T>(named: string -> Option<T>, name: T -> string, items: seq<string>)
    requires forall s :: named(s).Some? ==> name(named(s).value) == s
    requires ParseList(named, items).Some?
    ensures var names := Names(name, ParseList(named, items).value);
            |names| == |items| && forall k :: 0 <= k < |items| ==> |names[k]| <= |items[k]|
  {
    if items != [] {
      TrimShorter(items[0]);
      NamesShorter(named, name, items[1..]);
      assert Names(name, ParseList(named, items).value)
          == [Trim(items[0])] + Names(name, ParseList(named, items[1..]).value);
    }
  }

  lemma ValueNotLonger(key: string, value: string, negated: bool, p: Predicate)
    requires ParseValue(key, value, negated) == Ok(p)
    ensures KeyOf(p) == key && p.NotInStatus? == (negated && key == "status") && |ValueShown(p)| <= |value|
    ensures negated ==> key == "status"
  {
    var items := Split(value, ',');
    JoinSplit(value, ',');
    if key == "type" {
      NamesShorter(TypeNamed, TypeName, items);
      JoinShorter(Names(TypeName, p.types), items, ',');
    } else if key == "status" {
      NamesShorter(StatusNamed, StatusName, items);
      JoinShorter(Names(StatusName, if negated then p.excluded else p.statuses), items, ',');
    } else {
      SingleValue(key, value, negated);
      if key == "tag" {
        forall k | 0 <= k < |items|
          ensures |p.tags[k]| <= |items[k]|
        {
          TrimShorter(items[k]);
        }
        JoinShorter(p.tags, items, ',');
      }
    }
  }

  lemma ShownNotLonger(token: string, p: Predicate)
    requires ParseToken(token) == Ok(p)
    ensures |Shown(p)| <= |token|
  {
    var negated, key, raw := TokenParts(token, p);
    ShownParts(p);
    ValueNotLonger(key, Unquoted(raw), negated, p);
  }

  // ----------------------------------------------------------------------
  // Tokens that fill the print leave no room to move
  // ----------------------------------------------------------------------

  ghost predicate Fits(shown: seq<string>, spans: seq<(nat, nat)>, from: nat) {
    && |spans| == |shown|
    && (forall k :: 0 <= k < |spans| ==> from <= spans[k].0 && spans[k].0 + |shown[k]| <= spans[k].1)
    && (forall k :: 0 < k < |spans| ==> spans[k - 1].1 < spans[k].0)
  }

  lemma FitsRest(shown: seq<string>, spans: seq<(nat, nat)>, from: nat)
    requires |spans| > 1 && Fits(shown, spans, from)
    ensures Fits(shown[1..], spans[1..], spans[0].1 + 1)
  {
    var s, r := shown[1..], spans[1..];
    assert forall k :: 0 <= k < |r| ==> r[k] == spans[k + 1] && s[k] == shown[k + 1];
    StartsGrow(shown, spans, from);
  }

  lemma StartsGrow(shown: seq<string>, spans: seq<(nat, nat)>, from: nat)
    requires |spans| > 1 && Fits(shown, spans, from)
    ensures forall k :: 0 < k < |spans| ==> spans[0].1 < spans[k].0
  {
    for k := 1 to |spans|
      invariant forall i :: 0 < i < k ==> spans[0].1 < spans[i].0
    {
      assert spans[k - 1].1 < spans[k].0 && spans[k - 1].0 <= spans[k - 1].1;
    }
  }

  /** From its first token to its last, a fitting row takes at least the room of the print. */
  lemma {:induction false} RoomNeeded(shown: seq<string>, spans: seq<(nat, nat)>, from: nat)
    requires shown != [] && Fits(shown, spans, from)
    ensures spans[0].0 + |Join(shown, ' ')| <= spans[|spans| - 1].1
    decreases |shown|
  {
    if |shown| > 1 {
      FitsRest(shown, spans, from);
      RoomNeeded(shown[1..], spans[1..], spans[0].1 + 1);
    }
  }

  ghost predicate Cuts(q: string, spans: seq<(nat, nat)>, shown: seq<string>) {
    |spans| == |shown| && forall k :: 0 <= k < |spans| ==> spans[k].0 <= spans[k].1 <= |q| && q[spans[k].0..spans[k].1] == shown[k]
  }

  /** So when there is no more room than that, every token is the print it stands for. */
  lemma {:induction false} NoRoom(q: string, before: string, shown: seq<string>, spans: seq<(nat, nat)>)
    requires shown != [] && q == before + Join(shown, ' ') && Fits(shown, spans, |before|)
    requires spans[|spans| - 1].1 <= |q|
    ensures Cuts(q, spans, shown) && spans[|spans| - 1].1 == |q|
    decreases |shown|
  {
    if |shown| == 1 {
      RoomNeeded(shown, spans, |before|);
      assert q[spans[0].0..spans[0].1] == shown[0];
    } else {
      var before', after := before + shown[0] + [' '], Join(shown[1..], ' ');
      FirstFits(q, before, shown, spans);
      WordInFront(before, shown[0], after);
      assert q == before' + after;
      NoRoom(q, before', shown[1..], spans[1..]);
      CutsCons(q, spans, shown);
    }
  }

  lemma CutsCons(q: string, spans: seq<(nat, nat)>, shown: seq<string>)
    requires spans != [] && shown != [] && Cuts(q, spans[1..], shown[1..])
    requires spans[0].0 <= spans[0].1 <= |q| && q[spans[0].0..spans[0].1] == shown[0]
    ensures Cuts(q, spans, shown)
  {
    assert forall k :: 0 < k < |spans| ==> spans[k] == spans[1..][k - 1] && shown[k] == shown[1..][k - 1];
  }

  lemma FirstFits(q: string, before: string, shown: seq<string>, spans: seq<(nat, nat)>)
    requires |shown| > 1 && q == before + Join(shown, ' ') && Fits(shown, spans, |before|)
    requires spans[|spans| - 1].1 <= |q|
    ensures spans[0] == (|before|, |before| + |shown[0]|) && q == before + (shown[0] + [' '] + Join(shown[1..], ' '))
    ensures Fits(shown[1..], spans[1..], |before| + |shown[0]| + 1)
  {
    RoomNeeded(shown, spans, |before|);
    FitsRest(shown, spans, |before|);
    RoomNeeded(shown[1..], spans[1..], spans[0].1 + 1);
    assert spans[1..][0] == spans[1];
  }

  // ----------------------------------------------------------------------
  // What scanning says of a token
  // ----------------------------------------------------------------------

  /** The tokenizer walks from `i` to `end` without meeting white space. */
  ghost predicate WalksTo(q: string, i: nat, end: nat)
    requires i <= end <= |q|
    decreases |q| - i
  {
    i == end || (!IsWhitespace(q[i]) && NextPosition(q, i) <= end && WalksTo(q, NextPosition(q, i), end))
  }

  ghost predicate IsScanned(q: string, s: (nat, nat)) {
    s.0 < s.1 <= |q| && WalksTo(q, s.0, s.1) && (s.1 < |q| ==> IsWhitespace(q[s.1]))
  }

  ghost predicate AllScanned(q: string, spans: seq<(nat, nat)>) {
    forall s <- spans :: IsScanned(q, s)
  }

  /** Every range of the tokenizer was walked through from its start to white space or the
      end; the first one from `i` on, when a token is open there. */
  lemma {:induction false} SpansScanned(q: string, i: nat, start: Option<nat>)
    requires i <= |q| && (start.Some? ==> start.value < i)
    ensures start.None? ==> AllScanned(q, Spans(q, i, start))
    ensures start.Some? ==>
              var spans := Spans(q, i, start);
              && spans != [] && spans[0].0 == start.value && i <= spans[0].1 <= |q| && WalksTo(q, i, spans[0].1)
              && (spans[0].1 < |q| ==> IsWhitespace(q[spans[0].1]))
              && AllScanned(q, spans[1..])
    decreases |q| - i
  {
    var spans := Spans(q, i, start);
    if i < |q| {
      if IsWhitespace(q[i]) {
        SpansScanned(q, i + 1, None);
        var rest := Spans(q, i + 1, None);
        if start.Some? {
          assert spans == [(start.value, i)] + rest && spans[1..] == rest;
        } else {
          assert spans == rest;
        }
      } else {
        SpansScanned(q, NextPosition(q, i), Some(start.GetOr(i)));
        assert spans == [spans[0]] + spans[1..];
      }
    }
  }

  lemma {:induction false} ScannedWalks(q: string, a: nat, end: nat, j: nat)
    requires a + j <= end <= |q| && WalksTo(q, a + j, end)
    ensures Walks(q[a..end], j) && (end < |q| ==> Closes(q[a..end], j))
    decreases end - j
  {
    if a + j < end {
      var t := q[a..end];
      assert t[j] == q[a + j];
      NextInside(q, a, end, j);
      ScannedWalks(q, a, end, NextPosition(q, a + j) - a);
      if end < |q| { StretchCloses(q, a, end, j); }
    }
  }

  lemma StretchCloses(q: string, a: nat, end: nat, j: nat)
    requires a + j < end < |q| && NextPosition(q, a + j) <= end
    ensures var t := q[a..end]; t[j] == ':' && j + 1 < |t| && IsQuote(t[j + 1]) ==> t[j + 1] in t[j + 2..]
  {
    var t := q[a..end];
    if t[j] == ':' && j + 1 < |t| && IsQuote(t[j + 1]) {
      assert q[a + j] == ':' && q[a + j + 1] == t[j + 1];
      AfterQuoteFound(q, a + j + 2, t[j + 1]);
      var r := AfterQuote(q, a + j + 2, t[j + 1]);
      assert t[j + 2..][r - 1 - a - j - 2] == t[j + 1];
    }
  }

  // ----------------------------------------------------------------------
  // Whole filters
  // ----------------------------------------------------------------------

  lemma {:induction false} EachAt(parse: string -> Result<Predicate, FilterError>, tokens: seq<string>, k: nat)
    requires ParseEach(parse, tokens).Ok? && k < |tokens|
    ensures k < |ParseEach(parse, tokens).value| && parse(tokens[k]) == Ok(ParseEach(parse, tokens).value[k])
    decreases |tokens|
  {
    if k > 0 { EachAt(parse, tokens[1..], k - 1); }
  }

  lemma {:induction false} EachSize(parse: string -> Result<Predicate, FilterError>, tokens: seq<string>)
    requires ParseEach(parse, tokens).Ok?
    ensures |ParseEach(parse, tokens).value| == |tokens|
  {
    if tokens != [] { EachSize(parse, tokens[1..]); }
  }

  lemma {:induction false} EachReadsAgain(parse: string -> Result<Predicate, FilterError>, filter: seq<Predicate>)
    requires forall p <- filter :: parse(Shown(p)) == Ok(p)
    ensures ParseEach(parse, ShownAll(filter)) == Ok(filter)
  {
    if filter != [] {
      assert filter == [filter[0]] + filter[1..];
      assert ShownAll(filter)[1..] == ShownAll(filter[1..]);
      EachReadsAgain(parse, filter[1..]);
    }
  }

  /** The tokens a filter was read from. */
  lemma FilterTokens(query: string, filter: seq<Predicate>)
    requires Parsed(query) == Ok(filter)
    ensures var tokens := Tokens(Trim(query));
            && filter != [] && |tokens| == |filter|
            && forall k :: 0 <= k < |filter| ==> ParseToken(tokens[k]) == Ok(filter[k])
  {
    var tokens := Tokens(Trim(query));
    EachSize(ParseToken, tokens);
    forall k | 0 <= k < |filter|
      ensures ParseToken(tokens[k]) == Ok(filter[k])
    {
      EachAt(ParseToken, tokens, k);
    }
  }

  /** What survives printing: the tokenizer scans the print through; only the last predicate
      may leave a quoted stretch open, and it must not end in white space; the value is not
      wrapped in quotes of its own; and it is not the empty tag. */
  ghost predicate Survives(p: Predicate, last: bool) {
    var t := Shown(p);
    && t != "" && Walks(t, 0) && (if last then !IsWhitespace(t[|t| - 1]) else Closes(t, 0))
    && Unquoted(ValueShown(p)) == ValueShown(p) && p != Tagged([""])
  }

  ghost predicate AllSurvive(filter: seq<Predicate>) {
    forall k :: 0 <= k < |filter| ==> Survives(filter[k], k == |filter| - 1)
  }

  lemma SurvivingParses(query: string, filter: seq<Predicate>)
    requires Parsed(query) == Ok(filter) && AllSurvive(filter)
    ensures Parsed(Displayed(filter)) == Ok(filter)
  {
    FilterTokens(query, filter);
    SurvivorsRead(Tokens(Trim(query)), filter);
    EachReadsAgain(ParseToken, filter);
    SurvivingTokens(filter);
  }

  lemma SurvivorsRead(tokens: seq<string>, filter: seq<Predicate>)
    requires |tokens| == |filter| && forall k :: 0 <= k < |filter| ==> ParseToken(tokens[k]) == Ok(filter[k])
    requires AllSurvive(filter)
    ensures forall p <- filter :: ParseToken(Shown(p)) == Ok(p)
  {
    forall p | p in filter
      ensures ParseToken(Shown(p)) == Ok(p)
    {
      var k :| 0 <= k < |filter| && filter[k] == p;
      assert Survives(p, k == |filter| - 1);
      PredicateReadsAgain(tokens[k], p);
    }
  }

  lemma SurvivingTokens(filter: seq<Predicate>)
    requires filter != [] && AllSurvive(filter)
    ensures var q := Displayed(filter); q != "" && Trim(q) == q && Tokens(q) == ShownAll(filter)
  {
    var last := |filter| - 1;
    assert Survives(filter[0], 0 == last) && Survives(filter[last], true);
    SurvivorsScan(filter);
    NotEmptyPrints(filter);
    JoinedReadsBack(ShownAll(filter));
  }

  lemma SurvivorsScan(filter: seq<Predicate>)
    requires AllSurvive(filter)
    ensures Scannable(ShownAll(filter))
  {
    forall k | 0 <= k < |filter|
      ensures Shown(filter[k]) != "" && Walks(Shown(filter[k]), 0) && (k < |filter| - 1 ==> Closes(Shown(filter[k]), 0))
    {
      assert Survives(filter[k], k == |filter| - 1);
    }
  }

  lemma SpansApart(q: string)
    ensures var spans := Spans(q, 0, None);
            forall k :: 0 < k < |spans| ==> spans[k - 1].1 < spans[k].0
  {
    SpansCover(q, 0, None);
  }

  lemma TokenFits(q: string, k: nat, p: Predicate)
    requires k < |Spans(q, 0, None)| && ParseToken(Tokens(q)[k]) == Ok(p)
    ensures Spans(q, 0, None)[k].0 + |Shown(p)| <= Spans(q, 0, None)[k].1
  {
    var s := Spans(q, 0, None)[k];
    SpansFit(q, 0, None);
    assert s in Spans(q, 0, None) && Tokens(q)[k] == q[s.0..s.1];
    ShownNotLonger(Tokens(q)[k], p);
  }

  /** The tokens of a print that parses back are at least as long as the predicates' prints. */
  lemma TokensFit(q: string, filter: seq<Predicate>)
    requires Parsed(q) == Ok(filter)
    ensures filter != [] && Fits(ShownAll(filter), Spans(Trim(q), 0, None), 0)
    ensures forall s <- Spans(Trim(q), 0, None) :: s.1 <= |Trim(q)|
  {
    var trimmed := Trim(q);
    FilterTokens(q, filter);
    SpansApart(trimmed);
    SpansFit(trimmed, 0, None);
    forall k | 0 <= k < |filter|
      ensures Spans(trimmed, 0, None)[k].0 + |Shown(filter[k])| <= Spans(trimmed, 0, None)[k].1
    {
      TokenFits(trimmed, k, filter[k]);
    }
  }

  /** Texts joined by spaces whose tokens are no shorter than they are. */
  ghost predicate Filled(shown: seq<string>, q: string) {
    && shown != [] && q == Join(shown, ' ')
    && (forall k :: 0 <= k < |shown| ==> shown[k] != "" && !IsWhitespace(shown[k][0]))
    && Fits(shown, Spans(Trim(q), 0, None), 0)
    && (forall s <- Spans(Trim(q), 0, None) :: s.1 <= |Trim(q)|)
  }

  lemma FilledCuts(shown: seq<string>, q: string, trimmed: string, spans: seq<(nat, nat)>)
    requires shown != [] && q == Join(shown, ' ') && trimmed <= q
    requires Fits(shown, spans, 0) && forall s <- spans :: s.1 <= |trimmed|
    ensures trimmed == q && Cuts(q, spans, shown)
  {
    assert q == "" + Join(shown, ' ');
    assert spans[|spans| - 1] in spans;
    NoRoom(q, "", shown, spans);
  }

  /** Then the tokens are the texts, and nothing is trimmed off. */
  lemma FilledTokens(shown: seq<string>, q: string)
    requires Filled(shown, q)
    ensures Trim(q) == q && q != "" && !IsWhitespace(q[|q| - 1]) && Cuts(q, Spans(q, 0, None), shown)
  {
    JoinEnds(shown);
    TrimPrefix(q);
    FilledCuts(shown, q, Trim(q), Spans(Trim(q), 0, None));
  }

  lemma CutScanned(q: string, s: (nat, nat))
    requires IsScanned(q, s)
    ensures var t := q[s.0..s.1]; t != "" && Walks(t, 0) && (s.1 < |q| ==> Closes(t, 0))
  {
    ScannedWalks(q, s.0, s.1, 0);
  }

  lemma CutsLeaveRoom(shown: seq<string>, q: string, spans: seq<(nat, nat)>, k: nat)
    requires Cuts(q, spans, shown) && Fits(shown, spans, 0) && k + 1 < |spans|
    ensures spans[k].1 < |q|
  {
    assert spans[k + 1 - 1].1 < spans[k + 1].0 <= |q|;
  }

  /** And each is scanned through. */
  lemma FilledScanned(shown: seq<string>, q: string, k: nat)
    requires Filled(shown, q) && k < |shown|
    ensures var t := shown[k];
            t != "" && Walks(t, 0) && (if k == |shown| - 1 then !IsWhitespace(t[|t| - 1]) else Closes(t, 0))
  {
    FilledTokens(shown, q);
    SpansScanned(q, 0, None);
    assert Spans(q, 0, None)[k] in Spans(q, 0, None);
    CutScanned(q, Spans(q, 0, None)[k]);
    if k == |shown| - 1 {
      JoinEnds(shown);
    } else {
      CutsLeaveRoom(shown, q, Spans(q, 0, None), k);
    }
  }

  lemma NotEmptyPrints(filter: seq<Predicate>)
    ensures forall k :: 0 <= k < |filter| ==> ShownAll(filter)[k] != "" && !IsWhitespace(ShownAll(filter)[k][0])
  {
    forall k | 0 <= k < |filter|
      ensures Shown(filter[k]) != "" && !IsWhitespace(Shown(filter[k])[0])
    {
      ShownParts(filter[k]);
    }
  }

  lemma TrimPrefix(q: string)
    requires q != "" && !IsWhitespace(q[0])
    ensures Trim(q) <= q && (Trim(q) != "" ==> !IsWhitespace(Trim(q)[|Trim(q)| - 1]))
  {
    assert TrimStart(q) == q;
    TrimEndPrefix(q);
  }

  lemma ReprintFills(filter: seq<Predicate>)
    requires Parsed(Displayed(filter)) == Ok(filter)
    ensures Filled(ShownAll(filter), Displayed(filter))
  {
    TokensFit(Displayed(filter), filter);
    NotEmptyPrints(filter);
  }

  lemma ReprintedSurvives(filter: seq<Predicate>)
    requires Parsed(Displayed(filter)) == Ok(filter)
    ensures AllSurvive(filter)
  {
    ReprintFills(filter);
    forall k | 0 <= k < |filter|
      ensures Survives(filter[k], k == |filter| - 1)
    {
      FilledScanned(ShownAll(filter), Displayed(filter), k);
      assert ShownAll(filter)[k] == Shown(filter[k]);
      ReadSurvives(filter, k);
    }
  }

  lemma ReadSurvives(filter: seq<Predicate>, k: nat)
    requires Parsed(Displayed(filter)) == Ok(filter) && k < |filter|
    ensures Unquoted(ValueShown(filter[k])) == ValueShown(filter[k]) && filter[k] != Tagged([""])
  {
    var q := Displayed(filter);
    ReprintFills(filter);
    FilledTokens(ShownAll(filter), q);
    FilterTokens(q, filter);
    SpansFit(q, 0, None);
    assert Tokens(q)[k] == ShownAll(filter)[k] == Shown(filter[k]);
    PredicateReadsAgain(Tokens(q)[k], filter[k]);
  }

  /** Any query that parses, whatever quotes it holds: the print of its filter parses back to
      the filter exactly when every predicate survives. */
  lemma ReprintsExactly(query: string)
    requires Parsed(query).Ok?
    ensures Parsed(Displayed(Parsed(query).value)) == Parsed(query) <==> AllSurvive(Parsed(query).value)
  {
    var filter := Parsed(query).value;
    if AllSurvive(filter) { SurvivingParses(query, filter); }
    if Parsed(Displayed(filter)) == Ok(filter) { ReprintedSurvives(filter); }
  }

  // ----------------------------------------------------------------------
  // Prints without quoting
  // ----------------------------------------------------------------------

  lemma {:induction false} WalksSolid(t: string, i: nat)
    requires Calm(t) && i <= |t| && Walks(t, i)
    ensures Solid(t[i..])
    decreases |t| - i
  {
    if i < |t| {
      assert NextPosition(t, i) == i + 1;
      WalksSolid(t, i + 1);
      assert t[i..] == [t[i]] + t[i + 1..];
    }
  }

  lemma CalmValue(p: Predicate)
    requires Calm(Shown(p))
    ensures Unquoted(ValueShown(p)) == ValueShown(p)
  {
    ShownParts(p);
    var at, v := (if p.NotInStatus? then 1 else 0) + |KeyOf(p)|, ValueShown(p);
    if v != "" {
      assert Shown(p)[at] == ':' && Shown(p)[at + 1] == v[0];
    }
  }

  lemma CalmScans(t: string)
    requires t != "" && Calm(t)
    ensures Walks(t, 0) <==> Solid(t)
    ensures Solid(t) ==> Closes(t, 0) && !IsWhitespace(t[|t| - 1])
  {
    if Solid(t) {
      WordWalks(t, 0);
      assert t[|t| - 1] in t;
    }
    if Walks(t, 0) {
      WalksSolid(t, 0);
      assert t[0..] == t;
    }
  }

  /** A print in which no quote stands right behind a colon, such as that of `text:it's`:
      there a predicate survives exactly when its print holds no white space and it is not
      the empty tag. */
  lemma CalmSurvives(p: Predicate, last: bool)
    requires Calm(Shown(p))
    ensures Survives(p, last) <==> Solid(Shown(p)) && p != Tagged([""])
  {
    ShownParts(p);
    CalmValue(p);
    CalmScans(Shown(p));
  }
}
