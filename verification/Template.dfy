/**
 Filename templates: parsing, printing and rendering.
 */
module Template {
  import opened Wrappers
  import opened Text
  import Slug

  datatype Segment = Literal(text: string) | Title | Date | Id | Type

  datatype TemplateError = UnknownPlaceholder(name: string) | UnclosedBrace | EmptyTemplate

  function Placeholder(name: string): Option<Segment> {
    if name == "title" then Some(Title)
    else if name == "date" then Some(Date)
    else if name == "id" then Some(Id)
    else if name == "type" then Some(Type)
    else None
  }

  function Flushed(literal: string): seq<Segment> { if literal == "" then [] else [Literal(literal)] }

  /** The segments of what is left, with `literal` collected so far. */
  function ParseFrom(s: string, literal: string): Result<seq<Segment>, TemplateError>
    decreases |s|
  {
    if s == "" then Ok(Flushed(literal))
    else if s[0] != '{' then ParseFrom(s[1..], literal + [s[0]])
    else
      match Find(s[1..], '}')
      case None => Err(UnclosedBrace)
      case Some(end) =>
        var name := s[1..][..end];
        match Placeholder(name)
        case None => Err(UnknownPlaceholder(name))
        case Some(segment) =>
          var rest :- ParseFrom(s[1..][end + 1..], "");
          Ok(Flushed(literal) + [segment] + rest)
  }

  function Parsed(template: string): Result<seq<Segment>, TemplateError> {
    if template == "" then Err(EmptyTemplate) else ParseFrom(template, "")
  }

  /** The parser's loop. The flag is set where an id placeholder is met. */
  method Parse(template: string) returns (r: Result<(seq<Segment>, bool), TemplateError>)
    ensures r.Ok? <==> Parsed(template).Ok?
    ensures r.Ok? ==> r.value == (Parsed(template).value, Id in Parsed(template).value)
    ensures r.Err? ==> r.error == Parsed(template).error
  {
    if template == "" { return Err(EmptyTemplate); }
    var segments: seq<Segment> := [];
    var literal := "";
    var rest := template;
    var hasId := false;
    BehindNothing(ParseFrom(template, ""));
    while rest != ""
      invariant hasId <==> Id in segments
      invariant Parsed(template) == Behind(segments, ParseFrom(rest, literal))
      decreases |rest|
    {
      if rest[0] == '{' {
        var end := Find(rest[1..], '}');
        if end.None? { return Err(UnclosedBrace); }
        var name := rest[1..][..end.value];
        var segment := Placeholder(name);
        if segment.None? { return Err(UnknownPlaceholder(name)); }
        ghost var tail := ParseFrom(rest[1..][end.value + 1..], "");
        assert ParseFrom(rest, literal) == Behind(Flushed(literal) + [segment.value], tail);
        BehindStep(segments, Flushed(literal), segment.value, tail);
        if literal != "" { segments := segments + [Literal(literal)]; }
        if segment.value.Id? { hasId := true; }
        segments := segments + [segment.value];
        literal := "";
        rest := rest[1..][end.value + 1..];
      } else {
        literal := literal + [rest[0]];
        rest := rest[1..];
      }
    }
    assert segments + [] == segments;
    assert Parsed(template) == Ok(segments + Flushed(literal));
    if literal != "" { segments := segments + [Literal(literal)]; }
    r := Ok((segments, hasId));
  }

  ghost function Behind(done: seq<Segment>, rest: Result<seq<Segment>, TemplateError>): Result<seq<Segment>, TemplateError> {
    if rest.Err? then rest else Ok(done + rest.value)
  }

  lemma BehindNothing(rest: Result<seq<Segment>, TemplateError>)
    ensures Behind([], rest) == rest
  {
    if rest.Ok? { assert [] + rest.value == rest.value; }
  }

  lemma BehindStep(done: seq<Segment>, flushed: seq<Segment>, s: Segment, rest: Result<seq<Segment>, TemplateError>)
    ensures Behind(done, Behind(flushed + [s], rest)) == Behind((done + flushed) + [s], rest)
    ensures flushed == [] ==> done + flushed == done
  {
    if rest.Ok? { assert done + ((flushed + [s]) + rest.value) == ((done + flushed) + [s]) + rest.value; }
  }

  // ----------------------------------------------------------------------
  // Printing
  // ----------------------------------------------------------------------

  function Shown(s: Segment): string {
    match s
    case Literal(text) => text
    case Title => "{title}"
    case Date => "{date}"
    case Id => "{id}"
    case Type => "{type}"
  }

  function Displayed(segments: seq<Segment>): string {
    if segments == [] then "" else Shown(segments[0]) + Displayed(segments[1..])
  }

  method Display(segments: seq<Segment>) returns (out: string)
    ensures out == Displayed(segments)
  {
    out := "";
    for i := 0 to |segments|
      invariant out + Displayed(segments[i..]) == Displayed(segments)
    {
      DisplayStep(out, segments, i);
      out := out + Shown(segments[i]);
    }
  }

  lemma DisplayStep(out: string, segments: seq<Segment>, i: nat)
    requires i < |segments|
    ensures out + Displayed(segments[i..]) == (out + Shown(segments[i])) + Displayed(segments[i + 1..])
  {
    assert segments[i..][1..] == segments[i + 1..];
    Reassociate(out, Shown(segments[i]), Displayed(segments[i + 1..]));
  }

  lemma Reassociate(a: string, b: string, c: string)
    ensures a + (b + c) == (a + b) + c
  {
  }

  /** Literals are not empty, hold no opening brace, and never stand side by side. */
  ghost predicate WellFormed(segments: seq<Segment>) {
    && (forall i :: 0 <= i < |segments| && segments[i].Literal? ==> segments[i].text != "" && '{' !in segments[i].text)
    && (forall i :: 0 < i < |segments| ==> !(segments[i - 1].Literal? && segments[i].Literal?))
  }

  lemma PlaceholderShown(name: string)
    requires Placeholder(name).Some?
    ensures Shown(Placeholder(name).value) == ['{'] + name + ['}'] && !Placeholder(name).value.Literal?
  {
  }

  lemma DisplayedConcat(a: seq<Segment>, b: seq<Segment>)
    ensures Displayed(a + b) == Displayed(a) + Displayed(b)
  {
    if a == [] {
      assert a + b == b;
    } else {
      assert (a + b)[1..] == a[1..] + b;
      DisplayedConcat(a[1..], b);
    }
  }

  lemma FlushedShown(literal: string)
    ensures Displayed(Flushed(literal)) == literal
  {
    if literal != "" {
      assert [Literal(literal)][1..] == [];
      assert Displayed([Literal(literal)]) == literal + Displayed([]);
    }
  }

  lemma {:induction false} ParsePrints(s: string, literal: string)
    requires ParseFrom(s, literal).Ok?
    ensures Displayed(ParseFrom(s, literal).value) == literal + s
    decreases |s|
  {
    FlushedShown(literal);
    if s == "" {
    } else if s[0] != '{' {
      ParsePrints(s[1..], literal + [s[0]]);
      assert literal + [s[0]] + s[1..] == literal + s;
    } else {
      var end := Find(s[1..], '}').value;
      var name, tail := s[1..][..end], s[1..][end + 1..];
      var segment := Placeholder(name).value;
      ParsePrints(tail, "");
      PlaceholderShown(name);
      DisplayedAround(literal, segment, ParseFrom(tail, "").value, name, tail);
      Reassemble(s, name, tail);
    }
  }

  lemma Reassemble(s: string, name: string, tail: string)
    requires s != "" && |name| < |s| - 1
    requires s[0] == '{' && s[1..][|name|] == '}' && name == s[1..][..|name|] && tail == s[1..][|name| + 1..]
    ensures s == ['{'] + name + ['}'] + tail
  {
    assert s[1..] == name + ['}'] + tail;
    assert s == ['{'] + s[1..];
    assert ['{'] + (name + ['}'] + tail) == ['{'] + name + ['}'] + tail;
  }

  lemma DisplayedAround(literal: string, segment: Segment, rest: seq<Segment>, name: string, tail: string)
    requires Shown(segment) == ['{'] + name + ['}'] && Displayed(rest) == tail
    ensures Displayed(Flushed(literal) + [segment] + rest) == literal + (['{'] + name + ['}'] + tail)
  {
    FlushedShown(literal);
    assert ([segment] + rest)[0] == segment && ([segment] + rest)[1..] == rest;
    DisplayedConcat(Flushed(literal), [segment] + rest);
    assert Flushed(literal) + [segment] + rest == Flushed(literal) + ([segment] + rest);
  }

  lemma {:induction false} ParseIsWellFormed(s: string, literal: string)
    requires '{' !in literal && ParseFrom(s, literal).Ok?
    ensures WellFormed(ParseFrom(s, literal).value)
    ensures (s != "" || literal != "") ==> ParseFrom(s, literal).value != []
    decreases |s|
  {
    if s == "" {
    } else if s[0] != '{' {
      ParseIsWellFormed(s[1..], literal + [s[0]]);
    } else {
      var end := Find(s[1..], '}').value;
      var segment := Placeholder(s[1..][..end]).value;
      var rest := ParseFrom(s[1..][end + 1..], "").value;
      PlaceholderShown(s[1..][..end]);
      ParseIsWellFormed(s[1..][end + 1..], "");
      WellFormedCons(segment, rest);
      if literal != "" {
        WellFormedCons(Literal(literal), [segment] + rest);
        assert Flushed(literal) + [segment] + rest == [Literal(literal)] + ([segment] + rest);
      } else {
        assert Flushed(literal) + [segment] + rest == [segment] + rest;
      }
    }
  }

  lemma WellFormedCons(s: Segment, rest: seq<Segment>)
    requires WellFormed(rest) && (s.Literal? ==> s.text != "" && '{' !in s.text)
    requires !(s.Literal? && rest != [] && rest[0].Literal?)
    ensures WellFormed([s] + rest)
  {
    var all := [s] + rest;
    assert forall i :: 0 < i < |all| ==> all[i] == rest[i - 1];
  }

  lemma {:induction false} LiteralScans(text: string, rest: string, literal: string)
    requires '{' !in text
    ensures ParseFrom(text + rest, literal) == ParseFrom(rest, literal + text)
    decreases |text|
  {
    if text == "" {
      assert text + rest == rest && literal + text == literal;
    } else {
      assert text[0] in text;
      assert (text + rest)[1..] == text[1..] + rest;
      assert literal + [text[0]] + text[1..] == literal + text;
      LiteralScans(text[1..], rest, literal + [text[0]]);
    }
  }

  ghost function NameOf(s: Segment): string
    requires !s.Literal?
  {
    match s case Title => "title" case Date => "date" case Id => "id" case Type => "type"
  }

  lemma NameShown(s: Segment)
    requires !s.Literal?
    ensures Shown(s) == ['{'] + NameOf(s) + ['}'] && '}' !in NameOf(s) && Placeholder(NameOf(s)) == Some(s)
  {
  }

  lemma BracedScans(name: string, s: Segment, rest: string, literal: string)
    requires '}' !in name && Placeholder(name) == Some(s)
    ensures ParseFrom(['{'] + name + ['}'] + rest, literal) == Behind(Flushed(literal) + [s], ParseFrom(rest, ""))
  {
    var all, behind := ['{'] + name + ['}'] + rest, name + ['}'] + rest;
    assert all[0] == '{' && all[1..] == behind;
    FindBehind(name, '}', rest);
    assert behind[..|name|] == name && behind[|name| + 1..] == rest;
  }

  lemma LiteralReads(text: string, printed: string, rest: seq<Segment>)
    requires text != "" && '{' !in text && ParseFrom(printed, text) == Ok(Flushed(text) + rest)
    ensures ParseFrom(text + printed, "") == Ok(Flushed("") + ([Literal(text)] + rest))
  {
    LiteralScans(text, printed, "");
    assert "" + text == text;
    assert Flushed("") + ([Literal(text)] + rest) == [Literal(text)] + rest;
  }

  lemma BracedReads(s: Segment, printed: string, rest: seq<Segment>, literal: string)
    requires !s.Literal? && ParseFrom(printed, "") == Ok(Flushed("") + rest)
    ensures ParseFrom(Shown(s) + printed, literal) == Ok(Flushed(literal) + ([s] + rest))
  {
    NameShown(s);
    BracedScans(NameOf(s), s, printed, literal);
    assert Flushed("") + rest == rest;
    assert Flushed(literal) + [s] + rest == Flushed(literal) + ([s] + rest);
  }

  /** Reading the printed form of well-formed segments, with a literal still open in front. */
  lemma {:induction false} PrintParses(segments: seq<Segment>, literal: string)
    requires WellFormed(segments) && (literal != "" && segments != [] ==> !segments[0].Literal?)
    ensures ParseFrom(Displayed(segments), literal) == Ok(Flushed(literal) + segments)
    decreases |segments|
  {
    if segments == [] {
      assert Flushed(literal) + [] == Flushed(literal);
    } else {
      var first, rest := segments[0], segments[1..];
      assert segments == [first] + rest;
      WellFormedRest(segments);
      if first.Literal? {
        PrintParses(rest, first.text);
        LiteralReads(first.text, Displayed(rest), rest);
      } else {
        PrintParses(rest, "");
        BracedReads(first, Displayed(rest), rest, literal);
      }
    }
  }

  lemma WellFormedRest(segments: seq<Segment>)
    requires WellFormed(segments) && segments != []
    ensures WellFormed(segments[1..])
    ensures segments[0].Literal? ==> segments[0].text != "" && '{' !in segments[0].text
    ensures segments[0].Literal? && segments[1..] != [] ==> !segments[1..][0].Literal?
  {
    var rest := segments[1..];
    assert forall i :: 0 <= i < |rest| ==> rest[i] == segments[i + 1];
  }

  /** Every accepted template prints back to itself, as well-formed segments. */
  lemma AcceptedPrintsBack(template: string)
    requires Parsed(template).Ok?
    ensures Displayed(Parsed(template).value) == template
    ensures WellFormed(Parsed(template).value) && Parsed(template).value != []
  {
    ParsePrints(template, "");
    ParseIsWellFormed(template, "");
  }

  /** A list of segments parses back from its printed form exactly when it is well formed
      and not empty. */
  lemma PrintedParsesBack(segments: seq<Segment>)
    ensures Parsed(Displayed(segments)) == Ok(segments) <==> WellFormed(segments) && segments != []
  {
    if WellFormed(segments) && segments != [] {
      PrintParses(segments, "");
      assert Flushed("") + segments == segments;
      ShownNotEmpty(segments[0], segments[1..]);
      assert Displayed(segments) != "";
    }
    if Parsed(Displayed(segments)) == Ok(segments) {
      AcceptedPrintsBack(Displayed(segments));
    }
  }

  lemma ShownNotEmpty(s: Segment, rest: seq<Segment>)
    requires s.Literal? ==> s.text != ""
    ensures Shown(s) + Displayed(rest) != ""
  {
    assert Shown(s) != "";
  }

  // ----------------------------------------------------------------------
  // Templates that are refused
  // ----------------------------------------------------------------------

  /** What stands at the first brace that begins no placeholder. */
  ghost predicate BadBrace(tail: string, error: TemplateError) {
    match error
    case UnclosedBrace => '}' !in tail
    case UnknownPlaceholder(name) =>
      && name !in {"title", "date", "id", "type"} && '}' !in name
      && (name + "}") <= tail
    case EmptyTemplate => false
  }

  lemma BadBraceReads(tail: string, literal: string, error: TemplateError)
    requires BadBrace(tail, error)
    ensures ParseFrom(['{'] + tail, literal) == Err(error)
  {
    assert (['{'] + tail)[1..] == tail;
    if error.UnknownPlaceholder? {
      var name := error.name;
      FindBehind(name, '}', tail[|name| + 1..]);
      assert tail == name + ['}'] + tail[|name| + 1..];
      assert tail[..|name|] == name;
    } else {
      FindNothing(tail, '}');
    }
  }

  lemma {:induction false} ReadsUpTo(segments: seq<Segment>, literal: string, tail: string, error: TemplateError)
    requires WellFormed(segments) && (literal != "" && segments != [] ==> !segments[0].Literal?)
    requires BadBrace(tail, error)
    ensures ParseFrom(Displayed(segments) + (['{'] + tail), literal) == Err(error)
    decreases |segments|
  {
    var behind := ['{'] + tail;
    if segments == [] {
      assert Displayed(segments) + behind == behind;
      BadBraceReads(tail, literal, error);
    } else {
      var first, rest := segments[0], segments[1..];
      WellFormedRest(segments);
      assert Displayed(segments) + behind == Shown(first) + (Displayed(rest) + behind);
      if first.Literal? {
        LiteralScans(first.text, Displayed(rest) + behind, literal);
        assert literal + first.text == first.text;
        ReadsUpTo(rest, first.text, tail, error);
      } else {
        NameShown(first);
        BracedScans(NameOf(first), first, Displayed(rest) + behind, literal);
        ReadsUpTo(rest, "", tail, error);
      }
    }
  }

  /** A template is refused, and how, when behind well-formed segments comes a brace that is
      never closed or that encloses no name of a placeholder. */
  lemma RefusedAtBrace(segments: seq<Segment>, tail: string, error: TemplateError)
    requires WellFormed(segments) && BadBrace(tail, error)
    ensures Parsed(Displayed(segments) + (['{'] + tail)) == Err(error)
  {
    ReadsUpTo(segments, "", tail, error);
    assert Displayed(segments) + (['{'] + tail) != "";
  }

  lemma {:induction false} BraceFound(s: string, literal: string) returns (segments: seq<Segment>, tail: string)
    requires '{' !in literal && ParseFrom(s, literal).Err?
    ensures WellFormed(segments) && literal + s == Displayed(segments) + (['{'] + tail)
    ensures BadBrace(tail, ParseFrom(s, literal).error)
    decreases |s|
  {
    FlushedShown(literal);
    if s[0] != '{' {
      segments, tail := BraceFound(s[1..], literal + [s[0]]);
      assert literal + [s[0]] + s[1..] == literal + s;
    } else {
      assert s == ['{'] + s[1..];
      var end := Find(s[1..], '}');
      segments, tail := Flushed(literal), s[1..];
      if end.Some? {
        var name, rest := s[1..][..end.value], s[1..][end.value + 1..];
        assert s[1..] == name + "}" + rest;
        if Placeholder(name).Some? {
          var inner;
          inner, tail := BraceFound(rest, "");
          segments := BehindPlaceholder(s, literal, name, rest, inner, tail);
        }
      }
    }
  }

  lemma BehindPlaceholder(s: string, literal: string, name: string, rest: string, inner: seq<Segment>, tail: string)
    returns (segments: seq<Segment>)
    requires '{' !in literal && s == ['{'] + (name + "}" + rest) && Placeholder(name).Some?
    requires WellFormed(inner) && "" + rest == Displayed(inner) + (['{'] + tail)
    ensures WellFormed(segments) && literal + s == Displayed(segments) + (['{'] + tail)
  {
    var segment := Placeholder(name).value;
    PlaceholderShown(name);
    segments := Flushed(literal) + [segment] + inner;
    PlaceholderBehind(literal, segment, inner);
    DisplayedAround(literal, segment, inner, name, Displayed(inner));
    assert rest == "" + rest;
    Braced(literal, name, Displayed(inner), ['{'] + tail);
  }

  lemma Braced(literal: string, name: string, inner: string, tail: string)
    ensures literal + (['{'] + (name + "}" + (inner + tail))) == literal + (['{'] + name + ['}'] + inner) + tail
  {
  }

  lemma PlaceholderBehind(literal: string, segment: Segment, inner: seq<Segment>)
    requires '{' !in literal && WellFormed(inner) && !segment.Literal?
    ensures WellFormed(Flushed(literal) + [segment] + inner)
  {
    WellFormedCons(segment, inner);
    var segments := Flushed(literal) + [segment] + inner;
    if literal != "" {
      WellFormedCons(Literal(literal), [segment] + inner);
      assert segments == [Literal(literal)] + ([segment] + inner);
    } else {
      assert segments == [segment] + inner;
    }
  }

  /** Nothing else is refused but the empty template. */
  lemma RefusedExactly(template: string) returns (segments: seq<Segment>, tail: string)
    requires Parsed(template).Err? && template != ""
    ensures WellFormed(segments) && template == Displayed(segments) + (['{'] + tail)
    ensures BadBrace(tail, Parsed(template).error)
  {
    segments, tail := BraceFound(template, "");
    assert "" + template == template;
  }

  // ----------------------------------------------------------------------
  // Rendering
  // ----------------------------------------------------------------------

  /** What a file name is made from: `date` is the day in its printed form, `shortId` the
      first eight characters of the id. */
  datatype Values = Values(title: string, date: string, shortId: string, contentType: string)

  function Piece(s: Segment, v: Values): string {
    match s
    case Literal(text) => text
    case Title => Slug.Slugified(v.title, 60)
    case Date => v.date
    case Id => v.shortId
    case Type => Slug.Slugified(v.contentType, 30)
  }

  function Rendered(segments: seq<Segment>, v: Values): string {
    if segments == [] then "" else Piece(segments[0], v) + Rendered(segments[1..], v)
  }

  method Render(segments: seq<Segment>, v: Values) returns (out: string)
    ensures out == Rendered(segments, v)
  {
    out := "";
    for i := 0 to |segments|
      invariant out + Rendered(segments[i..], v) == Rendered(segments, v)
    {
      assert segments[i..][1..] == segments[i + 1..];
      ghost var rest := Rendered(segments[i + 1..], v);
      assert out + (Piece(segments[i], v) + rest) == (out + Piece(segments[i], v)) + rest;
      out := out + Piece(segments[i], v);
    }
  }

  /** What a name with every kind of segment comes to, its words spelled out. */
  lemma EveryKindRendered(v: Values, between: string)
    requires Slug.Words(v.title) != [] && |Slug.Joined(v.title)| <= 60
    requires Slug.Words(v.contentType) != [] && |Slug.Joined(v.contentType)| <= 30
    ensures Rendered([Date, Literal(between), Title, Literal(between), Type, Literal(between), Id], v)
         == v.date + (between + (Join(Slug.Words(v.title), '-')
            + (between + (Join(Slug.Words(v.contentType), '-') + (between + v.shortId)))))
  {
    Slug.SlugExactly(v.title, 60);
    Slug.SlugExactly(v.contentType, 30);
    assert Rendered([Id], v) == v.shortId + "" == v.shortId;
    RenderedCons(Literal(between), [Id], v);
    RenderedCons(Type, [Literal(between), Id], v);
    RenderedCons(Literal(between), [Type, Literal(between), Id], v);
    RenderedCons(Title, [Literal(between), Type, Literal(between), Id], v);
    RenderedCons(Literal(between), [Title, Literal(between), Type, Literal(between), Id], v);
    RenderedCons(Date, [Literal(between), Title, Literal(between), Type, Literal(between), Id], v);
  }

  lemma RenderedCons(first: Segment, rest: seq<Segment>, v: Values)
    ensures Rendered([first] + rest, v) == Piece(first, v) + Rendered(rest, v)
  {
    assert ([first] + rest)[1..] == rest;
  }
}
