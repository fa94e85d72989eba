/**
 OPML subscription lists: the event-driven parser with its stack of open folders,
 the recursive printer, and the outline counter.

 XML itself is the reader's and writer's business. The parser sees a sequence of
 events; the printer produces one. Escaping is taken to be a perfect inverse, so an
 attribute value or a title travels unchanged from the printer to the parser.
 */
module Opml {
  import opened Wrappers
  import Text

  // ----------------------------------------------------------------------
  // Documents
  // ----------------------------------------------------------------------

  datatype Outline = Outline(
    text: string,
    title: Option<string>,
    xmlUrl: Option<string>,
    htmlUrl: Option<string>,
    feedType: Option<string>,
    children: seq<Outline>)
  {
    predicate IsFeed() { xmlUrl.Some? }

    function DisplayName(): string { title.GetOr(text) }

    /** The outline's own attributes, without its children. */
    function Label(): Outline { this.(children := []) }
  }

  datatype Document = Document(title: string, outlines: seq<Outline>)

  // ----------------------------------------------------------------------
  // Events
  // ----------------------------------------------------------------------

  datatype Name = Head | Title | Body | OutlineTag | OtherTag

  datatype Key = KText | KTitle | KXmlUrl | KHtmlUrl | KType | KOther

  /** One attribute of a tag; `BadAttribute` is one the reader cannot decode. */
  datatype Attribute = Attribute(key: Key, value: string) | BadAttribute

  datatype Event =
    | Start(name: Name, attributes: seq<Attribute>)
    | Empty(name: Name, attributes: seq<Attribute>)
    | End(name: Name)
    | Text(fragment: Option<string>)          // None: undecodable
    | CharRef(resolved: Option<char>)         // numeric reference; None: invalid
    | EntityRef(replacement: Option<string>)  // named reference; None: unknown
    | Malformed
    | OtherEvent                              // declaration, comment, ...

  datatype OpmlError = BadXml | BadAttributes | BadText | BadReference

  // ----------------------------------------------------------------------
  // Parsing: one step of the loop, and the whole run
  // ----------------------------------------------------------------------

  function WithAttribute(o: Outline, a: Attribute): Outline
    requires a.Attribute?
  {
    match a.key
    case KText => o.(text := a.value)
    case KTitle => o.(title := Some(a.value))
    case KXmlUrl => o.(xmlUrl := Some(a.value))
    case KHtmlUrl => o.(htmlUrl := Some(a.value))
    case KType => o.(feedType := Some(a.value))
    case KOther => o
  }

  const BLANK := Outline("", None, None, None, None, [])

  function ReadAttributes(attributes: seq<Attribute>, o: Outline): Result<Outline, OpmlError> {
    if attributes == [] then Ok(o)
    else if attributes[0].BadAttribute? then Err(BadAttributes)
    else ReadAttributes(attributes[1..], WithAttribute(o, attributes[0]))
  }

  /** An empty `text` falls back to the title. */
  function TextFallback(o: Outline): Outline {
    if o.text == "" then o.(text := o.title.GetOr("")) else o
  }

  function OutlineOf(attributes: seq<Attribute>): Result<Outline, OpmlError> {
    match ReadAttributes(attributes, BLANK)
    case Err(e) => Err(e)
    case Ok(o) => Ok(TextFallback(o))
  }

  /** The local variables of the parser's loop. Each frame of `stack` holds an open
      folder at index 0 and the children collected for it behind it. */
  datatype State = State(
    title: string,
    inHead: bool,
    inTitle: bool,
    inBody: bool,
    stack: seq<seq<Outline>>,
    root: seq<Outline>)

  const INITIAL_STATE := State("", false, false, false, [], [])

  function Push(s: State, o: Outline): State {
    if s.stack == [] then s.(root := s.root + [o])
    else
      var top := |s.stack| - 1;
      s.(stack := s.stack[top := s.stack[top] + [o]])
  }

  function OpenOutline(s: State, o: Outline): State {
    if o.IsFeed() then Push(s, o) else s.(stack := s.stack + [[o]])
  }

  function CloseOutline(s: State): State {
    if s.stack == [] then s
    else
      var frame := s.stack[|s.stack| - 1];
      var popped := s.(stack := s.stack[..|s.stack| - 1]);
      if frame == [] then popped
      else Push(popped, frame[0].(children := frame[1..]))
  }

  function Step(s: State, e: Event): Result<State, OpmlError> {
    match e
    case Start(Head, _) => Ok(s.(inHead := true))
    case Start(Title, _) => Ok(if s.inHead then s.(inTitle := true) else s)
    case Start(Body, _) => Ok(s.(inBody := true))
    case Start(OutlineTag, attributes) =>
      if !s.inBody then Ok(s) else
        (match OutlineOf(attributes)
         case Err(error) => Err(error)
         case Ok(o) => Ok(OpenOutline(s, o)))
    case Empty(OutlineTag, attributes) =>
      if !s.inBody then Ok(s) else
        (match OutlineOf(attributes)
         case Err(error) => Err(error)
         case Ok(o) => Ok(Push(s, o)))
    case End(Head) => Ok(s.(inHead := false))
    case End(Title) => Ok(if s.inHead then s.(inTitle := false) else s)
    case End(Body) => Ok(s.(inBody := false))
    case End(OutlineTag) => Ok(if s.inBody then CloseOutline(s) else s)
    case Text(fragment) =>
      if !s.inTitle then Ok(s)
      else if fragment.None? then Err(BadText)
      else Ok(s.(title := s.title + fragment.value))
    case CharRef(c) =>
      if !s.inTitle then Ok(s)
      else if c.None? then Err(BadReference)
      else Ok(s.(title := s.title + [c.value]))
    case EntityRef(r) =>
      if !s.inTitle then Ok(s)
      else if r.None? then Err(BadReference)
      else Ok(s.(title := s.title + r.value))
    case Malformed => Err(BadXml)
    case _ => Ok(s)
  }

  function Run(events: seq<Event>, s: State): Result<State, OpmlError> {
    if events == [] then Ok(s)
    else
      match Step(s, events[0])
      case Err(error) => Err(error)
      case Ok(s') => Run(events[1..], s')
  }

  function Parsed(events: seq<Event>): Result<Document, OpmlError> {
    match Run(events, INITIAL_STATE)
    case Err(error) => Err(error)
    case Ok(s) => Ok(Document(Text.Trim(s.title), s.root))
  }

  /** The parser's loop over its local variables. */
  method ParseOpml(events: seq<Event>) returns (r: Result<Document, OpmlError>)
    ensures r == Parsed(events)
  {
    var title := "";
    var inHead, inTitle, inBody := false, false, false;
    var stack: seq<seq<Outline>> := [];
    var root: seq<Outline> := [];
    var i := 0;
    while i < |events|
      invariant 0 <= i <= |events|
      invariant Run(events, INITIAL_STATE) == Run(events[i..], State(title, inHead, inTitle, inBody, stack, root))
    {
      ghost var before := State(title, inHead, inTitle, inBody, stack, root);
      assert events[i..][0] == events[i] && events[i..][1..] == events[i + 1..];
      match events[i] {
        case Start(Head, _) => inHead := true;
        case Start(Title, _) => if inHead { inTitle := true; }
        case Start(Body, _) => inBody := true;
        case Start(OutlineTag, attributes) =>
          if inBody {
            var outline := ParseOutlineAttrs(attributes);
            if outline.Err? { return Err(outline.error); }
            if outline.value.IsFeed() {
              stack, root := PushOutline(stack, root, outline.value);
            } else {
              stack := stack + [[]];
              assert [outline.value] + stack[|stack| - 1] == [outline.value];
              stack := stack[|stack| - 1 := [outline.value] + stack[|stack| - 1]];
              assert stack == before.stack + [[outline.value]];
            }
          }
        case Empty(OutlineTag, attributes) =>
          if inBody {
            var outline := ParseOutlineAttrs(attributes);
            if outline.Err? { return Err(outline.error); }
            stack, root := PushOutline(stack, root, outline.value);
          }
        case End(Head) => inHead := false;
        case End(Title) => if inHead { inTitle := false; }
        case End(Body) => inBody := false;
        case End(OutlineTag) =>
          if inBody && stack != [] {
            var children := stack[|stack| - 1];
            stack := stack[..|stack| - 1];
            if children != [] {
              var folder := children[0].(children := children[1..]);
              stack, root := PushOutline(stack, root, folder);
            }
          }
        case Text(fragment) =>
          if inTitle {
            if fragment.None? { return Err(BadText); }
            title := title + fragment.value;
          }
        case CharRef(c) =>
          if inTitle {
            if c.None? { return Err(BadReference); }
            title := title + [c.value];
          }
        case EntityRef(replacement) =>
          if inTitle {
            if replacement.None? { return Err(BadReference); }
            title := title + replacement.value;
          }
        case Malformed => return Err(BadXml);
        case _ =>
      }
      assert Step(before, events[i]) == Ok(State(title, inHead, inTitle, inBody, stack, root));
      i := i + 1;
    }
    r := Ok(Document(Text.Trim(title), root));
  }

  /** Appends a completed outline to the innermost open folder, or to the root list. */
  method PushOutline(stack: seq<seq<Outline>>, root: seq<Outline>, outline: Outline)
    returns (stack': seq<seq<Outline>>, root': seq<Outline>)
    ensures forall s: State {:trigger Push(s, outline)} :: s.stack == stack && s.root == root ==>
      Push(s, outline) == s.(stack := stack', root := root')
  {
    if stack != [] {
      stack', root' := stack[|stack| - 1 := stack[|stack| - 1] + [outline]], root;
    } else {
      stack', root' := stack, root + [outline];
    }
  }

  method ParseOutlineAttrs(attributes: seq<Attribute>) returns (r: Result<Outline, OpmlError>)
    ensures r == OutlineOf(attributes)
  {
    var o := BLANK;
    for i := 0 to |attributes|
      invariant ReadAttributes(attributes, BLANK) == ReadAttributes(attributes[i..], o)
    {
      if attributes[i].BadAttribute? { return Err(BadAttributes); }
      o := WithAttribute(o, attributes[i]);
      assert attributes[i..][1..] == attributes[i + 1..];
    }
    if o.text == "" { o := o.(text := o.title.GetOr("")); }
    r := Ok(o);
  }

  // ----------------------------------------------------------------------
  // Printing
  // ----------------------------------------------------------------------

  function AttributesOf(o: Outline): seq<Attribute> {
    [Attribute(KText, o.text)]
    + (if o.title.Some? then [Attribute(KTitle, o.title.value)] else [])
    + (if o.xmlUrl.Some?
       then [Attribute(KType, o.feedType.GetOr("rss")), Attribute(KXmlUrl, o.xmlUrl.value)]
       else [])
    + (if o.htmlUrl.Some? then [Attribute(KHtmlUrl, o.htmlUrl.value)] else [])
  }

  function OutlineEvents(o: Outline): seq<Event>
    decreases o, 1
  {
    if o.children == [] then [Empty(OutlineTag, AttributesOf(o))]
    else [Start(OutlineTag, AttributesOf(o))] + ForestEvents(o.children) + [End(OutlineTag)]
  }

  function ForestEvents(forest: seq<Outline>): seq<Event>
    decreases forest, 0
  {
    if forest == [] then [] else OutlineEvents(forest[0]) + ForestEvents(forest[1..])
  }

  const PROLOGUE: seq<Event> := [OtherEvent, Start(OtherTag, []), Start(Head, []), Start(Title, [])]

  function Printed(title: string, forest: seq<Outline>): seq<Event> {
    PROLOGUE
    + [Text(Some(title)), End(Title), End(Head), Start(Body, [])]
    + ForestEvents(forest)
    + [End(Body), End(OtherTag)]
  }

  /** The printer appends to a writer, recursively for folders with children. */
  method GenerateOpml(title: string, outlines: seq<Outline>) returns (written: seq<Event>)
    ensures written == Printed(title, outlines)
  {
    written := [OtherEvent, Start(OtherTag, []), Start(Head, []), Start(Title, [])];
    written := written + [Text(Some(title)), End(Title), End(Head), Start(Body, [])];
    ghost var header := written;
    for i := 0 to |outlines|
      invariant written + ForestEvents(outlines[i..]) == header + ForestEvents(outlines)
    {
      var chunk := WriteOutline(outlines[i]);
      assert outlines[i..][1..] == outlines[i + 1..];
      assert written + ForestEvents(outlines[i..]) == (written + chunk) + ForestEvents(outlines[i + 1..]);
      written := written + chunk;
    }
    assert written == header + ForestEvents(outlines);
    written := written + [End(Body), End(OtherTag)];
  }

  method WriteOutline(outline: Outline) returns (written: seq<Event>)
    ensures written == OutlineEvents(outline)
    decreases outline
  {
    var attributes := AttributesOf(outline);
    if outline.children == [] {
      return [Empty(OutlineTag, attributes)];
    }
    written := [Start(OutlineTag, attributes)];
    for i := 0 to |outline.children|
      invariant written + ForestEvents(outline.children[i..])
             == [Start(OutlineTag, attributes)] + ForestEvents(outline.children)
    {
      var chunk := WriteOutline(outline.children[i]);
      assert outline.children[i..][1..] == outline.children[i + 1..];
      assert written + ForestEvents(outline.children[i..]) == (written + chunk) + ForestEvents(outline.children[i + 1..]);
      written := written + chunk;
    }
    assert written == [Start(OutlineTag, attributes)] + ForestEvents(outline.children);
    written := written + [End(OutlineTag)];
  }

  // ----------------------------------------------------------------------
  // Counting
  // ----------------------------------------------------------------------

  /** The outlines of a forest in document order, each without its children. */
  ghost function Labels(forest: seq<Outline>): seq<Outline> {
    if forest == [] then []
    else [forest[0].Label()] + Labels(forest[0].children) + Labels(forest[1..])
  }

  ghost function FeedCount(labels: seq<Outline>): nat {
    if labels == [] then 0 else (if labels[0].IsFeed() then 1 else 0) + FeedCount(labels[1..])
  }

  lemma {:induction false} FeedCountConcat(a: seq<Outline>, b: seq<Outline>)
    ensures FeedCount(a + b) == FeedCount(a) + FeedCount(b)
  {
    if a == [] {
      assert a + b == b;
    } else {
      assert (a + b)[1..] == a[1..] + b;
      FeedCountConcat(a[1..], b);
    }
  }

  method CountOutlines(outlines: seq<Outline>) returns (feeds: nat, folders: nat)
    ensures feeds == FeedCount(Labels(outlines))
    ensures feeds + folders == |Labels(outlines)|
  {
    feeds, folders := 0, 0;
    for i := 0 to |outlines|
      invariant feeds + FeedCount(Labels(outlines[i..])) == FeedCount(Labels(outlines))
      invariant feeds + folders + |Labels(outlines[i..])| == |Labels(outlines)|
    {
      CountUnfold(outlines[i..]);
      feeds, folders := CountRecursive(outlines[i], feeds, folders);
      assert outlines[i..][1..] == outlines[i + 1..];
    }
  }

  lemma CountUnfold(forest: seq<Outline>)
    requires forest != []
    ensures FeedCount(Labels(forest))
         == (if forest[0].IsFeed() then 1 else 0) + FeedCount(Labels(forest[0].children)) + FeedCount(Labels(forest[1..]))
  {
    FeedCountConcat([forest[0].Label()] + Labels(forest[0].children), Labels(forest[1..]));
    FeedCountConcat([forest[0].Label()], Labels(forest[0].children));
  }

  method CountRecursive(outline: Outline, feeds: nat, folders: nat) returns (feeds': nat, folders': nat)
    ensures feeds' == feeds + (if outline.IsFeed() then 1 else 0) + FeedCount(Labels(outline.children))
    ensures feeds' + folders' == feeds + folders + 1 + |Labels(outline.children)|
    decreases outline
  {
    if outline.IsFeed() {
      feeds', folders' := feeds + 1, folders;
    } else {
      feeds', folders' := feeds, folders + 1;
    }
    ghost var (f, n) := (feeds', feeds' + folders');
    for i := 0 to |outline.children|
      invariant feeds' + FeedCount(Labels(outline.children[i..])) == f + FeedCount(Labels(outline.children))
      invariant feeds' + folders' + |Labels(outline.children[i..])| == n + |Labels(outline.children)|
    {
      CountUnfold(outline.children[i..]);
      feeds', folders' := CountRecursive(outline.children[i], feeds', folders');
      assert outline.children[i..][1..] == outline.children[i + 1..];
    }
  }
}
