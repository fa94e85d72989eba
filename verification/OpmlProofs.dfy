/**
 What the OPML parser keeps, for every event stream, and how it undoes the printer.
 */
module OpmlProofs {
  import opened Wrappers
  import Text
  import opened Opml

  // The parser's state is a zipper: the finished root list followed by the open frames,
  // innermost last, spells the outlines met so far in document order. Every step
  // preserves that reading, including the early pop caused by a feed that is written
  // with an explicit end tag; only the nesting can suffer, never an outline.

  // ----------------------------------------------------------------------
  // The shape every reachable state has
  // ----------------------------------------------------------------------

  ghost predicate FeedsAreLeaves(forest: seq<Outline>) {
    forest != [] ==>
      && (forest[0].IsFeed() ==> forest[0].children == [])
      && FeedsAreLeaves(forest[0].children)
      && FeedsAreLeaves(forest[1..])
  }

  lemma {:induction false} FeedsAreLeavesConcat(a: seq<Outline>, b: seq<Outline>)
    ensures FeedsAreLeaves(a + b) <==> FeedsAreLeaves(a) && FeedsAreLeaves(b)
  {
    if a == [] {
      assert a + b == b;
    } else {
      assert (a + b)[1..] == a[1..] + b;
      FeedsAreLeavesConcat(a[1..], b);
    }
  }

  lemma {:induction false} LabelsConcat(a: seq<Outline>, b: seq<Outline>)
    ensures Labels(a + b) == Labels(a) + Labels(b)
  {
    if a == [] {
      assert a + b == b;
    } else {
      assert (a + b)[1..] == a[1..] + b;
      LabelsConcat(a[1..], b);
    }
  }

  /** An open frame holds a childless folder in front. */
  ghost predicate GoodFrame(frame: seq<Outline>) {
    && frame != [] && !frame[0].IsFeed() && frame[0].children == []
    && FeedsAreLeaves(frame)
  }

  ghost predicate Good(s: State) {
    && (forall frame <- s.stack :: GoodFrame(frame))
    && FeedsAreLeaves(s.root)
  }

  ghost function StackLabels(stack: seq<seq<Outline>>): seq<Outline> {
    if stack == [] then [] else StackLabels(stack[..|stack| - 1]) + Labels(stack[|stack| - 1])
  }

  /** Reading the zipper: what is finished, then what is still open. */
  ghost function Reading(s: State): seq<Outline> { Labels(s.root) + StackLabels(s.stack) }

  // ----------------------------------------------------------------------
  // The outlines a stream opens, read off the stream alone
  // ----------------------------------------------------------------------

  ghost predicate Opens(e: Event) {
    (e.Start? || e.Empty?) && e.name == OutlineTag && OutlineOf(e.attributes).Ok?
  }

  ghost function BodyAfter(e: Event, inBody: bool): bool {
    if e.Start? && e.name == Body then true
    else if e.End? && e.name == Body then false
    else inBody
  }

  ghost function Opened(events: seq<Event>, inBody: bool): seq<Outline> {
    if events == [] then []
    else (if inBody && Opens(events[0]) then [OutlineOf(events[0].attributes).value] else [])
         + Opened(events[1..], BodyAfter(events[0], inBody))
  }

  // ----------------------------------------------------------------------
  // Conservation
  // ----------------------------------------------------------------------

  lemma {:induction false} ReadAttributesHasNoChildren(attributes: seq<Attribute>, o: Outline)
    requires o.children == []
    ensures var r := ReadAttributes(attributes, o); r.Ok? ==> r.value.children == []
  {
    if attributes != [] && attributes[0].Attribute? {
      ReadAttributesHasNoChildren(attributes[1..], WithAttribute(o, attributes[0]));
    }
  }

  lemma PushKeeps(s: State, o: Outline)
    requires Good(s) && FeedsAreLeaves([o])
    ensures Good(Push(s, o))
    ensures Reading(Push(s, o)) == Reading(s) + Labels([o])
  {
    if s.stack == [] {
      LabelsConcat(s.root, [o]);
      FeedsAreLeavesConcat(s.root, [o]);
    } else {
      var top := |s.stack| - 1;
      var s' := Push(s, o);
      LabelsConcat(s.stack[top], [o]);
      FeedsAreLeavesConcat(s.stack[top], [o]);
      assert s'.stack[..top] == s.stack[..top];
      assert s.stack[top] in s.stack && GoodFrame(s.stack[top]);
      assert GoodFrame(s'.stack[top]);
      assert Reading(s') == Labels(s.root) + (StackLabels(s.stack[..top]) + (Labels(s.stack[top]) + Labels([o])));
      assert forall frame <- s'.stack :: frame in s.stack || frame == s'.stack[top];
    }
  }

  lemma OpenKeeps(s: State, o: Outline)
    requires Good(s) && o.children == []
    ensures Good(OpenOutline(s, o))
    ensures Reading(OpenOutline(s, o)) == Reading(s) + [o]
  {
    assert o.Label() == o && Labels([o]) == [o];
    if o.IsFeed() {
      PushKeeps(s, o);
    } else {
      var s' := OpenOutline(s, o);
      assert s'.stack[..|s.stack|] == s.stack;
      assert GoodFrame([o]);
    }
  }

  lemma CloseKeeps(s: State)
    requires Good(s)
    ensures Good(CloseOutline(s))
    ensures Reading(CloseOutline(s)) == Reading(s)
  {
    if s.stack != [] {
      var frame, popped := s.stack[|s.stack| - 1], s.(stack := s.stack[..|s.stack| - 1]);
      assert GoodFrame(frame);
      FrameCloses(frame);
      PushKeeps(popped, frame[0].(children := frame[1..]));
      Regroup(Labels(s.root), StackLabels(popped.stack), Labels(frame));
    }
  }

  /** The folder a frame becomes reads as the frame did. */
  lemma FrameCloses(frame: seq<Outline>)
    requires GoodFrame(frame)
    ensures var folder := frame[0].(children := frame[1..]);
            FeedsAreLeaves([folder]) && Labels([folder]) == Labels(frame)
  {
    var folder := frame[0].(children := frame[1..]);
    OneOutline(folder);
    OneOutline(frame[0]);
    LabelsConcat([frame[0]], frame[1..]);
    FeedsAreLeavesConcat([frame[0]], frame[1..]);
    assert frame == [frame[0]] + frame[1..];
    assert [folder.Label()] + [] == [folder.Label()];
  }

  lemma OneOutline(o: Outline)
    ensures Labels([o]) == [o.Label()] + Labels(o.children)
    ensures FeedsAreLeaves([o]) <==> (o.IsFeed() ==> o.children == []) && FeedsAreLeaves(o.children)
  {
  }

  /** One event adds exactly the outline it opens, at the end, and loses nothing. */
  lemma StepConserves(s: State, e: Event)
    requires Good(s) && Step(s, e).Ok?
    ensures Good(Step(s, e).value)
    ensures Step(s, e).value.inBody == BodyAfter(e, s.inBody)
    ensures Reading(Step(s, e).value)
         == Reading(s) + (if s.inBody && Opens(e) then [OutlineOf(e.attributes).value] else [])
  {
    if s.inBody && Opens(e) {
      ReadAttributesHasNoChildren(e.attributes, BLANK);
      var o := OutlineOf(e.attributes).value;
      if e.Start? {
        OpenKeeps(s, o);
      } else {
        assert Labels([o]) == [o];
        PushKeeps(s, o);
      }
    } else if s.inBody && e == End(OutlineTag) {
      CloseKeeps(s);
    } else {
      OtherEventsPass(s, e);
      assert Reading(s) + [] == Reading(s);
    }
  }

  lemma OtherEventsPass(s: State, e: Event)
    requires Step(s, e).Ok? && !(s.inBody && (Opens(e) || e == End(OutlineTag)))
    ensures Step(s, e).value.stack == s.stack && Step(s, e).value.root == s.root
    ensures Step(s, e).value.inBody == BodyAfter(e, s.inBody)
  {
  }

  /** Whatever the stream, the state reads as exactly the outlines opened so far. */
  lemma {:induction false} RunConserves(events: seq<Event>, s: State)
    requires Good(s) && Run(events, s).Ok?
    ensures Good(Run(events, s).value)
    ensures Reading(Run(events, s).value) == Reading(s) + Opened(events, s.inBody)
  {
    if events == [] {
      assert Reading(s) + [] == Reading(s);
    } else {
      var e, rest := events[0], events[1..];
      var s' := Step(s, e).value;
      StepConserves(s, e);
      RunConserves(rest, s');
      Regroup(Reading(s), if s.inBody && Opens(e) then [OutlineOf(e.attributes).value] else [], Opened(rest, s'.inBody));
    }
  }

  lemma Regroup(a: seq<Outline>, b: seq<Outline>, c: seq<Outline>)
    ensures (a + b) + c == a + (b + c)
  {
  }

  /** XML nesting of the body's outlines: `depth` of them are open. */
  ghost predicate WellNested(events: seq<Event>, inBody: bool, depth: nat) {
    if events == [] then depth == 0
    else
      var e, rest := events[0], events[1..];
      if e.Start? && e.name == OutlineTag && inBody then WellNested(rest, inBody, depth + 1)
      else if e.End? && e.name == OutlineTag && inBody then depth > 0 && WellNested(rest, inBody, depth - 1)
      else if e.End? && e.name == Body then depth == 0 && WellNested(rest, false, 0)
      else WellNested(rest, BodyAfter(e, inBody), depth)
  }

  /** The parser never has more frames than there are open outlines. */
  lemma {:induction false} NestingEmptiesTheStack(events: seq<Event>, s: State, depth: nat)
    requires Good(s) && Run(events, s).Ok?
    requires WellNested(events, s.inBody, depth) && |s.stack| <= depth
    ensures Run(events, s).value.stack == []
  {
    if events != [] {
      var e := events[0];
      StepConserves(s, e);
      NestedStep(events, s.inBody, depth);
      StackWithinDepth(s, e, depth);
      NestingEmptiesTheStack(events[1..], Step(s, e).value, DepthAfter(e, s.inBody, depth));
    }
  }

  ghost function DepthAfter(e: Event, inBody: bool, depth: nat): nat {
    if e.Start? && e.name == OutlineTag && inBody then depth + 1
    else if e.End? && e.name == OutlineTag && inBody && depth > 0 then depth - 1
    else depth
  }

  lemma NestedStep(events: seq<Event>, inBody: bool, depth: nat)
    requires events != [] && WellNested(events, inBody, depth)
    ensures WellNested(events[1..], BodyAfter(events[0], inBody), DepthAfter(events[0], inBody, depth))
    ensures events[0] == End(OutlineTag) && inBody ==> depth > 0
  {
  }

  lemma StackWithinDepth(s: State, e: Event, depth: nat)
    requires Step(s, e).Ok? && |s.stack| <= depth && (e == End(OutlineTag) && s.inBody ==> depth > 0)
    ensures |Step(s, e).value.stack| <= DepthAfter(e, s.inBody, depth)
  {
  }

  /** No outline of a well-nested body is lost, duplicated or reordered, even when a feed
      has an explicit end tag or outlines nested in it. */
  lemma ParseConservesOutlines(events: seq<Event>)
    requires WellNested(events, false, 0)
    requires Parsed(events).Ok?
    ensures Labels(Parsed(events).value.outlines) == Opened(events, false)
  {
    RunEndsConserved(events);
  }

  lemma RunEndsConserved(events: seq<Event>)
    requires WellNested(events, false, 0) && Run(events, INITIAL_STATE).Ok?
    ensures Labels(Run(events, INITIAL_STATE).value.root) == Opened(events, false)
  {
    NestingEmptiesTheStack(events, INITIAL_STATE, 0);
    RunConserves(events, INITIAL_STATE);
    ClosedReads(INITIAL_STATE);
    ClosedReads(Run(events, INITIAL_STATE).value);
    assert [] + Opened(events, false) == Opened(events, false);
  }

  lemma ClosedReads(s: State)
    requires s.stack == []
    ensures Reading(s) == Labels(s.root)
  {
    assert Labels(s.root) + [] == Labels(s.root);
  }

  /** A parsed feed never has children. */
  lemma ParsedFeedsAreLeaves(events: seq<Event>)
    requires Parsed(events).Ok?
    ensures FeedsAreLeaves(Parsed(events).value.outlines)
  {
    RunConserves(events, INITIAL_STATE);
  }

  // ----------------------------------------------------------------------
  // Round trip
  // ----------------------------------------------------------------------

  /** What survives a trip through a file: an empty text becomes the title, a feed's
      missing type becomes "rss", a folder's type is dropped. */
  ghost function Normal(forest: seq<Outline>): seq<Outline> {
    if forest == [] then []
    else
      var o := forest[0];
      [Outline(
         if o.text == "" then o.title.GetOr("") else o.text,
         o.title, o.xmlUrl, o.htmlUrl,
         if o.xmlUrl.Some? then Some(o.feedType.GetOr("rss")) else None,
         Normal(o.children))]
      + Normal(forest[1..])
  }

  lemma {:induction false} ReadAttributesConcat(a: seq<Attribute>, b: seq<Attribute>, o: Outline)
    requires ReadAttributes(a, o).Ok?
    ensures ReadAttributes(a + b, o) == ReadAttributes(b, ReadAttributes(a, o).value)
  {
    if a == [] {
      assert a + b == b;
    } else {
      assert (a + b)[1..] == a[1..] + b;
      ReadAttributesConcat(a[1..], b, WithAttribute(o, a[0]));
    }
  }

  lemma AttributesRoundTrip(o: Outline)
    ensures OutlineOf(AttributesOf(o)) == Ok(Normal([o])[0].Label())
  {
    var a1 := [Attribute(KText, o.text)];
    var a2 := if o.title.Some? then [Attribute(KTitle, o.title.value)] else [];
    var a3 := if o.xmlUrl.Some?
              then [Attribute(KType, o.feedType.GetOr("rss")), Attribute(KXmlUrl, o.xmlUrl.value)]
              else [];
    var a4 := if o.htmlUrl.Some? then [Attribute(KHtmlUrl, o.htmlUrl.value)] else [];
    var o1 := BLANK.(text := o.text);
    var o2 := o1.(title := o.title);
    var o3 := o2.(xmlUrl := o.xmlUrl, feedType := if o.xmlUrl.Some? then Some(o.feedType.GetOr("rss")) else None);
    assert ReadAttributes(a1, BLANK) == Ok(o1);
    assert ReadAttributes(a2, o1) == Ok(o2);
    assert ReadAttributes(a3, o2) == Ok(o3) by {
      if o.xmlUrl.Some? {
        assert a3[1..] == [a3[1]] && [a3[1]][1..] == [];
        assert ReadAttributes(a3[1..], o2.(feedType := o3.feedType)) == Ok(o3);
      }
    }
    assert ReadAttributes(a4, o3) == Ok(o3.(htmlUrl := o.htmlUrl));
    ReadAttributesConcat(a1, a2, BLANK);
    ReadAttributesConcat(a1 + a2, a3, BLANK);
    ReadAttributesConcat(a1 + a2 + a3, a4, BLANK);
    assert AttributesOf(o) == a1 + a2 + a3 + a4;
  }

  ghost function PushAll(s: State, forest: seq<Outline>): State
    decreases forest
  {
    if forest == [] then s else PushAll(Push(s, forest[0]), forest[1..])
  }

  lemma {:induction false} PushAllOnFrame(s: State, forest: seq<Outline>)
    requires s.stack != []
    ensures var top := |s.stack| - 1; PushAll(s, forest) == s.(stack := s.stack[top := s.stack[top] + forest])
    decreases forest
  {
    var top := |s.stack| - 1;
    if forest == [] {
      assert s.stack[top] + forest == s.stack[top];
    } else {
      PushAllOnFrame(Push(s, forest[0]), forest[1..]);
      assert s.stack[top] + [forest[0]] + forest[1..] == s.stack[top] + forest;
    }
  }

  lemma {:induction false} PushAllOnRoot(s: State, forest: seq<Outline>)
    requires s.stack == []
    ensures PushAll(s, forest) == s.(root := s.root + forest)
    decreases forest
  {
    if forest == [] {
      assert s.root + forest == s.root;
    } else {
      PushAllOnRoot(Push(s, forest[0]), forest[1..]);
      assert s.root + [forest[0]] + forest[1..] == s.root + forest;
    }
  }

  /** Reading back a printed forest pushes the normal forms of its trees, in order, onto
      whatever is open at that point. */
  lemma {:induction false} ForestRoundTrip(forest: seq<Outline>, rest: seq<Event>, s: State)
    requires s.inBody && FeedsAreLeaves(forest)
    ensures Run(ForestEvents(forest) + rest, s) == Run(rest, PushAll(s, Normal(forest)))
    decreases forest, 0
  {
    if forest == [] {
      assert ForestEvents(forest) + rest == rest;
    } else {
      var o, tail := forest[0], forest[1..];
      var rest' := ForestEvents(tail) + rest;
      var n := Normal([o])[0];
      assert Normal(forest) == [n] + Normal(tail);
      assert ForestEvents(forest) + rest == OutlineEvents(o) + rest';
      OutlineRoundTrip(o, rest', s);
      ForestRoundTrip(tail, rest, Push(s, n));
    }
  }

  lemma {:induction false} OutlineRoundTrip(o: Outline, rest: seq<Event>, s: State)
    requires s.inBody && FeedsAreLeaves([o])
    ensures Run(OutlineEvents(o) + rest, s) == Run(rest, Push(s, Normal([o])[0]))
    decreases o, 1
  {
    var n := Normal([o])[0];
    if o.children == [] {
      LeafRoundTrip(o, rest, s);
    } else {
      var inner := ForestEvents(o.children) + ([End(OutlineTag)] + rest);
      assert OutlineEvents(o) + rest == [Start(OutlineTag, AttributesOf(o))] + inner;
      var open := s.(stack := s.stack + [[n.Label()]]);
      FolderOpens(o, inner, s);
      ForestRoundTrip(o.children, [End(OutlineTag)] + rest, open);
      PushAllOnFrame(open, n.children);
      assert PushAll(open, n.children) == s.(stack := s.stack + [[n.Label()] + n.children]);
      FolderCloses(s, n, rest);
    }
  }

  lemma LeafRoundTrip(o: Outline, rest: seq<Event>, s: State)
    requires s.inBody && o.children == []
    ensures Run(OutlineEvents(o) + rest, s) == Run(rest, Push(s, Normal([o])[0]))
  {
    var n := Normal([o])[0];
    AttributesRoundTrip(o);
    assert (OutlineEvents(o) + rest)[1..] == rest;
    assert n.children == [] && n.Label() == n;
  }

  lemma FolderOpens(o: Outline, rest: seq<Event>, s: State)
    requires s.inBody && !o.IsFeed()
    ensures Run([Start(OutlineTag, AttributesOf(o))] + rest, s) == Run(rest, s.(stack := s.stack + [[Normal([o])[0].Label()]]))
  {
    AttributesRoundTrip(o);
    assert ([Start(OutlineTag, AttributesOf(o))] + rest)[1..] == rest;
  }

  lemma FolderCloses(s: State, n: Outline, rest: seq<Event>)
    requires s.inBody
    ensures Run([End(OutlineTag)] + rest, s.(stack := s.stack + [[n.Label()] + n.children])) == Run(rest, Push(s, n))
  {
    var filled := s.(stack := s.stack + [[n.Label()] + n.children]);
    assert filled.stack[..|s.stack|] == s.stack;
    assert ([n.Label()] + n.children)[1..] == n.children;
    assert CloseOutline(filled) == Push(s, n);
    assert ([End(OutlineTag)] + rest)[1..] == rest;
  }

  lemma PrologueRun(title: string, rest: seq<Event>)
    ensures Run(PROLOGUE + [Text(Some(title)), End(Title), End(Head), Start(Body, [])] + rest, INITIAL_STATE)
         == Run(rest, State(title, false, false, true, [], []))
  {
    var inside := State("", true, true, false, [], []);
    var head := [Text(Some(title)), End(Title), End(Head), Start(Body, [])];
    PrologueOpens();
    HeadCloses(title);
    RunConcat(PROLOGUE, head + rest, INITIAL_STATE);
    RunConcat(head, rest, inside);
    assert PROLOGUE + head + rest == PROLOGUE + (head + rest);
  }

  lemma PrologueOpens()
    ensures Run(PROLOGUE, INITIAL_STATE) == Ok(State("", true, true, false, [], []))
  {
    var s := State("", true, false, false, [], []);
    assert PROLOGUE[3..][1..] == [] && PROLOGUE[2..][1..] == PROLOGUE[3..];
    assert Run(PROLOGUE[3..], s) == Ok(s.(inTitle := true));
    assert Run(PROLOGUE[2..], INITIAL_STATE) == Run(PROLOGUE[3..], s);
    assert PROLOGUE[1..][1..] == PROLOGUE[2..];
  }

  lemma HeadCloses(title: string)
    ensures Run([Text(Some(title)), End(Title), End(Head), Start(Body, [])], State("", true, true, false, [], []))
         == Ok(State(title, false, false, true, [], []))
  {
    var s := State(title, true, true, false, [], []);
    var head := [Text(Some(title)), End(Title), End(Head), Start(Body, [])];
    assert head[3..][1..] == [] && head[2..][1..] == head[3..];
    assert Run(head[3..], State(title, false, false, false, [], [])) == Ok(State(title, false, false, true, [], []));
    assert Run(head[2..], s.(inTitle := false)) == Run(head[3..], State(title, false, false, false, [], []));
    assert head[1..][1..] == head[2..];
    assert Run(head[1..], s) == Run(head[2..], s.(inTitle := false));
    assert "" + title == title;
  }

  lemma EpilogueRun(s: State)
    ensures Run([End(Body), End(OtherTag)], s) == Ok(s.(inBody := false))
  {
    assert [End(Body), End(OtherTag)][1..] == [End(OtherTag)];
    assert Run([End(OtherTag)], s.(inBody := false)) == Ok(s.(inBody := false));
  }

  lemma LeafForestRoundTrip(title: string, forest: seq<Outline>)
    requires FeedsAreLeaves(forest)
    ensures Parsed(Printed(title, forest)) == Ok(Document(Text.Trim(title), Normal(forest)))
  {
    var epilogue := [End(Body), End(OtherTag)];
    var s := State(title, false, false, true, [], []);
    assert Printed(title, forest)
        == PROLOGUE + [Text(Some(title)), End(Title), End(Head), Start(Body, [])] + (ForestEvents(forest) + epilogue);
    PrologueRun(title, ForestEvents(forest) + epilogue);
    ForestRoundTrip(forest, epilogue, s);
    PushAllOnRoot(s, Normal(forest));
    assert s.root + Normal(forest) == Normal(forest);
    EpilogueRun(PushAll(s, Normal(forest)));
  }

  lemma {:induction false} NormalKeepsShape(forest: seq<Outline>)
    ensures FeedsAreLeaves(Normal(forest)) <==> FeedsAreLeaves(forest)
  {
    if forest != [] {
      var n := Normal(forest);
      assert n[1..] == Normal(forest[1..]);
      NormalKeepsShape(forest[0].children);
      NormalKeepsShape(forest[1..]);
      assert n[0].children == [] <==> forest[0].children == [];
    }
  }

  /** Reading back what was printed gives the normal form of the forest exactly when no
      feed has children. */
  lemma RoundTrip(title: string, forest: seq<Outline>)
    ensures Parsed(Printed(title, forest)) == Ok(Document(Text.Trim(title), Normal(forest))) <==> FeedsAreLeaves(forest)
  {
    if FeedsAreLeaves(forest) {
      LeafForestRoundTrip(title, forest);
    } else if Parsed(Printed(title, forest)) == Ok(Document(Text.Trim(title), Normal(forest))) {
      ParsedFeedsAreLeaves(Printed(title, forest));
      NormalKeepsShape(forest);
      assert false;
    }
  }

  // ----------------------------------------------------------------------
  // Forests whose feeds do have children
  // ----------------------------------------------------------------------

  lemma {:induction false} RunConcat(a: seq<Event>, b: seq<Event>, s: State)
    ensures Run(a + b, s) == if Run(a, s).Err? then Run(a, s) else Run(b, Run(a, s).value)
  {
    if a == [] {
      assert a + b == b;
    } else {
      assert (a + b)[1..] == a[1..] + b;
      if Step(s, a[0]).Ok? {
        RunConcat(a[1..], b, Step(s, a[0]).value);
      }
    }
  }

  /** A printed forest is well nested and opens the normal forms of its outlines in
      document order. */
  lemma {:induction false} PrintedForest(forest: seq<Outline>, rest: seq<Event>, depth: nat)
    ensures WellNested(ForestEvents(forest) + rest, true, depth) <==> WellNested(rest, true, depth)
    ensures Opened(ForestEvents(forest) + rest, true) == Labels(Normal(forest)) + Opened(rest, true)
    decreases forest, 0
  {
    if forest == [] {
      assert ForestEvents(forest) + rest == rest;
    } else {
      var o, tail := forest[0], forest[1..];
      assert Normal(forest) == [Normal([o])[0]] + Normal(tail);
      assert ForestEvents(forest) + rest == OutlineEvents(o) + (ForestEvents(tail) + rest);
      PrintedOutline(o, ForestEvents(tail) + rest, depth);
      PrintedForest(tail, rest, depth);
      LabelsConcat([Normal([o])[0]], Normal(tail));
      Regroup(Labels([Normal([o])[0]]), Labels(Normal(tail)), Opened(rest, true));
    }
  }

  lemma {:induction false} PrintedOutline(o: Outline, rest: seq<Event>, depth: nat)
    ensures WellNested(OutlineEvents(o) + rest, true, depth) <==> WellNested(rest, true, depth)
    ensures Opened(OutlineEvents(o) + rest, true) == Labels([Normal([o])[0]]) + Opened(rest, true)
    decreases o, 1
  {
    LabelsOfNormal(o);
    if o.children == [] {
      StreamHead(OutlineEvents(o)[0], rest, depth);
      assert OutlineEvents(o) + rest == [OutlineEvents(o)[0]] + rest;
    } else {
      PrintedForest(o.children, [End(OutlineTag)] + rest, depth + 1);
      PrintedAround(o, rest, depth);
    }
  }

  lemma PrintedAround(o: Outline, rest: seq<Event>, depth: nat)
    requires o.children != []
    requires var last := [End(OutlineTag)] + rest;
             && (WellNested(ForestEvents(o.children) + last, true, depth + 1) <==> WellNested(last, true, depth + 1))
             && Opened(ForestEvents(o.children) + last, true) == Labels(Normal(o.children)) + Opened(last, true)
    ensures WellNested(OutlineEvents(o) + rest, true, depth) <==> WellNested(rest, true, depth)
    ensures OutlineOf(AttributesOf(o)).Ok?
    ensures Opened(OutlineEvents(o) + rest, true)
         == [OutlineOf(AttributesOf(o)).value] + Labels(Normal(o.children)) + Opened(rest, true)
  {
    Spread(o, rest);
    AttributesRoundTrip(o);
    StreamHead(Start(OutlineTag, AttributesOf(o)), ForestEvents(o.children) + ([End(OutlineTag)] + rest), depth);
    StreamHead(End(OutlineTag), rest, depth + 1);
  }

  lemma LabelsOfNormal(o: Outline)
    ensures var n := Normal([o])[0];
            OutlineOf(AttributesOf(o)) == Ok(n.Label()) && Labels([n]) == [n.Label()] + Labels(Normal(o.children))
  {
    AttributesRoundTrip(o);
  }

  lemma Spread(o: Outline, rest: seq<Event>)
    requires o.children != []
    ensures OutlineEvents(o) + rest
         == [Start(OutlineTag, AttributesOf(o))] + (ForestEvents(o.children) + ([End(OutlineTag)] + rest))
  {
  }

  lemma StreamHead(e: Event, rest: seq<Event>, depth: nat)
    requires e == End(OutlineTag) || Opens(e)
    requires e.End? ==> depth > 0
    ensures WellNested([e] + rest, true, depth)
       <==> WellNested(rest, true, if e.Start? then depth + 1 else if e.End? then depth - 1 else depth)
    ensures Opened([e] + rest, true) == (if Opens(e) then [OutlineOf(e.attributes).value] else []) + Opened(rest, true)
  {
    assert ([e] + rest)[1..] == rest;
  }

  /** A printed forest is read without error, in whatever state the body is. */
  lemma {:induction false} ForestReads(forest: seq<Outline>, s: State)
    requires s.inBody
    ensures Run(ForestEvents(forest), s).Ok? && Run(ForestEvents(forest), s).value.inBody
    decreases forest, 0
  {
    if forest != [] {
      OutlineReads(forest[0], s);
      ForestReads(forest[1..], Run(OutlineEvents(forest[0]), s).value);
      RunConcat(OutlineEvents(forest[0]), ForestEvents(forest[1..]), s);
    }
  }

  lemma {:induction false} OutlineReads(o: Outline, s: State)
    requires s.inBody
    ensures Run(OutlineEvents(o), s).Ok? && Run(OutlineEvents(o), s).value.inBody
    decreases o, 1
  {
    AttributesRoundTrip(o);
    var l := Normal([o])[0].Label();
    if o.children == [] {
      assert OutlineEvents(o)[1..] == [];
      assert Run([], Push(s, l)) == Ok(Push(s, l));
    } else {
      var first, body, last := [Start(OutlineTag, AttributesOf(o))], ForestEvents(o.children), [End(OutlineTag)];
      var s1 := OpenOutline(s, l);
      assert OutlineEvents(o)[1..] == body + last && OutlineEvents(o)[0] == first[0];
      ForestReads(o.children, s1);
      RunConcat(body, last, s1);
      var s2 := Run(body, s1).value;
      assert last[1..] == [] && Run([], CloseOutline(s2)) == Ok(CloseOutline(s2));
      assert Run(last, s2) == Ok(CloseOutline(s2));
    }
  }

  /** Printing and reading back any forest at all, feeds with children included, keeps
      every outline and their order; at worst the nesting flattens. */
  lemma PrintedOutlinesSurvive(title: string, forest: seq<Outline>)
    ensures Parsed(Printed(title, forest)).Ok?
    ensures Labels(Parsed(Printed(title, forest)).value.outlines) == Labels(Normal(forest))
  {
    var epilogue := [End(Body), End(OtherTag)];
    var body := ForestEvents(forest) + epilogue;
    var s := State(title, false, false, true, [], []);
    assert Printed(title, forest)
        == PROLOGUE + [Text(Some(title)), End(Title), End(Head), Start(Body, [])] + body;
    PrologueRun(title, body);
    ForestReads(forest, s);
    RunConcat(ForestEvents(forest), epilogue, s);
    EpilogueRun(Run(ForestEvents(forest), s).value);
    PrintedForest(forest, epilogue, 0);
    EpilogueStream();
    NestingEmptiesTheStack(body, s, 0);
    RunConserves(body, s);
    var s' := Run(body, s).value;
    assert Reading(s') == Labels(s'.root) && Reading(s) == [];
  }

  lemma EpilogueStream()
    ensures WellNested([End(Body), End(OtherTag)], true, 0)
    ensures Opened([End(Body), End(OtherTag)], true) == []
  {
    assert [End(Body), End(OtherTag)][1..] == [End(OtherTag)];
    assert [End(OtherTag)][1..] == [];
    assert WellNested([End(OtherTag)], false, 0);
    assert Opened([End(OtherTag)], false) == [];
  }

  /** Layout between the tags is ignored: text read anywhere but inside the title,
      decodable or not, can be inserted or removed freely. */
  lemma LayoutIgnored(before: seq<Event>, layout: Event, after: seq<Event>)
    requires layout.Text? || layout.CharRef? || layout.EntityRef? || layout.OtherEvent?
    requires var r := Run(before, INITIAL_STATE); r.Ok? && (layout.OtherEvent? || !r.value.inTitle)
    ensures Parsed(before + [layout] + after) == Parsed(before + after)
  {
    RunConcat(before, [layout] + after, INITIAL_STATE);
    RunConcat(before, after, INITIAL_STATE);
    assert before + [layout] + after == before + ([layout] + after);
    LayoutPasses(layout, after, Run(before, INITIAL_STATE).value);
  }

  lemma LayoutPasses(layout: Event, after: seq<Event>, s: State)
    requires layout.OtherEvent? || (!s.inTitle && (layout.Text? || layout.CharRef? || layout.EntityRef?))
    ensures Run([layout] + after, s) == Run(after, s)
  {
    assert ([layout] + after)[1..] == after;
  }

  /** A second trip through a file changes nothing more. */
  lemma {:induction false} NormalIdempotent(forest: seq<Outline>)
    ensures Normal(Normal(forest)) == Normal(forest)
  {
    if forest != [] {
      NormalIdempotent(forest[0].children);
      NormalIdempotent(forest[1..]);
      assert Normal(forest)[1..] == Normal(forest[1..]);
    }
  }

  /** Importing a file, exporting it and importing the export again yields the normal
      form of the first import, whatever the file's events were. */
  lemma ReexportStable(events: seq<Event>, title: string)
    requires Parsed(events).Ok?
    ensures var first := Parsed(events).value.outlines;
            Parsed(Printed(title, first)) == Ok(Document(Text.Trim(title), Normal(first)))
  {
    ParsedFeedsAreLeaves(events);
    LeafForestRoundTrip(title, Parsed(events).value.outlines);
  }

  /** The counter agrees with the stream: as many feeds and folders as were opened. */
  method CountAfterParse(events: seq<Event>) returns (r: Result<(nat, nat), OpmlError>)
    requires WellNested(events, false, 0)
    ensures r.Ok? <==> Parsed(events).Ok?
    ensures r.Ok? ==> r.value.0 == FeedCount(Opened(events, false))
    ensures r.Ok? ==> r.value.0 + r.value.1 == |Opened(events, false)|
  {
    var document := ParseOpml(events);
    if document.Err? { return Err(document.error); }
    ParseConservesOutlines(events);
    var feeds, folders := CountOutlines(document.value.outlines);
    r := Ok((feeds, folders));
  }
}
