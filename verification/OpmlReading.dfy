/** What a stream of events makes the parser report: the title, the first error, and the
    attributes of an outline, each read off the stream alone. */
module OpmlReading {
  import opened Wrappers
  import Text
  import opened Opml
  import opened OpmlProofs

  // ----------------------------------------------------------------------
  // Where in the document an event stands
  // ----------------------------------------------------------------------

  /** Which of the three elements that matter are open. */
  datatype Place = Place(head: bool, title: bool, body: bool)

  const OUTSIDE := Place(false, false, false)

  /** A title counts inside the head only, and leaving the head does not leave it. */
  ghost function PlaceAfter(p: Place, e: Event): Place {
    var opens, closes := e.Start?, e.End?;
    Place(
      if (opens || closes) && e.name == Head then opens else p.head,
      if p.head && (opens || closes) && e.name == Title then opens else p.title,
      if (opens || closes) && e.name == Body then opens else p.body)
  }

  /** Where event `k` of the stream stands. */
  ghost function PlaceAt(events: seq<Event>, k: nat): Place
    requires k <= |events|
  {
    if k == 0 then OUTSIDE else PlaceAfter(PlaceAt(events, k - 1), events[k - 1])
  }

  // ----------------------------------------------------------------------
  // Title text
  // ----------------------------------------------------------------------

  /** What an event stands for as text: a stretch of characters, a numbered character or a
      named one. Nothing, when it cannot be decoded. */
  ghost function Spelled(e: Event): Option<string>
    requires e.Text? || e.CharRef? || e.EntityRef?
  {
    match e
    case Text(fragment) => fragment
    case CharRef(c) => if c.Some? then Some([c.value]) else None
    case EntityRef(r) => r
  }

  ghost predicate IsText(e: Event) { e.Text? || e.CharRef? || e.EntityRef? }

  /** The decodable text of the first `k` events that stands inside the title. */
  ghost function TitleText(events: seq<Event>, k: nat): string
    requires k <= |events|
  {
    if k == 0 then ""
    else
      var e := events[k - 1];
      TitleText(events, k - 1) + if PlaceAt(events, k - 1).title && IsText(e) then Spelled(e).GetOr("") else ""
  }

  // ----------------------------------------------------------------------
  // Errors
  // ----------------------------------------------------------------------

  ghost predicate OpensOutline(e: Event) { (e.Start? || e.Empty?) && e.name == OutlineTag }

  /** What is wrong with an event where it stands, if anything. */
  ghost function FaultAt(events: seq<Event>, k: nat): Option<OpmlError>
    requires k < |events|
  {
    var e, p := events[k], PlaceAt(events, k);
    if e.Malformed? then Some(BadXml)
    else if p.body && OpensOutline(e) && BadAttribute in e.attributes then Some(BadAttributes)
    else if p.title && IsText(e) && Spelled(e).None? then Some(if e.Text? then BadText else BadReference)
    else None
  }

  ghost predicate FaultFree(events: seq<Event>, k: nat)
    requires k <= |events|
  {
    forall i :: 0 <= i < k ==> FaultAt(events, i).None?
  }

  // ----------------------------------------------------------------------
  // Attributes
  // ----------------------------------------------------------------------

  /** The last value given for a key. */
  ghost function Given(attributes: seq<Attribute>, key: Key): Option<string> {
    if attributes == [] then None
    else
      var a := attributes[|attributes| - 1];
      if a.Attribute? && a.key == key then Some(a.value) else Given(attributes[..|attributes| - 1], key)
  }

  lemma {:induction false} GivenCons(a: Attribute, rest: seq<Attribute>, key: Key)
    ensures Given([a] + rest, key) ==
            if Given(rest, key).Some? then Given(rest, key) else if a.Attribute? && a.key == key then Some(a.value) else None
  {
    var all := [a] + rest;
    if rest == [] {
      assert all[..|all| - 1] == [];
    } else {
      assert all[..|all| - 1] == [a] + rest[..|rest| - 1];
      GivenCons(a, rest[..|rest| - 1], key);
    }
  }

  lemma {:induction false} ReadsGiven(attributes: seq<Attribute>, o: Outline)
    ensures ReadAttributes(attributes, o) == if BadAttribute in attributes then Err(BadAttributes) else Ok(Outline(
              Given(attributes, KText).GetOr(o.text),
              if Given(attributes, KTitle).Some? then Given(attributes, KTitle) else o.title,
              if Given(attributes, KXmlUrl).Some? then Given(attributes, KXmlUrl) else o.xmlUrl,
              if Given(attributes, KHtmlUrl).Some? then Given(attributes, KHtmlUrl) else o.htmlUrl,
              if Given(attributes, KType).Some? then Given(attributes, KType) else o.feedType,
              o.children))
  {
    if attributes != [] {
      var a, rest := attributes[0], attributes[1..];
      assert attributes == [a] + rest;
      forall key
        ensures Given(attributes, key) ==
                (if Given(rest, key).Some? then Given(rest, key) else if a.Attribute? && a.key == key then Some(a.value) else None)
      {
        GivenCons(a, rest, key);
      }
      if a.Attribute? { ReadsGiven(rest, WithAttribute(o, a)); }
    }
  }


  /** An outline's attributes: of each key the last value counts, an undecodable attribute
      spoils the outline, and an outline without text takes its title for one. */
  lemma AttributesGive(attributes: seq<Attribute>)
    ensures var title := Given(attributes, KTitle);
            var text := Given(attributes, KText).GetOr("");
            OutlineOf(attributes) == if BadAttribute in attributes then Err(BadAttributes) else Ok(Outline(
              if text == "" && title.Some? then title.value else text,
              title, Given(attributes, KXmlUrl), Given(attributes, KHtmlUrl), Given(attributes, KType), []))
  {
    ReadsGiven(attributes, BLANK);
  }

  // ----------------------------------------------------------------------
  // Runs
  // ----------------------------------------------------------------------

  /** A state of the parser after `k` events without a fault. */
  ghost predicate Stands(events: seq<Event>, k: nat, s: State)
    requires k <= |events|
  {
    Place(s.inHead, s.inTitle, s.inBody) == PlaceAt(events, k) && s.title == TitleText(events, k)
  }

  lemma StepReports(events: seq<Event>, k: nat, s: State)
    requires k < |events| && Stands(events, k, s)
    ensures match FaultAt(events, k)
            case Some(error) => Step(s, events[k]) == Err(error)
            case None => Step(s, events[k]).Ok? && Stands(events, k + 1, Step(s, events[k]).value)
  {
    TextStays(s.title);
    if OpensOutline(events[k]) { OutlineReports(s, events[k]); }
  }

  lemma OutlineReports(s: State, e: Event)
    requires OpensOutline(e)
    ensures s.inBody && BadAttribute in e.attributes ==> Step(s, e) == Err(BadAttributes)
    ensures !(s.inBody && BadAttribute in e.attributes) ==>
              && Step(s, e).Ok? && Step(s, e).value.title == s.title && Step(s, e).value.inHead == s.inHead
              && Step(s, e).value.inTitle == s.inTitle && Step(s, e).value.inBody == s.inBody
  {
    AttributesGive(e.attributes);
  }

  lemma TextStays(t: string)
    ensures t + "" == t
  {
  }

  lemma {:induction false} RunStands(events: seq<Event>, k: nat)
    requires k <= |events| && FaultFree(events, k)
    ensures Run(events[..k], INITIAL_STATE).Ok? && Stands(events, k, Run(events[..k], INITIAL_STATE).value)
  {
    if k > 0 {
      RunStands(events, k - 1);
      var s := Run(events[..k - 1], INITIAL_STATE).value;
      StepReports(events, k - 1, s);
      RunConcat(events[..k - 1], [events[k - 1]], INITIAL_STATE);
      assert events[..k] == events[..k - 1] + [events[k - 1]];
      RunOne(events[k - 1], s);
    }
  }

  lemma RunOne(e: Event, s: State)
    ensures Run([e], s) == Step(s, e)
  {
    assert [e][1..] == [];
  }

  lemma RunHead(e: Event, rest: seq<Event>, s: State)
    requires Step(s, e).Err?
    ensures Run([e] + rest, s) == Err(Step(s, e).error)
  {
    assert ([e] + rest)[0] == e;
  }

  /** Parsing fails exactly at the first event that is malformed XML, an outline of the body
      with an undecodable attribute, or undecodable text inside the title, and that event
      names the error. */
  lemma FailsAtFirstFault(events: seq<Event>, k: nat)
    requires k < |events| && FaultFree(events, k) && FaultAt(events, k).Some?
    ensures Parsed(events) == Err(FaultAt(events, k).value)
  {
    RunStands(events, k);
    var s := Run(events[..k], INITIAL_STATE).value;
    StepReports(events, k, s);
    RunConcat(events[..k], events[k..], INITIAL_STATE);
    assert events == events[..k] + events[k..] && events[k..] == [events[k]] + events[k + 1..];
    RunHead(events[k], events[k + 1..], s);
  }

  lemma {:induction false} FirstFault(events: seq<Event>, n: nat) returns (k: nat)
    requires n <= |events| && !FaultFree(events, n)
    ensures k < n && FaultFree(events, k) && FaultAt(events, k).Some?
  {
    if FaultFree(events, n - 1) { k := n - 1; } else { k := FirstFault(events, n - 1); }
  }

  /** A stream is accepted exactly when no event of it is faulty, and then the title is the
      text inside the title element, however it was split and spelled, trimmed. */
  lemma ParsedExactly(events: seq<Event>)
    ensures Parsed(events).Ok? <==> FaultFree(events, |events|)
    ensures Parsed(events).Ok? ==> Parsed(events).value.title == Text.Trim(TitleText(events, |events|))
  {
    if FaultFree(events, |events|) {
      RunStands(events, |events|);
      assert events[..|events|] == events;
    } else {
      var k := FirstFault(events, |events|);
      FailsAtFirstFault(events, k);
    }
  }

  // ----------------------------------------------------------------------
  // A title in pieces
  // ----------------------------------------------------------------------

  ghost function Concat(pieces: seq<string>): string {
    if pieces == [] then "" else Concat(pieces[..|pieces| - 1]) + pieces[|pieces| - 1]
  }

  /** A document whose title arrives in pieces. */
  ghost function Titled(pieces: seq<Event>, rest: seq<Event>): seq<Event> {
    PROLOGUE + pieces + [End(Title), End(Head)] + rest
  }

  lemma NothingSpelled(events: seq<Event>, k: nat)
    requires k < |events| && !(PlaceAt(events, k).title && IsText(events[k]))
    ensures TitleText(events, k + 1) == TitleText(events, k)
  {
    TextStays(TitleText(events, k));
  }

  lemma PrologueStands(pieces: seq<Event>, rest: seq<Event>)
    ensures var events := Titled(pieces, rest);
            PlaceAt(events, 4) == Place(true, true, false) && TitleText(events, 4) == "" && FaultFree(events, 4)
  {
    var events := Titled(pieces, rest);
    assert events[0] == OtherEvent && events[1] == Start(OtherTag, []) && events[2] == Start(Head, []) && events[3] == Start(Title, []);
    assert PlaceAt(events, 1) == PlaceAfter(OUTSIDE, events[0]) == OUTSIDE;
    assert PlaceAt(events, 2) == PlaceAfter(OUTSIDE, events[1]) == OUTSIDE;
    assert PlaceAt(events, 3) == Place(true, false, false);
    NothingSpelled(events, 0);
    NothingSpelled(events, 1);
    NothingSpelled(events, 2);
    NothingSpelled(events, 3);
  }

  lemma {:induction false} PiecesSpell(pieces: seq<Event>, texts: seq<string>, rest: seq<Event>, n: nat)
    requires |texts| == |pieces| && forall i :: 0 <= i < |pieces| ==> IsText(pieces[i]) && Spelled(pieces[i]) == Some(texts[i])
    requires n <= |pieces|
    ensures var events := Titled(pieces, rest);
            && PlaceAt(events, 4 + n) == Place(true, true, false) && FaultFree(events, 4 + n)
            && TitleText(events, 4 + n) == Concat(texts[..n])
  {
    if n == 0 {
      PrologueStands(pieces, rest);
    } else {
      PiecesSpell(pieces, texts, rest, n - 1);
      assert Titled(pieces, rest)[4 + n - 1] == pieces[n - 1];
      assert texts[..n][..n - 1] == texts[..n - 1];
    }
  }

  /** Nothing behind the head starts a title again. */
  ghost predicate NoTitle(rest: seq<Event>) {
    forall e <- rest :: !(e.Start? && e.name == Title)
  }

  lemma {:induction false} BehindHead(pieces: seq<Event>, texts: seq<string>, rest: seq<Event>, n: nat)
    requires |texts| == |pieces| && forall i :: 0 <= i < |pieces| ==> IsText(pieces[i]) && Spelled(pieces[i]) == Some(texts[i])
    requires NoTitle(rest) && n <= |rest|
    ensures var events, k := Titled(pieces, rest), 4 + |pieces| + 2 + n;
            !PlaceAt(events, k).title && TitleText(events, k) == Concat(texts)
  {
    var events, m := Titled(pieces, rest), 4 + |pieces|;
    if n == 0 {
      PiecesSpell(pieces, texts, rest, |pieces|);
      assert texts[..|pieces|] == texts;
      assert events[m] == End(Title) && events[m + 1] == End(Head);
      assert PlaceAt(events, m + 1) == Place(true, false, false);
      NothingSpelled(events, m);
      NothingSpelled(events, m + 1);
    } else {
      BehindHead(pieces, texts, rest, n - 1);
      assert events[m + 2 + n - 1] == rest[n - 1] && rest[n - 1] in rest;
      NothingSpelled(events, m + 2 + n - 1);
    }
  }

  /** A title that arrives as any mixture of text, numbered and named characters is the
      pieces put together in order, with nothing lost at the seams. */
  lemma TitleInPieces(pieces: seq<Event>, texts: seq<string>, rest: seq<Event>)
    requires |texts| == |pieces| && forall i :: 0 <= i < |pieces| ==> IsText(pieces[i]) && Spelled(pieces[i]) == Some(texts[i])
    requires NoTitle(rest) && Parsed(Titled(pieces, rest)).Ok?
    ensures Parsed(Titled(pieces, rest)).value.title == Text.Trim(Concat(texts))
  {
    BehindHead(pieces, texts, rest, |rest|);
    ParsedExactly(Titled(pieces, rest));
    assert |Titled(pieces, rest)| == 4 + |pieces| + 2 + |rest|;
  }
}
