/**
 The Kindle importer: clippings become source books, highlights, notes and review cards,
 found again by stable keys. Ids are numbers handed out in order.
 */
module Kindle {
  import opened Wrappers
  import opened Text

  // `Step` is what one clipping does when its book is looked up in the library every time;
  // `Importer` is the loop with its cache and counters. A dry run goes through the same
  // loop and writes nothing. What the counters say is `Tallied` and `Forecast`.

  datatype ClippingKind = Highlight | Note | Bookmark

  datatype Clipping = Clipping(
    title: string, author: Option<string>, kind: ClippingKind, location: Option<string>, addedAt: Option<int>, content: string)

  datatype ItemKind = Article | HighlightItem

  datatype Item = Item(
    id: nat, url: Option<string>, title: string, author: Option<string>, kind: ItemKind,
    text: Option<string>, excerpt: Option<string>, createdAt: int, updatedAt: int)

  datatype HighlightMeta = HighlightMeta(item: nat, source: nat, quote: string)

  datatype NoteRow = NoteRow(item: nat, body: string, createdAt: int, updatedAt: int)

  datatype Card = Card(item: nat, dueAt: int)

  /** `tagged` holds the items that carry the tag `kindle`. */
  datatype Db = Db(items: seq<Item>, metas: seq<HighlightMeta>, notes: seq<NoteRow>, cards: seq<Card>, tagged: set<nat>)

  /** The library and the next id. */
  datatype State = State(db: Db, next: nat)

  datatype Stats = Stats(
    sourcesCreated: nat, sourcesExisting: nat, highlightsCreated: nat, highlightsExisting: nat,
    notesCreated: nat, cardsCreated: nat)

  /** What an import is run with. */
  datatype Settings = Settings(now: int, review: bool)

  // ----------------------------------------------------------------------
  // Keys
  // ----------------------------------------------------------------------

  const WORD := 0x1_0000_0000_0000_0000

  /** The rolling hash: multiply by 31, add, wrap. */
  function Hash(h: nat, bytes: seq<int>): nat
    decreases |bytes|
  {
    if bytes == [] then h else Hash((h * 31 + bytes[0]) % WORD, bytes[1..])
  }

  function HexDigits(v: nat, n: nat): string {
    if n == 0 then "" else HexDigits(v / 16, n - 1) + ["0123456789abcdef"[v % 16]]
  }

  function Normal(s: string): string { Fold(Trim(s)) }

  function BookHash(c: Clipping): nat {
    var author := if c.author.Some? then Normal(c.author.value) else "";
    Hash(Hash(0, Utf8(Normal(c.title)) + [0xFF]), Utf8(author))
  }

  function SourceKey(c: Clipping): string { "kindle://book/" + HexDigits(BookHash(c), 16) }

  function Location(c: Clipping): string { if c.location.Some? then c.location.value else "unknown" }

  function QuoteHash(c: Clipping): nat { Hash(0, Utf8(Location(c)) + Utf8(Normal(c.content))) }

  function HighlightKey(c: Clipping): string {
    "kindle://highlight/" + HexDigits(BookHash(c), 16) + ":" + HexDigits(QuoteHash(c), 16)
  }

  lemma KeysApart(c: Clipping, d: Clipping)
    ensures SourceKey(c) != HighlightKey(d)
  {
    SchemesApart(HexDigits(BookHash(c), 16), HexDigits(BookHash(d), 16), HexDigits(QuoteHash(d), 16));
  }

  lemma SchemesApart(a: string, b: string, x: string)
    ensures "kindle://book/" + a != "kindle://highlight/" + b + ":" + x
  {
    assert ("kindle://book/" + a)[9] == 'b' && ("kindle://highlight/" + b + ":" + x)[9] == 'h';
  }

  // ----------------------------------------------------------------------
  // What one clipping does
  // ----------------------------------------------------------------------

  function ByUrl(items: seq<Item>, url: string): Option<nat> {
    if items == [] then None
    else if items[0].url == Some(url) then Some(items[0].id)
    else ByUrl(items[1..], url)
  }

  predicate Stored(db: Db, url: string) { ByUrl(db.items, url).Some? }

  predicate HasNote(notes: seq<NoteRow>, item: nat, body: string) {
    exists n <- notes :: n.item == item && n.body == body
  }

  /** The longest prefix of whole characters that takes at most `max` bytes. */
  function Fitting(s: string, max: nat): string {
    if s == "" || |CharBytes(s[0])| > max then "" else [s[0]] + Fitting(s[1..], max - |CharBytes(s[0])|)
  }

  function TruncateStr(s: string, max: nat): string {
    if |Utf8(s)| <= max then s else Fitting(s, max) + "…"
  }

  function CreatedAt(now: int, c: Clipping): int { if c.addedAt.Some? then c.addedAt.value else now }

  function Book(now: int, id: nat, c: Clipping): Item {
    Item(id, Some(SourceKey(c)), c.title, c.author, Article, None, None, CreatedAt(now, c), now)
  }

  function HighlightOf(now: int, id: nat, c: Clipping): Item {
    Item(id, Some(HighlightKey(c)), "Highlight from " + TruncateStr(c.title, 80), c.author, HighlightItem,
         Some(c.content), Some(TruncateStr(c.content, 200)), CreatedAt(now, c), now)
  }

  function WithSource(run: Settings, s: State, c: Clipping): State {
    if Stored(s.db, SourceKey(c)) then s
    else State(s.db.(items := s.db.items + [Book(run.now, s.next, c)], tagged := s.db.tagged + {s.next}), s.next + 1)
  }

  function AddHighlight(run: Settings, s: State, source: nat, c: Clipping): State {
    if Stored(s.db, HighlightKey(c)) then s
    else
      State(s.db.(items := s.db.items + [HighlightOf(run.now, s.next, c)],
                  metas := s.db.metas + [HighlightMeta(s.next, source, c.content)],
                  cards := s.db.cards + if run.review then [Card(s.next, run.now)] else []),
            s.next + 1)
  }

  function AddNote(run: Settings, s: State, source: nat, c: Clipping): State {
    if c.content == "" || HasNote(s.db.notes, source, c.content) then s
    else s.(db := s.db.(notes := s.db.notes + [NoteRow(source, c.content, CreatedAt(run.now, c), run.now)]))
  }

  /** One clipping, with its source looked up in the library every time. */
  function Step(run: Settings, s: State, c: Clipping): State {
    if c.kind.Bookmark? then s
    else
      var t := WithSource(run, s, c);
      match ByUrl(t.db.items, SourceKey(c))
      case None => t
      case Some(source) =>
        if c.kind.Highlight? then AddHighlight(run, t, source, c) else AddNote(run, t, source, c)
  }

  /** The import without its cache. */
  function Imported(run: Settings, s: State, clippings: seq<Clipping>): State {
    if clippings == [] then s
    else Step(run, Imported(run, s, clippings[..|clippings| - 1]), clippings[|clippings| - 1])
  }

  // ----------------------------------------------------------------------
  // Lookup
  // ----------------------------------------------------------------------

  lemma {:induction false} ByUrlConcat(a: seq<Item>, b: seq<Item>, url: string)
    ensures ByUrl(a + b, url) == if ByUrl(a, url).Some? then ByUrl(a, url) else ByUrl(b, url)
  {
    if a == [] {
      assert a + b == b;
    } else {
      assert (a + b)[1..] == a[1..] + b;
      ByUrlConcat(a[1..], b, url);
    }
  }

  lemma ByUrlSnoc(a: seq<Item>, x: Item, url: string)
    ensures ByUrl(a + [x], url) ==
            if ByUrl(a, url).Some? then ByUrl(a, url) else if x.url == Some(url) then Some(x.id) else None
  {
    ByUrlConcat(a, [x], url);
    assert [x][1..] == [];
  }

  lemma SourceFound(run: Settings, s: State, c: Clipping)
    ensures ByUrl(WithSource(run, s, c).db.items, SourceKey(c)).Some?
    ensures !Stored(s.db, SourceKey(c)) ==> ByUrl(WithSource(run, s, c).db.items, SourceKey(c)) == Some(s.next)
    ensures forall u :: u != SourceKey(c) ==> ByUrl(WithSource(run, s, c).db.items, u) == ByUrl(s.db.items, u)
  {
    if !Stored(s.db, SourceKey(c)) {
      forall u
        ensures ByUrl(WithSource(run, s, c).db.items, u) ==
                if ByUrl(s.db.items, u).Some? then ByUrl(s.db.items, u)
                else if u == SourceKey(c) then Some(s.next) else None
      {
        ByUrlSnoc(s.db.items, Book(run.now, s.next, c), u);
      }
    }
  }

  lemma HighlightFound(run: Settings, s: State, source: nat, c: Clipping)
    ensures ByUrl(AddHighlight(run, s, source, c).db.items, HighlightKey(c)).Some?
    ensures forall u :: u != HighlightKey(c) ==> ByUrl(AddHighlight(run, s, source, c).db.items, u) == ByUrl(s.db.items, u)
  {
    if !Stored(s.db, HighlightKey(c)) {
      forall u
        ensures ByUrl(AddHighlight(run, s, source, c).db.items, u) ==
                if ByUrl(s.db.items, u).Some? then ByUrl(s.db.items, u)
                else if u == HighlightKey(c) then Some(s.next) else None
      {
        ByUrlSnoc(s.db.items, HighlightOf(run.now, s.next, c), u);
      }
    }
  }

  // ----------------------------------------------------------------------
  // Importing again
  // ----------------------------------------------------------------------

  /** Everything the library held is still there, in place. */
  ghost predicate Grows(a: Db, b: Db) {
    a.items <= b.items && a.metas <= b.metas && a.notes <= b.notes && a.cards <= b.cards && a.tagged <= b.tagged
  }

  lemma PartsGrow(run: Settings, s: State, source: nat, c: Clipping)
    ensures Grows(s.db, WithSource(run, s, c).db)
    ensures Grows(s.db, AddHighlight(run, s, source, c).db)
    ensures Grows(s.db, AddNote(run, s, source, c).db)
  {
  }

  lemma StepGrows(run: Settings, s: State, c: Clipping)
    ensures Grows(s.db, Step(run, s, c).db)
  {
    if !c.kind.Bookmark? {
      var t := WithSource(run, s, c);
      PartsGrow(run, s, 0, c);
      SourceFound(run, s, c);
      PartsGrow(run, t, ByUrl(t.db.items, SourceKey(c)).value, c);
    }
  }

  lemma {:induction false} ImportGrows(run: Settings, s: State, clippings: seq<Clipping>)
    ensures Grows(s.db, Imported(run, s, clippings).db)
  {
    if clippings != [] {
      var front := clippings[..|clippings| - 1];
      ImportGrows(run, s, front);
      StepGrows(run, Imported(run, s, front), clippings[|clippings| - 1]);
    }
  }

  lemma LookupGrows(a: Db, b: Db, url: string)
    requires Grows(a, b) && Stored(a, url)
    ensures ByUrl(b.items, url) == ByUrl(a.items, url)
  {
    assert b.items == a.items + b.items[|a.items|..];
    ByUrlConcat(a.items, b.items[|a.items|..], url);
  }

  lemma BooksStay(a: Db, b: Db, books: map<string, nat>)
    requires Grows(a, b) && forall u <- books :: ByUrl(a.items, u) == Some(books[u])
    ensures forall u <- books :: ByUrl(b.items, u) == Some(books[u])
  {
    forall u | u in books
      ensures ByUrl(b.items, u) == Some(books[u])
    {
      LookupGrows(a, b, u);
    }
  }

  /** There is nothing left to import of this clipping. */
  ghost predicate Settled(db: Db, c: Clipping) {
    || c.kind.Bookmark?
    || (&& Stored(db, SourceKey(c))
        && (c.kind.Highlight? ==> Stored(db, HighlightKey(c)))
        && (c.kind.Note? ==> c.content == "" || HasNote(db.notes, ByUrl(db.items, SourceKey(c)).value, c.content)))
  }

  lemma SettledStays(a: Db, b: Db, c: Clipping)
    requires Settled(a, c) && Grows(a, b)
    ensures Settled(b, c)
  {
    if !c.kind.Bookmark? {
      LookupGrows(a, b, SourceKey(c));
      if c.kind.Highlight? { LookupGrows(a, b, HighlightKey(c)); }
    }
  }

  lemma StepSettles(run: Settings, s: State, c: Clipping)
    ensures Settled(Step(run, s, c).db, c)
  {
    if !c.kind.Bookmark? {
      var t := WithSource(run, s, c);
      SourceFound(run, s, c);
      var source := ByUrl(t.db.items, SourceKey(c)).value;
      if c.kind.Highlight? {
        KeysApart(c, c);
        HighlightFound(run, t, source, c);
      } else if c.content != "" && !HasNote(t.db.notes, source, c.content) {
        var notes := AddNote(run, t, source, c).db.notes;
        assert notes[|notes| - 1] in notes;
      }
    }
  }

  lemma SettledIdle(run: Settings, s: State, c: Clipping)
    requires Settled(s.db, c)
    ensures Step(run, s, c) == s
  {
  }

  lemma {:induction false} SettledImportIdle(run: Settings, s: State, clippings: seq<Clipping>)
    requires forall c <- clippings :: Settled(s.db, c)
    ensures Imported(run, s, clippings) == s
  {
    if clippings != [] {
      var front, last := clippings[..|clippings| - 1], clippings[|clippings| - 1];
      assert clippings == front + [last];
      SettledImportIdle(run, s, front);
      SettledIdle(run, s, last);
    }
  }

  lemma {:induction false} ImportSettles(run: Settings, s: State, clippings: seq<Clipping>, c: Clipping)
    requires c in clippings
    ensures Settled(Imported(run, s, clippings).db, c)
  {
    var front, last := clippings[..|clippings| - 1], clippings[|clippings| - 1];
    assert clippings == front + [last];
    var t := Imported(run, s, front);
    if c == last {
      StepSettles(run, t, c);
    } else {
      ImportSettles(run, s, front, c);
      StepGrows(run, t, last);
      SettledStays(t.db, Step(run, t, last).db, c);
    }
  }

  /** Importing clippings that were imported before, in any order and number, at any time
      and with any settings, changes nothing: no item, note, tag or review card. */
  lemma ImportAgain(
    run: Settings, again: Settings, s: State, clippings: seq<Clipping>, repeated: seq<Clipping>)
    requires forall c <- repeated :: c in clippings
    ensures Imported(again, Imported(run, s, clippings), repeated) == Imported(run, s, clippings)
  {
    var t := Imported(run, s, clippings);
    forall c | c in repeated
      ensures Settled(t.db, c)
    {
      ImportSettles(run, s, clippings, c);
    }
    SettledImportIdle(again, t, repeated);
  }

  /** Two highlights of one book with one key: the second is taken for the first. */
  lemma SecondIsDropped(run: Settings, s: State, c: Clipping, d: Clipping)
    requires c.kind.Highlight? && d.kind.Highlight?
    requires SourceKey(c) == SourceKey(d) && HighlightKey(c) == HighlightKey(d)
    ensures Step(run, Step(run, s, c), d) == Step(run, s, c)
  {
    StepSettles(run, s, c);
    SettledIdle(run, Step(run, s, c), d);
  }

  /** When neither key is in the library, importing one highlight after another adds the
      second one's row exactly when the two keys differ. */
  lemma SecondStoredExactly(run: Settings, s: State, c: Clipping, d: Clipping)
    requires c.kind.Highlight? && d.kind.Highlight?
    requires !Stored(s.db, HighlightKey(c)) && !Stored(s.db, HighlightKey(d))
    ensures var first, both := Step(run, s, c), Step(run, Step(run, s, c), d);
            && |first.db.metas| == |s.db.metas| + 1
            && |both.db.metas| == |first.db.metas| + (if HighlightKey(c) == HighlightKey(d) then 0 else 1)
            && (HighlightKey(c) != HighlightKey(d) ==> both.db.metas[|first.db.metas|].quote == d.content)
  {
    NewHighlightAdded(run, s, c);
    StepStores(run, s, c, HighlightKey(d));
    KeysApart(c, d);
    var first := Step(run, s, c);
    if HighlightKey(c) == HighlightKey(d) {
      SourceFound(run, first, d);
    } else {
      NewHighlightAdded(run, first, d);
    }
  }

  lemma NewHighlightAdded(run: Settings, s: State, c: Clipping)
    requires c.kind.Highlight? && !Stored(s.db, HighlightKey(c))
    ensures |Step(run, s, c).db.metas| == |s.db.metas| + 1
    ensures Step(run, s, c).db.metas[|s.db.metas|].quote == c.content
  {
    SourceFound(run, s, c);
    KeysApart(c, c);
  }

  lemma Reassociate(a: seq<int>, b: seq<int>, c: seq<int>)
    ensures a + (b + c) == (a + b) + c
  {
  }

  lemma Utf8Moved(location: string, moved: string, quote: string)
    ensures Utf8(location) + Utf8(moved + quote) == Utf8(location + moved) + Utf8(quote)
  {
    Utf8Concat(location, moved);
    Utf8Concat(moved, quote);
    Reassociate(Utf8(location), Utf8(moved), Utf8(quote));
  }

  /** The key does not mark where the location ends: characters moved from the front of the
      quote to the end of the location leave the key as it was. */
  lemma KeyIgnoresLocationEnd(c: Clipping, location: string, moved: string, quote: string)
    requires Normal(quote) == quote && Normal(moved + quote) == moved + quote
    ensures HighlightKey(c.(location := Some(location), content := moved + quote))
         == HighlightKey(c.(location := Some(location + moved), content := quote))
  {
    var first := c.(location := Some(location), content := moved + quote);
    var second := c.(location := Some(location + moved), content := quote);
    Utf8Moved(location, moved, quote);
    SameHashesSameKey(first, second);
  }

  lemma SameHashesSameKey(c: Clipping, d: Clipping)
    requires c.title == d.title && c.author == d.author && QuoteHash(c) == QuoteHash(d)
    ensures HighlightKey(c) == HighlightKey(d)
  {
  }

  /** Two different highlights of one book with one key. */
  lemma DifferentHighlightsOneKey(title: string, author: Option<string>)
    ensures var c := Clipping(title, author, Highlight, Some("345-34"), None, "6abc");
            var d := Clipping(title, author, Highlight, Some("345-346"), None, "abc");
            c != d && HighlightKey(c) == HighlightKey(d)
  {
    var c := Clipping(title, author, Highlight, Some("345-34"), None, "6abc");
    TrimNothing("abc");
    TrimNothing("6abc");
    assert Fold("abc") == "abc" && Fold("6abc") == "6abc";
    assert "6" + "abc" == "6abc" && "345-34" + "6" == "345-346";
    KeyIgnoresLocationEnd(c, "345-34", "6", "abc");
  }

  // ----------------------------------------------------------------------
  // What an import stores
  // ----------------------------------------------------------------------

  ghost function BookKeys(clippings: seq<Clipping>): set<string> {
    if clippings == [] then {}
    else
      var c := clippings[|clippings| - 1];
      if c.kind.Bookmark? then BookKeys(clippings[..|clippings| - 1])
      else BookKeys(clippings[..|clippings| - 1]) + {SourceKey(c)}
  }

  ghost function HighlightKeys(clippings: seq<Clipping>): set<string> {
    if clippings == [] then {}
    else
      var c := clippings[|clippings| - 1];
      if c.kind.Highlight? then HighlightKeys(clippings[..|clippings| - 1]) + {HighlightKey(c)}
      else HighlightKeys(clippings[..|clippings| - 1])
  }

  lemma KeysSnoc(clippings: seq<Clipping>, c: Clipping)
    ensures BookKeys(clippings + [c]) == if c.kind.Bookmark? then BookKeys(clippings) else BookKeys(clippings) + {SourceKey(c)}
    ensures HighlightKeys(clippings + [c]) ==
            if c.kind.Highlight? then HighlightKeys(clippings) + {HighlightKey(c)} else HighlightKeys(clippings)
  {
    assert (clippings + [c])[..|clippings|] == clippings;
  }

  /** The keys of some of the clippings. */
  ghost function KeysOf(key: Clipping -> string, chosen: Clipping -> bool, clippings: seq<Clipping>): set<string> {
    if clippings == [] then {}
    else
      var c := clippings[|clippings| - 1];
      KeysOf(key, chosen, clippings[..|clippings| - 1]) + if chosen(c) then {key(c)} else {}
  }

  predicate NamesBook(c: Clipping) { !c.kind.Bookmark? }

  predicate IsHighlight(c: Clipping) { c.kind.Highlight? }

  lemma {:induction false} KeysByKind(clippings: seq<Clipping>)
    ensures BookKeys(clippings) == KeysOf(SourceKey, NamesBook, clippings)
    ensures HighlightKeys(clippings) == KeysOf(HighlightKey, IsHighlight, clippings)
  {
    if clippings != [] { KeysByKind(clippings[..|clippings| - 1]); }
  }

  lemma {:induction false} KeysOfAre(key: Clipping -> string, chosen: Clipping -> bool, clippings: seq<Clipping>, u: string)
    ensures u in KeysOf(key, chosen, clippings) <==> exists c <- clippings :: chosen(c) && u == key(c)
  {
    if clippings != [] {
      var front, last := clippings[..|clippings| - 1], clippings[|clippings| - 1];
      assert clippings == front + [last];
      KeysOfAre(key, chosen, front, u);
    }
  }

  /** The keys of an import, clipping by clipping. */
  lemma KeysAre(clippings: seq<Clipping>, u: string)
    ensures u in BookKeys(clippings) <==> exists c <- clippings :: !c.kind.Bookmark? && u == SourceKey(c)
    ensures u in HighlightKeys(clippings) <==> exists c <- clippings :: c.kind.Highlight? && u == HighlightKey(c)
  {
    KeysByKind(clippings);
    KeysOfAre(SourceKey, NamesBook, clippings, u);
    KeysOfAre(HighlightKey, IsHighlight, clippings, u);
  }

  lemma StepStores(run: Settings, s: State, c: Clipping, u: string)
    ensures Stored(Step(run, s, c).db, u) <==>
            || Stored(s.db, u)
            || (!c.kind.Bookmark? && u == SourceKey(c))
            || (c.kind.Highlight? && u == HighlightKey(c))
  {
    if !c.kind.Bookmark? {
      SourceFound(run, s, c);
      var t := WithSource(run, s, c);
      var source := ByUrl(t.db.items, SourceKey(c)).value;
      HighlightFound(run, t, source, c);
      KeysApart(c, c);
    }
  }

  /** The addresses in the library after an import: those of before, one for each book and
      one for each highlight. */
  lemma {:induction false} ImportStores(run: Settings, s: State, clippings: seq<Clipping>, u: string)
    ensures Stored(Imported(run, s, clippings).db, u) <==>
            Stored(s.db, u) || u in BookKeys(clippings) || u in HighlightKeys(clippings)
  {
    if clippings != [] {
      var front, last := clippings[..|clippings| - 1], clippings[|clippings| - 1];
      assert clippings == front + [last];
      ImportStores(run, s, front, u);
      StepStores(run, Imported(run, s, front), last, u);
      KeysSnoc(front, last);
    }
  }

  /** A stored highlight row: the clipping's words, tied to the item under the highlight's
      key and to the book under the source's key. */
  ghost predicate Records(m: HighlightMeta, db: Db, c: Clipping) {
    && c.kind.Highlight? && m.quote == c.content
    && ByUrl(db.items, SourceKey(c)) == Some(m.source)
    && ByUrl(db.items, HighlightKey(c)) == Some(m.item)
  }

  lemma StepRecords(run: Settings, s: State, c: Clipping)
    ensures var t := Step(run, s, c);
            t.db.metas == s.db.metas || (t.db.metas == s.db.metas + [t.db.metas[|s.db.metas|]]
                                         && Records(t.db.metas[|s.db.metas|], t.db, c))
  {
    if c.kind.Highlight? {
      SourceFound(run, s, c);
      var t := WithSource(run, s, c);
      var source := ByUrl(t.db.items, SourceKey(c)).value;
      HighlightFound(run, t, source, c);
      KeysApart(c, c);
      ByUrlSnoc(t.db.items, HighlightOf(run.now, t.next, c), HighlightKey(c));
    }
  }

  /** Every highlight row an import adds comes from one of its clippings. */
  lemma {:induction false} ImportRecords(run: Settings, s: State, clippings: seq<Clipping>, k: nat)
    requires |s.db.metas| <= k < |Imported(run, s, clippings).db.metas|
    ensures exists c <- clippings :: Records(Imported(run, s, clippings).db.metas[k], Imported(run, s, clippings).db, c)
  {
    if clippings != [] {
      var front, last := clippings[..|clippings| - 1], clippings[|clippings| - 1];
      assert clippings == front + [last];
      var t := Imported(run, s, front);
      var after := Step(run, t, last);
      StepRecords(run, t, last);
      StepGrows(run, t, last);
      if k < |t.db.metas| {
        ImportRecords(run, s, front, k);
        var c :| c in front && Records(t.db.metas[k], t.db, c);
        LookupGrows(t.db, after.db, SourceKey(c));
        LookupGrows(t.db, after.db, HighlightKey(c));
        assert Records(after.db.metas[k], after.db, c) && c in clippings;
      } else {
        assert last in clippings;
      }
    }
  }

  // ----------------------------------------------------------------------
  // What the rows say
  // ----------------------------------------------------------------------

  /** A text cut to at most so many bytes: whole, or its longest front of whole characters
      that fits, with an ellipsis behind it. */
  ghost predicate Shortened(s: string, max: nat, cut: string) {
    if |Utf8(s)| <= max then cut == s
    else exists n: nat :: n < |s| && cut == s[..n] + "…" && |Utf8(s[..n])| <= max < |Utf8(s[..n + 1])|
  }

  lemma {:induction false} FittingFits(s: string, max: nat)
    requires |Utf8(s)| > max
    ensures var n := |Fitting(s, max)|;
            n < |s| && Fitting(s, max) == s[..n] && |Utf8(s[..n])| <= max < |Utf8(s[..n + 1])|
  {
    var first := |CharBytes(s[0])|;
    if first > max {
      assert s[..1] == [s[0]] && [s[0]][1..] == "";
    } else {
      FittingFits(s[1..], max - first);
      var n := |Fitting(s[1..], max - first)|;
      FrontEncoded(s, n);
      FrontEncoded(s, n + 1);
    }
  }

  lemma FrontEncoded(s: string, n: nat)
    requires n < |s|
    ensures s[..n + 1] == [s[0]] + s[1..][..n]
    ensures |Utf8(s[..n + 1])| == |CharBytes(s[0])| + |Utf8(s[1..][..n])|
  {
    assert s[..n + 1][1..] == s[1..][..n];
  }

  lemma TruncateShortens(s: string, max: nat)
    ensures Shortened(s, max, TruncateStr(s, max))
  {
    if |Utf8(s)| > max { FittingFits(s, max); }
  }

  /** The row of a book. */
  ghost predicate TellsBook(row: Item, now: int, c: Clipping) {
    && !c.kind.Bookmark? && row.url == Some(SourceKey(c)) && row.kind == Article
    && row.title == c.title && row.author == c.author && row.text.None? && row.excerpt.None?
    && row.createdAt == c.addedAt.GetOr(now) && row.updatedAt == now
  }

  /** The row of a highlight: the book's title cut to eighty bytes, the quote in full and cut
      to two hundred. */
  ghost predicate TellsHighlight(row: Item, now: int, c: Clipping) {
    && c.kind.Highlight? && row.url == Some(HighlightKey(c)) && row.kind == HighlightItem
    && (exists book :: Shortened(c.title, 80, book) && row.title == "Highlight from " + book)
    && row.author == c.author && row.text == Some(c.content)
    && row.excerpt.Some? && Shortened(c.content, 200, row.excerpt.value)
    && row.createdAt == c.addedAt.GetOr(now) && row.updatedAt == now
  }

  ghost predicate Tells(row: Item, now: int, clippings: seq<Clipping>) {
    exists c <- clippings :: TellsBook(row, now, c) || TellsHighlight(row, now, c)
  }

  lemma RowsTell(now: int, id: nat, c: Clipping)
    ensures !c.kind.Bookmark? ==> TellsBook(Book(now, id, c), now, c)
    ensures c.kind.Highlight? ==> TellsHighlight(HighlightOf(now, id, c), now, c)
  {
    TruncateShortens(c.title, 80);
    TruncateShortens(c.content, 200);
  }

  lemma StepTells(run: Settings, s: State, c: Clipping, k: nat)
    requires |s.db.items| <= k < |Step(run, s, c).db.items|
    ensures TellsBook(Step(run, s, c).db.items[k], run.now, c) || TellsHighlight(Step(run, s, c).db.items[k], run.now, c)
  {
    var t := WithSource(run, s, c);
    RowsTell(run.now, s.next, c);
    RowsTell(run.now, t.next, c);
    SourceFound(run, s, c);
    PartsGrow(run, s, 0, c);
  }

  /** Every row an import adds tells of one of its clippings, as a book or as a highlight. */
  lemma {:induction false} ImportTells(run: Settings, s: State, clippings: seq<Clipping>, k: nat)
    requires |s.db.items| <= k < |Imported(run, s, clippings).db.items|
    ensures Tells(Imported(run, s, clippings).db.items[k], run.now, clippings)
  {
    if clippings != [] {
      var front, last := clippings[..|clippings| - 1], clippings[|clippings| - 1];
      assert clippings == front + [last];
      var t := Imported(run, s, front);
      StepGrows(run, t, last);
      if k < |t.db.items| {
        ImportTells(run, s, front, k);
      } else {
        StepTells(run, t, last, k);
        assert last in clippings;
      }
    }
  }

  /** A note row: the clipping's words, under its book. */
  ghost predicate TellsNote(row: NoteRow, db: Db, now: int, c: Clipping) {
    && c.kind.Note? && c.content != "" && row.body == c.content && ByUrl(db.items, SourceKey(c)) == Some(row.item)
    && row.createdAt == c.addedAt.GetOr(now) && row.updatedAt == now
  }

  lemma StepNotes(run: Settings, s: State, c: Clipping)
    ensures var t := Step(run, s, c);
            t.db.notes == s.db.notes || (t.db.notes == s.db.notes + [t.db.notes[|s.db.notes|]]
                                         && TellsNote(t.db.notes[|s.db.notes|], t.db, run.now, c))
  {
    if c.kind.Note? { SourceFound(run, s, c); }
  }

  /** Every note an import adds is one of its clippings, filed under that clipping's book. */
  lemma {:induction false} ImportNotes(run: Settings, s: State, clippings: seq<Clipping>, k: nat)
    requires |s.db.notes| <= k < |Imported(run, s, clippings).db.notes|
    ensures exists c <- clippings ::
              TellsNote(Imported(run, s, clippings).db.notes[k], Imported(run, s, clippings).db, run.now, c)
  {
    if clippings != [] {
      var front, last := clippings[..|clippings| - 1], clippings[|clippings| - 1];
      assert clippings == front + [last];
      var t := Imported(run, s, front);
      var after := Step(run, t, last);
      StepNotes(run, t, last);
      StepGrows(run, t, last);
      if k < |t.db.notes| {
        ImportNotes(run, s, front, k);
        var c :| c in front && TellsNote(t.db.notes[k], t.db, run.now, c);
        LookupGrows(t.db, after.db, SourceKey(c));
        assert TellsNote(after.db.notes[k], after.db, run.now, c) && c in clippings;
      } else {
        assert last in clippings;
      }
    }
  }

  /** A note is added exactly when it has words that no note of its book has yet. */
  lemma NoteAddedExactly(run: Settings, s: State, c: Clipping)
    requires c.kind.Note?
    ensures var book := if Stored(s.db, SourceKey(c)) then ByUrl(s.db.items, SourceKey(c)).value else s.next;
            |Step(run, s, c).db.notes| == |s.db.notes| + 1 <==>
            c.content != "" && forall n <- s.db.notes :: n.item != book || n.body != c.content
    ensures |Step(run, s, c).db.notes| <= |s.db.notes| + 1
  {
    SourceFound(run, s, c);
  }

  /** After an import the words of every note clipping are there under its book. */
  lemma NotesThere(run: Settings, s: State, clippings: seq<Clipping>, c: Clipping)
    requires c in clippings && c.kind.Note? && c.content != ""
    ensures exists n <- Imported(run, s, clippings).db.notes ::
              n.body == c.content && ByUrl(Imported(run, s, clippings).db.items, SourceKey(c)) == Some(n.item)
  {
    ImportSettles(run, s, clippings, c);
  }

  /** With review wanted every highlight row comes with a card due at once, otherwise none
      does; and exactly the new books carry the tag. */
  ghost predicate CardsAndTags(run: Settings, s: State, t: State) {
    && |t.db.metas| >= |s.db.metas| && |t.db.items| >= |s.db.items|
    && t.db.cards == s.db.cards + (if run.review then DueNow(run.now, t.db.metas[|s.db.metas|..]) else [])
    && t.db.tagged == s.db.tagged + BookIds(t.db.items[|s.db.items|..])
  }

  ghost function DueNow(now: int, metas: seq<HighlightMeta>): seq<Card> {
    if metas == [] then [] else DueNow(now, metas[..|metas| - 1]) + [Card(metas[|metas| - 1].item, now)]
  }

  ghost function BookIds(items: seq<Item>): set<nat> {
    if items == [] then {}
    else BookIds(items[..|items| - 1]) + (if items[|items| - 1].kind.Article? then {items[|items| - 1].id} else {})
  }

  lemma {:induction false} DueNowConcat(now: int, a: seq<HighlightMeta>, b: seq<HighlightMeta>)
    ensures DueNow(now, a + b) == DueNow(now, a) + DueNow(now, b)
    decreases |b|
  {
    if b == [] {
      assert a + b == a;
    } else {
      assert (a + b)[..|a + b| - 1] == a + b[..|b| - 1];
      DueNowConcat(now, a, b[..|b| - 1]);
    }
  }

  lemma {:induction false} BookIdsConcat(a: seq<Item>, b: seq<Item>)
    ensures BookIds(a + b) == BookIds(a) + BookIds(b)
    decreases |b|
  {
    if b == [] {
      assert a + b == a;
    } else {
      assert (a + b)[..|a + b| - 1] == a + b[..|b| - 1];
      BookIdsConcat(a, b[..|b| - 1]);
    }
  }

  lemma SourceCardsAndTags(run: Settings, s: State, c: Clipping)
    ensures CardsAndTags(run, s, WithSource(run, s, c))
  {
    var t := WithSource(run, s, c);
    NoneAdded(run, s);
    assert t.db.metas[|s.db.metas|..] == [];
    if !Stored(s.db, SourceKey(c)) {
      assert t.db.items[|s.db.items|..] == [Book(run.now, s.next, c)];
      assert [Book(run.now, s.next, c)][..0] == [];
    }
  }

  lemma NoneAdded(run: Settings, s: State)
    ensures CardsAndTags(run, s, s)
  {
    assert s.db.metas[|s.db.metas|..] == [] && s.db.items[|s.db.items|..] == [];
    assert s.db.cards + [] == s.db.cards;
  }

  lemma HighlightCardsAndTags(run: Settings, s: State, source: nat, c: Clipping)
    ensures CardsAndTags(run, s, AddHighlight(run, s, source, c))
  {
    var t := AddHighlight(run, s, source, c);
    NoneAdded(run, s);
    if !Stored(s.db, HighlightKey(c)) {
      var row, meta := HighlightOf(run.now, s.next, c), HighlightMeta(s.next, source, c.content);
      assert t.db.items[|s.db.items|..] == [row] && [row][..0] == [];
      assert t.db.metas[|s.db.metas|..] == [meta] && [meta][..0] == [];
    }
  }

  lemma CardsAndTagsChain(run: Settings, s: State, t: State, u: State)
    requires CardsAndTags(run, s, t) && CardsAndTags(run, t, u) && Grows(s.db, t.db) && Grows(t.db, u.db)
    ensures CardsAndTags(run, s, u)
  {
    var a, b := t.db.metas[|s.db.metas|..], u.db.metas[|t.db.metas|..];
    TailsJoin(s.db.metas, t.db.metas, u.db.metas);
    DueNowConcat(run.now, a, b);
    CardsJoin(s.db.cards, if run.review then DueNow(run.now, a) else [], if run.review then DueNow(run.now, b) else []);
    TailsJoin(s.db.items, t.db.items, u.db.items);
    BookIdsConcat(t.db.items[|s.db.items|..], u.db.items[|t.db.items|..]);
  }

  lemma TailsJoin<T>(a: seq<T>, b: seq<T>, c: seq<T>)
    requires a <= b <= c
    ensures c[|a|..] == b[|a|..] + c[|b|..]
  {
  }

  lemma CardsJoin(a: seq<Card>, b: seq<Card>, c: seq<Card>)
    ensures (a + b) + c == a + (b + c)
  {
  }

  lemma StepCardsAndTags(run: Settings, s: State, c: Clipping)
    ensures CardsAndTags(run, s, Step(run, s, c))
  {
    NoneAdded(run, s);
    if !c.kind.Bookmark? {
      var t := WithSource(run, s, c);
      SourceCardsAndTags(run, s, c);
      SourceFound(run, s, c);
      var source := ByUrl(t.db.items, SourceKey(c)).value;
      PartsGrow(run, s, source, c);
      PartsGrow(run, t, source, c);
      HighlightCardsAndTags(run, t, source, c);
      NoneAdded(run, t);
      if c.kind.Highlight? {
        CardsAndTagsChain(run, s, t, AddHighlight(run, t, source, c));
      } else {
        assert CardsAndTags(run, t, AddNote(run, t, source, c));
        CardsAndTagsChain(run, s, t, AddNote(run, t, source, c));
      }
    }
  }

  /** Over a whole import: one card due now for each new highlight when cards are wanted, and
      the tag on exactly the new books. */
  lemma {:induction false} ImportCardsAndTags(run: Settings, s: State, clippings: seq<Clipping>)
    ensures CardsAndTags(run, s, Imported(run, s, clippings))
  {
    if clippings == [] {
      NoneAdded(run, s);
    } else {
      var front, last := clippings[..|clippings| - 1], clippings[|clippings| - 1];
      var t := Imported(run, s, front);
      ImportCardsAndTags(run, s, front);
      ImportGrows(run, s, front);
      StepCardsAndTags(run, t, last);
      StepGrows(run, t, last);
      CardsAndTagsChain(run, s, t, Step(run, t, last));
    }
  }

  // ----------------------------------------------------------------------
  // What a key depends on
  // ----------------------------------------------------------------------

  ghost function Pow(b: nat, n: nat): nat { if n == 0 then 1 else b * Pow(b, n - 1) }

  /** The bytes as the digits of a number in base 31. */
  ghost function Digits31(bytes: seq<int>): int {
    if bytes == [] then 0 else Digits31(bytes[..|bytes| - 1]) * 31 + bytes[|bytes| - 1]
  }

  lemma {:induction false} HashConcat(h: nat, a: seq<int>, b: seq<int>)
    requires forall i :: 0 <= i < |a| ==> 0 <= a[i]
    requires forall i :: 0 <= i < |b| ==> 0 <= b[i]
    ensures Hash(h, a + b) == Hash(Hash(h, a), b)
    decreases |a|
  {
    if a == [] {
      assert a + b == b;
    } else {
      assert (a + b)[1..] == a[1..] + b;
      HashConcat((h * 31 + a[0]) % WORD, a[1..], b);
    }
  }

  lemma {:induction false} HashIsNumber(bytes: seq<int>)
    requires forall i :: 0 <= i < |bytes| ==> 0 <= bytes[i]
    ensures 0 <= Digits31(bytes) && Hash(0, bytes) == Digits31(bytes) % WORD
    decreases |bytes|
  {
    if bytes != [] {
      var front, last := bytes[..|bytes| - 1], bytes[|bytes| - 1];
      assert bytes == front + [last];
      HashIsNumber(front);
      HashConcat(0, front, [last]);
      assert [last][1..] == [];
      assert Hash(Hash(0, front), [last]) == (Hash(0, front) * 31 + last) % WORD;
      ModStep(Digits31(front), last);
    }
  }

  lemma ModStep(x: nat, last: nat)
    ensures (x % WORD * 31 + last) % WORD == (x * 31 + last) % WORD
  {
    var q := x / WORD;
    assert x * 31 + last == (x % WORD * 31 + last) + WORD * (q * 31);
    Cycles(x % WORD * 31 + last, q * 31);
  }

  lemma {:induction false} Cycles(x: int, k: nat)
    ensures (x + WORD * k) % WORD == x % WORD
  {
    if k > 0 {
      Cycles(x, k - 1);
      assert x + WORD * k == x + WORD * (k - 1) + WORD;
    }
  }

  lemma {:induction false} HexTells(v: nat, w: nat, n: nat)
    requires v < Pow(16, n) && w < Pow(16, n)
    ensures HexDigits(v, n) == HexDigits(w, n) <==> v == w
    decreases n
  {
    if n > 0 {
      HexTells(v / 16, w / 16, n - 1);
      HexLength(v / 16, n - 1);
      HexLength(w / 16, n - 1);
      var a, b := HexDigits(v / 16, n - 1), HexDigits(w / 16, n - 1);
      var x, y := "0123456789abcdef"[v % 16], "0123456789abcdef"[w % 16];
      assert (a + [x])[..n - 1] == a && (b + [y])[..n - 1] == b && (a + [x])[n - 1] == x && (b + [y])[n - 1] == y;
      HexCharTells(v % 16, w % 16);
    }
  }

  lemma {:induction false} HexLength(v: nat, n: nat)
    ensures |HexDigits(v, n)| == n
    decreases n
  {
    if n > 0 { HexLength(v / 16, n - 1); }
  }

  lemma HexCharTells(v: nat, w: nat)
    requires v < 16 && w < 16
    ensures "0123456789abcdef"[v] == "0123456789abcdef"[w] <==> v == w
  {
    assert forall k: nat :: k < 16 ==>
        "0123456789abcdef"[k] as int == if k < 10 then '0' as int + k else 'a' as int + (k - 10);
  }

  lemma WordIsHex()
    ensures Pow(16, 16) == WORD
  {
    assert Pow(16, 4) == 65536;
    assert Pow(16, 8) == 16 * (16 * (16 * (16 * Pow(16, 4))));
    assert Pow(16, 12) == 16 * (16 * (16 * (16 * Pow(16, 8))));
    assert Pow(16, 16) == 16 * (16 * (16 * (16 * Pow(16, 12))));
  }

  /** The book in bytes: its title, a byte no text holds, and its author, both trimmed and in
      lower case. */
  ghost function BookBytes(c: Clipping): seq<int> {
    Utf8(Normal(c.title)) + [0xFF] + Utf8(if c.author.Some? then Normal(c.author.value) else "")
  }

  lemma {:induction false} Utf8IsBytes(s: string)
    ensures forall i :: 0 <= i < |Utf8(s)| ==> 0 <= Utf8(s)[i] < 256
  {
    if s != "" { Utf8IsBytes(s[1..]); }
  }

  /** What the hashes are: the bytes read as one number in base 31, modulo 2 to the 64th. */
  lemma HashesAre(c: Clipping)
    ensures BookHash(c) == Digits31(BookBytes(c)) % WORD
    ensures QuoteHash(c) == Digits31(Utf8(Location(c)) + Utf8(Normal(c.content))) % WORD
  {
    var author := if c.author.Some? then Normal(c.author.value) else "";
    Utf8IsBytes(Normal(c.title));
    Utf8IsBytes(author);
    Utf8IsBytes(Location(c));
    Utf8IsBytes(Normal(c.content));
    HashConcat(0, Utf8(Normal(c.title)) + [0xFF], Utf8(author));
    HashIsNumber(BookBytes(c));
    HashIsNumber(Utf8(Location(c)) + Utf8(Normal(c.content)));
  }

  /** Two clippings share a key exactly when the hashes behind it agree. */
  lemma KeysTell(c: Clipping, d: Clipping)
    ensures SourceKey(c) == SourceKey(d) <==> BookHash(c) == BookHash(d)
    ensures HighlightKey(c) == HighlightKey(d) <==> BookHash(c) == BookHash(d) && QuoteHash(c) == QuoteHash(d)
  {
    HashesAre(c);
    HashesAre(d);
    WordIsHex();
    HexTells(BookHash(c), BookHash(d), 16);
    HexTells(QuoteHash(c), QuoteHash(d), 16);
    HexLength(BookHash(c), 16);
    HexLength(BookHash(d), 16);
    SourceKeyParts(HexDigits(BookHash(c), 16), HexDigits(BookHash(d), 16));
    HighlightKeyParts(HexDigits(BookHash(c), 16), HexDigits(QuoteHash(c), 16), HexDigits(BookHash(d), 16), HexDigits(QuoteHash(d), 16));
  }

  lemma SourceKeyParts(a: string, b: string)
    ensures "kindle://book/" + a == "kindle://book/" + b <==> a == b
  {
    assert ("kindle://book/" + a)[14..] == a && ("kindle://book/" + b)[14..] == b;
  }

  lemma HighlightKeyParts(a: string, x: string, b: string, y: string)
    requires |a| == |b|
    ensures "kindle://highlight/" + a + ":" + x == "kindle://highlight/" + b + ":" + y <==> a == b && x == y
  {
    var p, q := "kindle://highlight/" + a + ":" + x, "kindle://highlight/" + b + ":" + y;
    assert p[19..19 + |a|] == a && q[19..19 + |b|] == b && p[20 + |a|..] == x && q[20 + |b|..] == y;
  }

  // ----------------------------------------------------------------------
  // Counting
  // ----------------------------------------------------------------------

  ghost function Missing(db: Db, keys: set<string>): set<string> {
    set u <- keys | !Stored(db, u)
  }

  ghost function Highlights(clippings: seq<Clipping>): nat {
    if clippings == [] then 0
    else Highlights(clippings[..|clippings| - 1]) + if clippings[|clippings| - 1].kind.Highlight? then 1 else 0
  }

  /** A book is counted once for each key: new when the library did not hold it. */
  ghost predicate TalliedSources(stats: Stats, db: Db, clippings: seq<Clipping>) {
    && stats.sourcesCreated == |Missing(db, BookKeys(clippings))|
    && stats.sourcesCreated + stats.sourcesExisting == |BookKeys(clippings)|
  }

  /** A highlight is new once for each key the library did not hold; every other highlight
      counts as existing. */
  ghost predicate TalliedHighlights(stats: Stats, db: Db, clippings: seq<Clipping>) {
    && stats.highlightsCreated == |Missing(db, HighlightKeys(clippings))|
    && stats.highlightsCreated + stats.highlightsExisting == Highlights(clippings)
  }

  ghost predicate Tallied(stats: Stats, run: Settings, s: State, clippings: seq<Clipping>) {
    && TalliedSources(stats, s.db, clippings)
    && TalliedHighlights(stats, s.db, clippings)
    && stats.notesCreated == |Imported(run, s, clippings).db.notes| - |s.db.notes|
    && stats.cardsCreated == if run.review then stats.highlightsCreated else 0
  }

  function CountSource(stats: Stats, cached: bool, found: bool): Stats {
    if cached then stats
    else if found then stats.(sourcesExisting := stats.sourcesExisting + 1)
    else stats.(sourcesCreated := stats.sourcesCreated + 1)
  }

  function CountHighlight(stats: Stats, review: bool, found: bool): Stats {
    if found then stats.(highlightsExisting := stats.highlightsExisting + 1)
    else
      stats.(highlightsCreated := stats.highlightsCreated + 1,
             cardsCreated := stats.cardsCreated + if review then 1 else 0)
  }

  function CountNote(stats: Stats, skipped: bool): Stats {
    if skipped then stats else stats.(notesCreated := stats.notesCreated + 1)
  }

  lemma MissingGrows(db: Db, keys: set<string>, u: string)
    ensures |Missing(db, keys + {u})| == |Missing(db, keys)| + if u in keys || Stored(db, u) then 0 else 1
    ensures |keys + {u}| == |keys| + if u in keys then 0 else 1
  {
    if u in keys {
      assert keys + {u} == keys;
    } else if Stored(db, u) {
      assert Missing(db, keys + {u}) == Missing(db, keys);
    } else {
      assert Missing(db, keys + {u}) == Missing(db, keys) + {u};
    }
  }

  lemma NoSourceKey(clippings: seq<Clipping>, c: Clipping)
    ensures SourceKey(c) !in HighlightKeys(clippings)
  {
    KeysAre(clippings, SourceKey(c));
    forall d | d in clippings
      ensures HighlightKey(d) != SourceKey(c)
    {
      KeysApart(c, d);
    }
  }

  lemma NoHighlightKey(clippings: seq<Clipping>, c: Clipping)
    ensures HighlightKey(c) !in BookKeys(clippings)
  {
    KeysAre(clippings, HighlightKey(c));
    forall d | d in clippings
      ensures SourceKey(d) != HighlightKey(c)
    {
      KeysApart(d, c);
    }
  }

  lemma TallySource(stats: Stats, db: Db, clippings: seq<Clipping>, c: Clipping)
    requires TalliedSources(stats, db, clippings) && !c.kind.Bookmark?
    ensures TalliedSources(CountSource(stats, SourceKey(c) in BookKeys(clippings), Stored(db, SourceKey(c))), db, clippings + [c])
  {
    KeysSnoc(clippings, c);
    MissingGrows(db, BookKeys(clippings), SourceKey(c));
  }

  lemma TallyHighlight(stats: Stats, db: Db, clippings: seq<Clipping>, review: bool, c: Clipping)
    requires TalliedHighlights(stats, db, clippings) && c.kind.Highlight?
    ensures TalliedHighlights(
              CountHighlight(stats, review, Stored(db, HighlightKey(c)) || HighlightKey(c) in HighlightKeys(clippings)),
              db, clippings + [c])
  {
    var all := clippings + [c];
    assert all[..|all| - 1] == clippings;
    KeysSnoc(clippings, c);
    MissingGrows(db, HighlightKeys(clippings), HighlightKey(c));
  }

  lemma TallyOther(stats: Stats, db: Db, clippings: seq<Clipping>, c: Clipping)
    ensures c.kind.Bookmark? && TalliedSources(stats, db, clippings) ==> TalliedSources(stats, db, clippings + [c])
    ensures !c.kind.Highlight? && TalliedHighlights(stats, db, clippings) ==> TalliedHighlights(stats, db, clippings + [c])
  {
    var all := clippings + [c];
    assert all[..|all| - 1] == clippings;
    KeysSnoc(clippings, c);
  }

  /** What the library holds when clipping `c` comes up after `clippings`. */
  lemma SourceSoFar(run: Settings, s: State, clippings: seq<Clipping>, c: Clipping)
    ensures Stored(Imported(run, s, clippings).db, SourceKey(c)) <==>
            Stored(s.db, SourceKey(c)) || SourceKey(c) in BookKeys(clippings)
  {
    NoSourceKey(clippings, c);
    ImportStores(run, s, clippings, SourceKey(c));
  }

  lemma HighlightSoFar(run: Settings, s: State, clippings: seq<Clipping>, c: Clipping)
    ensures Stored(WithSource(run, Imported(run, s, clippings), c).db, HighlightKey(c)) <==>
            Stored(s.db, HighlightKey(c)) || HighlightKey(c) in HighlightKeys(clippings)
  {
    NoHighlightKey(clippings, c);
    ImportStores(run, s, clippings, HighlightKey(c));
    SourceFound(run, Imported(run, s, clippings), c);
    KeysApart(c, c);
  }

  // ----------------------------------------------------------------------
  // A dry run
  // ----------------------------------------------------------------------

  /** The highlights a dry run calls new: those whose key the library does not hold, however
      often the key comes up. */
  ghost function NewHighlights(db: Db, clippings: seq<Clipping>): nat {
    if clippings == [] then 0
    else
      var c := clippings[|clippings| - 1];
      NewHighlights(db, clippings[..|clippings| - 1])
      + if c.kind.Highlight? && !Stored(db, HighlightKey(c)) then 1 else 0
  }

  ghost predicate IsNewNote(db: Db, c: Clipping) {
    && c.kind.Note? && c.content != ""
    && !(Stored(db, SourceKey(c)) && HasNote(db.notes, ByUrl(db.items, SourceKey(c)).value, c.content))
  }

  ghost function NewNotes(db: Db, clippings: seq<Clipping>): nat {
    if clippings == [] then 0
    else
      NewNotes(db, clippings[..|clippings| - 1]) + if IsNewNote(db, clippings[|clippings| - 1]) then 1 else 0
  }

  ghost predicate Forecast(stats: Stats, db: Db, clippings: seq<Clipping>) {
    && TalliedSources(stats, db, clippings)
    && stats.highlightsCreated == NewHighlights(db, clippings)
    && stats.highlightsCreated + stats.highlightsExisting == Highlights(clippings)
    && stats.notesCreated == NewNotes(db, clippings)
    && stats.cardsCreated == 0
  }

  /** No new key comes up twice. */
  ghost predicate KeysDiffer(db: Db, clippings: seq<Clipping>) {
    clippings == [] ||
    (var front, c := clippings[..|clippings| - 1], clippings[|clippings| - 1];
     && KeysDiffer(db, front)
     && (c.kind.Highlight? && !Stored(db, HighlightKey(c)) ==> HighlightKey(c) !in HighlightKeys(front)))
  }

  /** A dry run never announces fewer highlights than the import creates, and announces just
      as many exactly when no new key comes up twice. */
  lemma {:induction false} ForecastIsUpperBound(db: Db, clippings: seq<Clipping>)
    ensures |Missing(db, HighlightKeys(clippings))| <= NewHighlights(db, clippings)
    ensures |Missing(db, HighlightKeys(clippings))| == NewHighlights(db, clippings) <==> KeysDiffer(db, clippings)
  {
    if clippings == [] {
      assert Missing(db, HighlightKeys(clippings)) == {};
    } else {
      var front, c := clippings[..|clippings| - 1], clippings[|clippings| - 1];
      assert clippings == front + [c];
      ForecastIsUpperBound(db, front);
      KeysSnoc(front, c);
      if c.kind.Highlight? {
        MissingGrows(db, HighlightKeys(front), HighlightKey(c));
      }
    }
  }

  // ----------------------------------------------------------------------
  // The counters over one clipping
  // ----------------------------------------------------------------------

  ghost function CountOne(run: Settings, s: State, done: seq<Clipping>, stats: Stats, c: Clipping): Stats {
    if c.kind.Bookmark? then stats
    else
      var before := Imported(run, s, done);
      var sources := CountSource(stats, SourceKey(c) in BookKeys(done), Stored(before.db, SourceKey(c)));
      var t := WithSource(run, before, c);
      SourceFound(run, before, c);
      if c.kind.Highlight? then CountHighlight(sources, run.review, Stored(t.db, HighlightKey(c)))
      else CountNote(sources, c.content == "" || HasNote(t.db.notes, ByUrl(t.db.items, SourceKey(c)).value, c.content))
  }

  lemma ImportedSnoc(run: Settings, s: State, done: seq<Clipping>, c: Clipping)
    ensures Imported(run, s, done + [c]) == Step(run, Imported(run, s, done), c)
  {
    assert (done + [c])[..|done|] == done;
  }

  /** A step adds the note it counts, and no other. */
  lemma NotesStep(run: Settings, s: State, done: seq<Clipping>, stats: Stats, c: Clipping)
    ensures CountOne(run, s, done, stats, c).notesCreated - stats.notesCreated
         == |Imported(run, s, done + [c]).db.notes| - |Imported(run, s, done).db.notes|
  {
    ImportedSnoc(run, s, done, c);
    SourceFound(run, Imported(run, s, done), c);
  }

  lemma CountedSource(run: Settings, s: State, done: seq<Clipping>, stats: Stats, c: Clipping)
    requires !c.kind.Bookmark?
    ensures var t := Imported(run, s, done);
            var counted := CountSource(stats, SourceKey(c) in BookKeys(done), Stored(t.db, SourceKey(c)));
            var one := CountOne(run, s, done, stats, c);
            one.sourcesCreated == counted.sourcesCreated && one.sourcesExisting == counted.sourcesExisting
  {
  }

  lemma SourceStep(run: Settings, s: State, done: seq<Clipping>, stats: Stats, c: Clipping)
    requires TalliedSources(stats, s.db, done)
    ensures TalliedSources(CountOne(run, s, done, stats, c), s.db, done + [c])
  {
    TallyOther(stats, s.db, done, c);
    if !c.kind.Bookmark? {
      SourceSoFar(run, s, done, c);
      CountedSource(run, s, done, stats, c);
      TallySource(stats, s.db, done, c);
    }
  }

  lemma CountedHighlight(run: Settings, s: State, done: seq<Clipping>, stats: Stats, c: Clipping)
    requires c.kind.Highlight?
    ensures var t := WithSource(run, Imported(run, s, done), c);
            var one, counted := CountOne(run, s, done, stats, c), CountHighlight(stats, run.review, Stored(t.db, HighlightKey(c)));
            one.highlightsCreated == counted.highlightsCreated && one.highlightsExisting == counted.highlightsExisting
  {
  }

  lemma HighlightStep(run: Settings, s: State, done: seq<Clipping>, stats: Stats, c: Clipping)
    requires TalliedHighlights(stats, s.db, done)
    ensures TalliedHighlights(CountOne(run, s, done, stats, c), s.db, done + [c])
  {
    TallyOther(stats, s.db, done, c);
    if c.kind.Highlight? {
      HighlightSoFar(run, s, done, c);
      CountedHighlight(run, s, done, stats, c);
      TallyHighlight(stats, s.db, done, run.review, c);
    }
  }

  /** A review card is counted with each new highlight, when cards are wanted. */
  lemma CardStep(run: Settings, s: State, done: seq<Clipping>, stats: Stats, c: Clipping)
    ensures CountOne(run, s, done, stats, c).cardsCreated - stats.cardsCreated
         == if run.review then CountOne(run, s, done, stats, c).highlightsCreated - stats.highlightsCreated else 0
  {
    SourceFound(run, Imported(run, s, done), c);
  }

  lemma TallyOne(run: Settings, s: State, done: seq<Clipping>, stats: Stats, c: Clipping)
    requires Tallied(stats, run, s, done)
    ensures Tallied(CountOne(run, s, done, stats, c), run, s, done + [c])
  {
    NotesStep(run, s, done, stats, c);
    SourceStep(run, s, done, stats, c);
    HighlightStep(run, s, done, stats, c);
    CardStep(run, s, done, stats, c);
  }

  ghost function ForecastOne(db: Db, done: seq<Clipping>, stats: Stats, c: Clipping): Stats {
    if c.kind.Bookmark? then stats
    else
      var sources := CountSource(stats, SourceKey(c) in BookKeys(done), Stored(db, SourceKey(c)));
      if c.kind.Highlight? then CountHighlight(sources, false, Stored(db, HighlightKey(c)))
      else CountNote(sources, !IsNewNote(db, c))
  }

  lemma CountsSnoc(db: Db, done: seq<Clipping>, c: Clipping)
    ensures Highlights(done + [c]) == Highlights(done) + if c.kind.Highlight? then 1 else 0
    ensures NewHighlights(db, done + [c]) ==
            NewHighlights(db, done) + if c.kind.Highlight? && !Stored(db, HighlightKey(c)) then 1 else 0
    ensures NewNotes(db, done + [c]) == NewNotes(db, done) + if IsNewNote(db, c) then 1 else 0
  {
    assert (done + [c])[..|done|] == done;
  }

  lemma ForecastSources(db: Db, done: seq<Clipping>, stats: Stats, c: Clipping)
    requires TalliedSources(stats, db, done)
    ensures TalliedSources(ForecastOne(db, done, stats, c), db, done + [c])
  {
    TallyOther(stats, db, done, c);
    if !c.kind.Bookmark? { TallySource(stats, db, done, c); }
  }

  lemma ForecastHighlights(db: Db, done: seq<Clipping>, stats: Stats, c: Clipping)
    ensures var one := ForecastOne(db, done, stats, c);
            && one.highlightsCreated - stats.highlightsCreated == NewHighlights(db, done + [c]) - NewHighlights(db, done)
            && one.highlightsExisting - stats.highlightsExisting ==
               Highlights(done + [c]) - Highlights(done) - (NewHighlights(db, done + [c]) - NewHighlights(db, done))
            && one.cardsCreated == stats.cardsCreated
  {
    CountsSnoc(db, done, c);
  }

  lemma ForecastNotes(db: Db, done: seq<Clipping>, stats: Stats, c: Clipping)
    ensures ForecastOne(db, done, stats, c).notesCreated - stats.notesCreated == NewNotes(db, done + [c]) - NewNotes(db, done)
  {
    CountsSnoc(db, done, c);
  }

  lemma ForecastStep(db: Db, done: seq<Clipping>, stats: Stats, c: Clipping)
    requires Forecast(stats, db, done)
    ensures Forecast(ForecastOne(db, done, stats, c), db, done + [c])
  {
    ForecastSources(db, done, stats, c);
    ForecastHighlights(db, done, stats, c);
    ForecastNotes(db, done, stats, c);
  }

  lemma NothingYet(run: Settings, s: State)
    ensures Tallied(Stats(0, 0, 0, 0, 0, 0), run, s, [])
    ensures Forecast(Stats(0, 0, 0, 0, 0, 0), s.db, [])
  {
    assert Missing(s.db, {}) == {};
  }

  // ----------------------------------------------------------------------
  // The import loop
  // ----------------------------------------------------------------------

  lemma OneFurther(done: seq<Clipping>, clippings: seq<Clipping>)
    requires done <= clippings && |done| < |clippings|
    ensures done + [clippings[|done|]] <= clippings
  {
  }

  lemma AllDone(done: seq<Clipping>, clippings: seq<Clipping>)
    requires done <= clippings && |done| == |clippings|
    ensures done == clippings
  {
  }

  /** An import in progress: the library it writes to, the books met so far by key, and the
      counters. */
  class Importer {
    const run: Settings
    const dryRun: bool
    var db: Db
    var next: nat
    var cache: map<string, nat>
    var stats: Stats

    constructor (run: Settings, dryRun: bool, db: Db, next: nat)
      ensures this.run == run && this.dryRun == dryRun && this.db == db && this.next == next
      ensures cache == map[] && stats == Stats(0, 0, 0, 0, 0, 0)
    {
      this.run, this.dryRun, this.db, this.next := run, dryRun, db, next;
      cache, stats := map[], Stats(0, 0, 0, 0, 0, 0);
    }

    ghost function Now(): State
      reads this
    {
      State(db, next)
    }

    /** The cache agrees with a lookup by key. In a dry run a book that would be created has
        an id that no note belongs to. */
    ghost predicate CacheAgrees()
      reads this
    {
      && (dryRun ==> forall n <- db.notes :: n.item < next)
      && forall u <- cache ::
          if dryRun && !Stored(db, u) then forall n <- db.notes :: n.item != cache[u]
          else ByUrl(db.items, u) == Some(cache[u])
    }

    method FindOrCreateSource(c: Clipping) returns (source: nat)
      requires CacheAgrees()
      modifies this
      ensures CacheAgrees() && cache.Keys == old(cache.Keys) + {SourceKey(c)} && cache[SourceKey(c)] == source
      ensures !dryRun ==> Now() == WithSource(run, old(Now()), c)
      ensures dryRun ==> db == old(db)
      ensures stats == CountSource(old(stats), SourceKey(c) in old(cache), old(Stored(db, SourceKey(c))))
    {
      var key := SourceKey(c);
      if key in cache {
        source := cache[key];
        assert cache.Keys == cache.Keys + {key};
        return;
      }
      SourceFound(run, Now(), c);
      var existing := ByUrl(db.items, key);
      if existing.Some? {
        source := existing.value;
        stats := stats.(sourcesExisting := stats.sourcesExisting + 1);
      } else {
        source := next;
        if !dryRun {
          db := db.(items := db.items + [Book(run.now, source, c)], tagged := db.tagged + {source});
        }
        next := next + 1;
        stats := stats.(sourcesCreated := stats.sourcesCreated + 1);
      }
      cache := cache[key := source];
    }

    method ImportHighlight(c: Clipping, source: nat)
      requires CacheAgrees()
      modifies this
      ensures CacheAgrees() && cache == old(cache)
      ensures !dryRun ==> Now() == AddHighlight(run, old(Now()), source, c)
      ensures dryRun ==> db == old(db)
      ensures stats == CountHighlight(old(stats), run.review && !dryRun, old(Stored(db, HighlightKey(c))))
    {
      var key := HighlightKey(c);
      if ByUrl(db.items, key).Some? {
        stats := stats.(highlightsExisting := stats.highlightsExisting + 1);
        return;
      }
      if dryRun {
        stats := stats.(highlightsCreated := stats.highlightsCreated + 1);
        return;
      }
      ghost var before := db;
      var id := next;
      next := next + 1;
      db := db.(items := db.items + [HighlightOf(run.now, id, c)]);
      db := db.(metas := db.metas + [HighlightMeta(id, source, c.content)]);
      if run.review {
        db := db.(cards := db.cards + [Card(id, run.now)]);
        stats := stats.(cardsCreated := stats.cardsCreated + 1);
      }
      stats := stats.(highlightsCreated := stats.highlightsCreated + 1);
      assert db.cards == before.cards + if run.review then [Card(id, run.now)] else [];
      BooksStay(before, db, cache);
    }

    method ImportNote(c: Clipping, source: nat)
      requires CacheAgrees()
      modifies this
      ensures CacheAgrees() && cache == old(cache)
      ensures !dryRun ==> Now() == AddNote(run, old(Now()), source, c)
      ensures dryRun ==> db == old(db)
      ensures stats == CountNote(old(stats), c.content == "" || old(HasNote(db.notes, source, c.content)))
    {
      if c.content == "" { return; }
      if HasNote(db.notes, source, c.content) { return; }
      if dryRun {
        stats := stats.(notesCreated := stats.notesCreated + 1);
        return;
      }
      db := db.(notes := db.notes + [NoteRow(source, c.content, CreatedAt(run.now, c), run.now)]);
      stats := stats.(notesCreated := stats.notesCreated + 1);
    }

    /** Where the loop stands once `done` is behind it. */
    ghost predicate Follows(first: State, done: seq<Clipping>)
      reads this
    {
      && CacheAgrees() && cache.Keys == BookKeys(done)
      && (!dryRun ==> Now() == Imported(run, first, done) && Tallied(stats, run, first, done))
      && (dryRun ==> db == first.db && Forecast(stats, db, done))
    }

    lemma AtFirst()
      requires cache == map[] && stats == Stats(0, 0, 0, 0, 0, 0)
      requires dryRun ==> forall n <- db.notes :: n.item < next
      ensures Follows(Now(), [])
    {
      NothingYet(run, Now());
    }

    /** The loop over the clippings refines the import without a cache, and its counters say
        what it did. */
    method Import(clippings: seq<Clipping>)
      requires cache == map[] && stats == Stats(0, 0, 0, 0, 0, 0)
      requires dryRun ==> forall n <- db.notes :: n.item < next
      modifies this
      ensures !dryRun ==> Now() == Imported(run, old(Now()), clippings) && Tallied(stats, run, old(Now()), clippings)
      ensures dryRun ==> db == old(db) && Forecast(stats, db, clippings)
    {
      ghost var first := Now();
      ghost var done := [];
      AtFirst();
      for k := 0 to |clippings|
        invariant |done| == k && done <= clippings && Follows(first, done)
      {
        OneFurther(done, clippings);
        ImportOne(clippings[k], first, done);
        done := done + [clippings[k]];
      }
      AllDone(done, clippings);
    }

    method ImportOne(c: Clipping, ghost first: State, ghost done: seq<Clipping>)
      requires Follows(first, done)
      modifies this
      ensures Follows(first, done + [c])
    {
      KeysSnoc(done, c);
      if !dryRun {
        TallyOne(run, first, done, stats, c);
        ImportedSnoc(run, first, done, c);
      } else {
        ForecastStep(db, done, stats, c);
      }
      if c.kind.Bookmark? { return; }
      SourceFound(run, Now(), c);
      var source := FindOrCreateSource(c);
      if c.kind.Highlight? {
        ImportHighlight(c, source);
      } else {
        ImportNote(c, source);
      }
    }
  }
}
