/**
 The Markdown export plan: file names, collisions, and links between files.
 */
module Markdown {
  import opened Wrappers
  import opened Text
  import opened Template
  import Slug

  /** The printed form of an id; file names use its first eight characters. */
  type Uuid = s: string | |s| == 36 witness seq(36, _ => '0')

  function Short(id: Uuid): string { id[..8] }

  /** `sources` holds, for each highlight of the item, the item it was taken from. */
  datatype Item = Item(id: Uuid, title: string, date: string, contentType: string, sources: seq<Option<Uuid>>)

  datatype Target = Target(title: string, stem: string)

  datatype File = File(path: string, id: Uuid, related: seq<Target>)

  function ValuesOf(item: Item): Values { Values(item.title, item.date, Short(item.id), item.contentType) }

  function Stem(segments: seq<Segment>, item: Item): string {
    Rendered(segments, ValuesOf(item))
  }

  function Filename(segments: seq<Segment>, item: Item): string { Stem(segments, item) + ".md" }

  function TrimMd(s: string): string {
    if |s| >= 3 && s[|s| - 3..] == ".md" then TrimMd(s[..|s| - 3]) else s
  }

  function Renamed(filename: string, id: Uuid): string { TrimMd(filename) + "--" + Short(id) + ".md" }

  // ----------------------------------------------------------------------
  // The plan
  // ----------------------------------------------------------------------

  ghost predicate Taken(segments: seq<Segment>, earlier: seq<Item>, filename: string) {
    exists j :: 0 <= j < |earlier| && Filename(segments, earlier[j]) == filename
  }

  /** The path of item `k`: its rendered name, unless the template has no id and an earlier
      item renders to the same name. */
  ghost function Path(segments: seq<Segment>, items: seq<Item>, k: nat): string
    requires k < |items|
  {
    var filename := Filename(segments, items[k]);
    if Id !in segments && Taken(segments, items[..k], filename) then Renamed(filename, items[k].id) else filename
  }

  ghost function Uses(segments: seq<Segment>, items: seq<Item>, filename: string): nat {
    if items == [] then 0
    else
      Uses(segments, items[..|items| - 1], filename)
      + if Filename(segments, items[|items| - 1]) == filename then 1 else 0
  }

  lemma {:induction false} UsedIsTaken(segments: seq<Segment>, items: seq<Item>, filename: string)
    ensures Uses(segments, items, filename) > 0 <==> Taken(segments, items, filename)
  {
    if items != [] {
      var earlier := items[..|items| - 1];
      UsedIsTaken(segments, earlier, filename);
      assert forall j :: 0 <= j < |earlier| ==> items[j] == earlier[j];
      if Taken(segments, items, filename) && !Taken(segments, earlier, filename) {
        var j :| 0 <= j < |items| && Filename(segments, items[j]) == filename;
        assert j == |items| - 1;
      }
    }
  }

  function SeenCount(seen: map<string, nat>, filename: string): nat {
    if filename in seen then seen[filename] else 0
  }

  ghost predicate Tracks(seen: map<string, nat>, segments: seq<Segment>, items: seq<Item>) {
    forall f :: SeenCount(seen, f) == Uses(segments, items, f)
  }

  lemma TrackUse(seen: map<string, nat>, segments: seq<Segment>, items: seq<Item>, k: nat, filename: string)
    requires k < |items| && Tracks(seen, segments, items[..k]) && filename == Filename(segments, items[k])
    ensures Tracks(seen[filename := SeenCount(seen, filename) + 1], segments, items[..k + 1])
    ensures SeenCount(seen, filename) > 0 <==> Taken(segments, items[..k], filename)
  {
    var now := items[..k + 1];
    assert now[..|now| - 1] == items[..k] && now[|now| - 1] == items[k];
    UsedIsTaken(segments, items[..k], filename);
    var counted := seen[filename := SeenCount(seen, filename) + 1];
    forall f
      ensures SeenCount(counted, f) == Uses(segments, now, f)
    {
      assert SeenCount(seen, f) == Uses(segments, items[..k], f);
    }
  }

  lemma TrackName(seen: map<string, nat>, segments: seq<Segment>, items: seq<Item>, name: string)
    requires Tracks(seen, segments, items)
    ensures name !in seen ==> Tracks(seen[name := 0], segments, items)
  {
    if name !in seen {
      var now := seen[name := 0];
      forall f
        ensures SeenCount(now, f) == Uses(segments, items, f)
      {
        assert SeenCount(now, f) == SeenCount(seen, f);
      }
    }
  }

  /** What the plan says of item `k`. */
  ghost function PlannedFile(segments: seq<Segment>, backlinks: bool, items: seq<Item>, k: nat): File
    requires k < |items|
  {
    File(Path(segments, items, k), items[k].id, if backlinks then RelatedTo(items[k], Index(segments, items)) else [])
  }

  ghost function PlannedFiles(segments: seq<Segment>, backlinks: bool, items: seq<Item>, n: nat): (files: seq<File>)
    requires n <= |items|
    ensures |files| == n
  {
    if n == 0 then []
    else PlannedFiles(segments, backlinks, items, n - 1) + [PlannedFile(segments, backlinks, items, n - 1)]
  }

  lemma {:induction false} PlannedAt(segments: seq<Segment>, backlinks: bool, items: seq<Item>, n: nat, k: nat)
    requires k < n <= |items|
    ensures PlannedFiles(segments, backlinks, items, n)[k] == PlannedFile(segments, backlinks, items, k)
  {
    var front, last := PlannedFiles(segments, backlinks, items, n - 1), PlannedFile(segments, backlinks, items, n - 1);
    assert PlannedFiles(segments, backlinks, items, n) == front + [last];
    if k < n - 1 {
      PlannedAt(segments, backlinks, items, n - 1, k);
      assert (front + [last])[k] == front[k];
    } else {
      assert (front + [last])[k] == last;
    }
  }

  /** The planning loop, with its map of the names used so far. */
  method Plan(segments: seq<Segment>, backlinks: bool, items: seq<Item>) returns (files: seq<File>)
    ensures |files| == |items|
    ensures forall k :: 0 <= k < |items| ==> files[k] == PlannedFile(segments, backlinks, items, k)
  {
    var index: map<Uuid, Target> := map[];
    if backlinks { index := BuildIndex(segments, items); }
    var hasId := Id in segments;
    var seen: map<string, nat> := map[];
    files := [];
    for k := 0 to |items|
      invariant !hasId ==> Tracks(seen, segments, items[..k])
      invariant files == PlannedFiles(segments, backlinks, items, k)
    {
      var filename;
      filename, seen := NameFile(segments, hasId, items, k, seen);
      var related := [];
      if backlinks { related := Related(items[k], index); }
      files := files + [File(filename, items[k].id, related)];
    }
    forall k | 0 <= k < |items|
      ensures files[k] == PlannedFile(segments, backlinks, items, k)
    {
      PlannedAt(segments, backlinks, items, |items|, k);
    }
  }

  /** The name of item `k`, and the names used once it is taken. */
  method NameFile(segments: seq<Segment>, hasId: bool, items: seq<Item>, k: nat, seen: map<string, nat>)
    returns (filename: string, used: map<string, nat>)
    requires k < |items| && (hasId <==> Id in segments)
    requires !hasId ==> Tracks(seen, segments, items[..k])
    ensures filename == Path(segments, items, k)
    ensures !hasId ==> Tracks(used, segments, items[..k + 1])
  {
    used := seen;
    var rendered := Render(segments, ValuesOf(items[k]));
    filename := rendered + ".md";
    if !hasId {
      TrackUse(used, segments, items, k, filename);
      var count := SeenCount(used, filename) + 1;
      used := used[filename := count];
      if count > 1 {
        filename := TrimMd(filename) + "--" + Short(items[k].id) + ".md";
      }
      TrackName(used, segments, items[..k + 1], filename);
    }
    if filename !in used { used := used[filename := 0]; }
  }

  // ----------------------------------------------------------------------
  // Distinct paths
  // ----------------------------------------------------------------------

  /** How many times two hyphens stand next to each other. */
  ghost function Pairs(s: string): nat {
    if |s| < 2 then 0 else (if s[0] == '-' && s[1] == '-' then 1 else 0) + Pairs(s[1..])
  }

  ghost function Joint(a: string, b: string): nat {
    if a != "" && b != "" && a[|a| - 1] == '-' && b[0] == '-' then 1 else 0
  }

  lemma {:induction false} PairsConcat(a: string, b: string)
    ensures Pairs(a + b) == Pairs(a) + Joint(a, b) + Pairs(b)
  {
    if a == "" {
      assert a + b == b;
    } else {
      assert (a + b)[1..] == a[1..] + b;
      PairsConcat(a[1..], b);
      if |a| > 1 {
        assert (a + b)[1] == a[1] && a[1..][|a| - 2] == a[|a| - 1];
      } else if b != "" {
        assert (a + b)[1] == b[0];
      }
    }
  }

  lemma {:induction false} SlugHasNoPairs(s: string)
    requires Slug.Clean(s)
    ensures Pairs(s) == 0
  {
    if |s| >= 2 {
      assert !(s[1 - 1] == '-' && s[1] == '-');
      SlugHasNoPairs(s[1..]);
    }
  }

  ghost predicate IsDigit(c: char) { '0' <= c <= '9' }

  /** A four-digit year, a month and a day. */
  ghost predicate IsDay(d: string) {
    |d| == 10 && forall i :: 0 <= i < 10 ==> if i == 4 || i == 7 then d[i] == '-' else IsDigit(d[i])
  }

  lemma PieceIsSlug(s: Segment, v: Values)
    requires !s.Literal? && !s.Id? && IsDay(v.date)
    ensures Slug.IsSlug(Piece(s, v))
  {
    Slug.SlugIsNormal(v.title, 60);
    Slug.SlugIsNormal(v.contentType, 30);
  }

  ghost function LiteralPairs(segments: seq<Segment>): nat {
    if segments == [] then 0
    else (if segments[0].Literal? then Pairs(segments[0].text) else 0) + LiteralPairs(segments[1..])
  }

  /** What a template without an id renders has just the double hyphens of its literals. */
  lemma {:induction false} RenderedPairs(segments: seq<Segment>, v: Values)
    requires WellFormed(segments) && Id !in segments && IsDay(v.date)
    ensures Pairs(Rendered(segments, v)) == LiteralPairs(segments)
    ensures segments != [] && !segments[0].Literal? ==> Rendered(segments, v) != "" && Rendered(segments, v)[0] != '-'
  {
    if segments != [] {
      var first, rest := segments[0], segments[1..];
      WellFormedRest(segments);
      RenderedPairs(rest, v);
      PairsConcat(Piece(first, v), Rendered(rest, v));
      if !first.Literal? {
        assert first in segments;
        PieceIsSlug(first, v);
        SlugHasNoPairs(Piece(first, v));
      }
    }
  }

  /** Renaming puts the short id between stem and extension. */
  lemma RenamedExactly(stem: string, id: Uuid)
    requires |stem| < 3 || stem[|stem| - 3..] != ".md"
    ensures Renamed(stem + ".md", id) == stem + ("--" + (id[..8] + ".md"))
  {
    var name := stem + ".md";
    assert name[|name| - 3..] == ".md" && name[..|name| - 3] == stem;
    assert TrimMd(name) == TrimMd(stem) == stem;
  }

  lemma {:induction false} TrimMdPairs(s: string)
    ensures Pairs(TrimMd(s)) == Pairs(s)
  {
    if |s| >= 3 && s[|s| - 3..] == ".md" {
      var front := s[..|s| - 3];
      assert s == front + ".md";
      PairsConcat(front, ".md");
      DotMdHasNoPairs();
      TrimMdPairs(front);
    }
  }

  lemma DotMdHasNoPairs()
    ensures Pairs(".md") == 0
  {
    assert ".md"[1..] == "md" && "md"[1..] == "d";
  }

  lemma RenamedPairs(filename: string, id: Uuid)
    ensures Pairs(Renamed(filename, id)) > Pairs(filename)
  {
    TrimMdPairs(filename);
    PairsConcat(TrimMd(filename), "--");
    assert Pairs("--") == 1 by { assert "--"[1..] == "-"; }
    PairsConcat(TrimMd(filename) + "--", Short(id));
    PairsConcat(TrimMd(filename) + "--" + Short(id), ".md");
  }

  lemma FilenamePairs(segments: seq<Segment>, item: Item)
    requires WellFormed(segments) && Id !in segments && IsDay(item.date)
    ensures Pairs(Filename(segments, item)) == LiteralPairs(segments)
  {
    RenderedPairs(segments, ValuesOf(item));
    PairsConcat(Stem(segments, item), ".md");
    DotMdHasNoPairs();
  }

  ghost predicate Distinct(segments: seq<Segment>, items: seq<Item>) {
    forall i, j :: 0 <= i < j < |items| ==> Path(segments, items, i) != Path(segments, items, j)
  }

  lemma RenamedApart(f: string, g: string, a: Uuid, b: Uuid)
    ensures Renamed(f, a) == Renamed(g, b) <==> TrimMd(f) == TrimMd(g) && Short(a) == Short(b)
  {
    var x, y := Renamed(f, a), Renamed(g, b);
    if x == y {
      assert |TrimMd(f)| == |TrimMd(g)|;
      assert x[..|TrimMd(f)|] == TrimMd(f) && y[..|TrimMd(f)|] == TrimMd(g);
      var at := |TrimMd(f)| + 2;
      assert x[at..at + 8] == Short(a) && y[at..at + 8] == Short(b);
    }
  }

  ghost predicate IsRenamed(segments: seq<Segment>, items: seq<Item>, k: nat)
    requires k < |items|
  {
    Taken(segments, items[..k], Filename(segments, items[k]))
  }

  /** Two items of a template without an id share a path exactly when both are renamed, from
      the same name, and their ids start with the same eight characters. */
  lemma PathsMeet(segments: seq<Segment>, items: seq<Item>, i: nat, j: nat)
    requires WellFormed(segments) && Id !in segments && i < j < |items|
    requires IsDay(items[i].date) && IsDay(items[j].date)
    ensures Path(segments, items, i) == Path(segments, items, j) <==>
            && IsRenamed(segments, items, i) && IsRenamed(segments, items, j)
            && TrimMd(Filename(segments, items[i])) == TrimMd(Filename(segments, items[j]))
            && Short(items[i].id) == Short(items[j].id)
  {
    var f, g := Filename(segments, items[i]), Filename(segments, items[j]);
    FilenamePairs(segments, items[i]);
    FilenamePairs(segments, items[j]);
    RenamedPairs(f, items[i].id);
    RenamedPairs(g, items[j].id);
    RenamedApart(f, g, items[i].id, items[j].id);
    if !IsRenamed(segments, items, j) {
      assert items[..j][i] == items[i];
      assert f != g;
    }
  }

  /** Without an id in the template, the collision rule keeps all paths apart. */
  lemma CollisionsResolved(segments: seq<Segment>, items: seq<Item>)
    requires WellFormed(segments) && Id !in segments
    requires forall item <- items :: IsDay(item.date)
    requires forall i, j :: 0 <= i < j < |items| ==> Short(items[i].id) != Short(items[j].id)
    ensures Distinct(segments, items)
  {
    forall i, j | 0 <= i < j < |items|
      ensures Path(segments, items, i) != Path(segments, items, j)
    {
      assert items[i] in items && items[j] in items;
      PathsMeet(segments, items, i, j);
    }
  }

  /** Segments that take the same room whatever the item. */
  ghost predicate FixedWidth(segments: seq<Segment>) {
    forall s <- segments :: !s.Title? && !s.Type?
  }

  ghost function Width(segments: seq<Segment>): nat
  {
    if segments == [] then 0
    else
      var w := match segments[0] case Literal(text) => |text| case Date => 10 case _ => 8;
      w + Width(segments[1..])
  }

  lemma {:induction false} RenderedWidth(segments: seq<Segment>, v: Values)
    requires FixedWidth(segments) && IsDay(v.date) && |v.shortId| == 8
    ensures |Rendered(segments, v)| == Width(segments)
  {
    if segments != [] {
      assert segments[0] in segments;
      RenderedWidth(segments[1..], v);
    }
  }

  lemma {:induction false} RenderedConcat(a: seq<Segment>, b: seq<Segment>, v: Values)
    ensures Rendered(a + b, v) == Rendered(a, v) + Rendered(b, v)
  {
    if a == [] {
      assert a + b == b;
    } else {
      assert (a + b)[1..] == a[1..] + b;
      RenderedConcat(a[1..], b, v);
    }
  }

  lemma IdPlace(before: seq<Segment>, after: seq<Segment>, v: Values)
    ensures Rendered(before + [Id] + after, v) == Rendered(before, v) + v.shortId + Rendered(after, v)
  {
    RenderedConcat(before + [Id], after, v);
    RenderedConcat(before, [Id], v);
    RenderedId(v);
  }

  lemma RenderedId(v: Values)
    ensures Rendered([Id], v) == v.shortId
  {
    assert [Id][1..] == [];
    assert v.shortId + "" == v.shortId;
  }

  /** With an id that only literals, dates and ids stand before, or only those after, the
      rendered name tells the id, so all paths are apart. The default template is one of these. */
  lemma IdKeepsPathsApart(before: seq<Segment>, after: seq<Segment>, items: seq<Item>)
    requires FixedWidth(before) || FixedWidth(after)
    requires forall item <- items :: IsDay(item.date)
    requires forall i, j :: 0 <= i < j < |items| ==> Short(items[i].id) != Short(items[j].id)
    ensures Distinct(before + [Id] + after, items)
  {
    var segments := before + [Id] + after;
    assert segments[|before|] == Id;
    forall i, j | 0 <= i < j < |items|
      ensures Path(segments, items, i) != Path(segments, items, j)
    {
      assert items[i] in items && items[j] in items;
      IdTells(before, after, items[i], items[j]);
    }
  }

  lemma IdTells(before: seq<Segment>, after: seq<Segment>, a: Item, b: Item)
    requires FixedWidth(before) || FixedWidth(after)
    requires IsDay(a.date) && IsDay(b.date) && Short(a.id) != Short(b.id)
    ensures Filename(before + [Id] + after, a) != Filename(before + [Id] + after, b)
  {
    var v, w := ValuesOf(a), ValuesOf(b);
    IdPlace(before, after, v);
    IdPlace(before, after, w);
    if FixedWidth(before) {
      RenderedWidth(before, v);
      RenderedWidth(before, w);
    } else {
      RenderedWidth(after, v);
      RenderedWidth(after, w);
    }
    if Filename(before + [Id] + after, a) == Filename(before + [Id] + after, b) {
      MiddleTells(Rendered(before, v), v.shortId, Rendered(after, v), Rendered(before, w), w.shortId, Rendered(after, w));
    }
  }

  /** Equal texts have equal middles of one length when what stands before, or what stands
      behind, has one length too. */
  lemma MiddleTells(x: string, m: string, y: string, x': string, m': string, y': string)
    requires x + m + y + ".md" == x' + m' + y' + ".md"
    requires |m| == |m'| && (|x| == |x'| || |y| == |y'|)
    ensures m == m'
  {
    assert |x| == |x'|;
    assert m == (x + m + y + ".md")[|x|..|x| + |m|];
    assert m' == (x' + m' + y' + ".md")[|x|..|x| + |m|];
  }

  lemma DefaultTemplate(items: seq<Item>)
    requires forall item <- items :: IsDay(item.date)
    requires forall i, j :: 0 <= i < j < |items| ==> Short(items[i].id) != Short(items[j].id)
    ensures Distinct([Title, Literal("--"), Id], items)
  {
    IdKeepsPathsApart([Title, Literal("--")], [], items);
    assert [Title, Literal("--")] + [Id] + [] == [Title, Literal("--"), Id];
  }

  // ----------------------------------------------------------------------
  // Links
  // ----------------------------------------------------------------------

  function Index(segments: seq<Segment>, items: seq<Item>): map<Uuid, Target> {
    if items == [] then map[]
    else
      var last := items[|items| - 1];
      Index(segments, items[..|items| - 1])[last.id := Target(last.title, Stem(segments, last))]
  }

  method BuildIndex(segments: seq<Segment>, items: seq<Item>) returns (index: map<Uuid, Target>)
    ensures index == Index(segments, items)
  {
    index := map[];
    assert items[..0] == [];
    for k := 0 to |items|
      invariant index == Index(segments, items[..k])
    {
      assert items[..k + 1][..k] == items[..k];
      var stem := Render(segments, ValuesOf(items[k]));
      index := index[items[k].id := Target(items[k].title, stem)];
    }
    assert items[..|items|] == items;
  }

  predicate Links(item: Item, source: Option<Uuid>, index: map<Uuid, Target>) {
    source.Some? && source.value != item.id && source.value in index
  }

  function Linked(item: Item, sources: seq<Option<Uuid>>, index: map<Uuid, Target>): seq<Target> {
    if sources == [] then []
    else
      Linked(item, sources[..|sources| - 1], index)
      + if Links(item, sources[|sources| - 1], index) then [index[sources[|sources| - 1].value]] else []
  }

  function InsertByStem(t: Target, targets: seq<Target>): seq<Target> {
    if targets == [] || !Before(targets[0].stem, t.stem) then [t] + targets
    else [targets[0]] + InsertByStem(t, targets[1..])
  }

  function SortByStem(targets: seq<Target>): seq<Target> {
    if targets == [] then [] else InsertByStem(targets[0], SortByStem(targets[1..]))
  }

  /** Of neighbours with one stem, the first stays. */
  function Deduped(targets: seq<Target>): seq<Target> {
    if |targets| < 2 then targets
    else
      var rest := Deduped(targets[1..]);
      if targets[0].stem == targets[1].stem then [targets[0]] + rest[1..] else [targets[0]] + rest
  }

  function RelatedTo(item: Item, index: map<Uuid, Target>): seq<Target> {
    Deduped(SortByStem(Linked(item, item.sources, index)))
  }

  method Related(item: Item, index: map<Uuid, Target>) returns (related: seq<Target>)
    ensures related == RelatedTo(item, index)
  {
    related := [];
    assert item.sources[..0] == [];
    for k := 0 to |item.sources|
      invariant related == Linked(item, item.sources[..k], index)
    {
      assert item.sources[..k + 1][..k] == item.sources[..k];
      if Links(item, item.sources[k], index) {
        related := related + [index[item.sources[k].value]];
      }
    }
    assert item.sources[..|item.sources|] == item.sources;
    related := Deduped(SortByStem(related));
  }

  ghost predicate Eligible(item: Item, index: map<Uuid, Target>, t: Target) {
    exists source <- item.sources :: Links(item, source, index) && index[source.value] == t
  }

  lemma {:induction false} LinkedMeans(item: Item, sources: seq<Option<Uuid>>, index: map<Uuid, Target>, t: Target)
    ensures t in Linked(item, sources, index) <==>
            exists source <- sources :: Links(item, source, index) && index[source.value] == t
  {
    if sources != [] {
      var front, last := sources[..|sources| - 1], sources[|sources| - 1];
      LinkedMeans(item, front, index, t);
      assert sources == front + [last];
      assert forall source :: source in sources <==> source in front || source == last;
    }
  }

  ghost predicate Sorted(targets: seq<Target>) {
    forall i :: 0 < i < |targets| ==> !Before(targets[i].stem, targets[i - 1].stem)
  }

  ghost predicate StrictlySorted(targets: seq<Target>) {
    forall i :: 0 < i < |targets| ==> Before(targets[i - 1].stem, targets[i].stem)
  }

  lemma {:induction false} InsertSorts(t: Target, targets: seq<Target>)
    requires Sorted(targets)
    ensures Sorted(InsertByStem(t, targets)) && InsertByStem(t, targets) != []
    ensures InsertByStem(t, targets)[0] == t || (targets != [] && InsertByStem(t, targets)[0] == targets[0])
    ensures forall x :: x in InsertByStem(t, targets) <==> x == t || x in targets
  {
    if targets != [] && Before(targets[0].stem, t.stem) {
      InsertSorts(t, targets[1..]);
      BeforeOrders(targets[0].stem, t.stem, targets[0].stem);
      assert targets == [targets[0]] + targets[1..];
    }
  }

  lemma {:induction false} SortSorts(targets: seq<Target>)
    ensures Sorted(SortByStem(targets))
    ensures forall x :: x in SortByStem(targets) <==> x in targets
  {
    if targets != [] {
      SortSorts(targets[1..]);
      InsertSorts(targets[0], SortByStem(targets[1..]));
      assert targets == [targets[0]] + targets[1..];
    }
  }

  lemma {:induction false} DedupStrict(targets: seq<Target>)
    requires Sorted(targets)
    ensures StrictlySorted(Deduped(targets))
    ensures targets != [] ==> Deduped(targets) != [] && Deduped(targets)[0] == targets[0]
    ensures forall x <- Deduped(targets) :: x in targets
  {
    if |targets| >= 2 {
      DedupStrict(targets[1..]);
      BeforeOrders(targets[0].stem, targets[1].stem, "");
      assert targets == [targets[0]] + targets[1..];
    }
  }

  lemma {:induction false} DedupKeeps(targets: seq<Target>, x: Target)
    requires x in targets
    ensures exists y <- Deduped(targets) :: y.stem == x.stem
  {
    if |targets| >= 2 {
      var rest := Deduped(targets[1..]);
      assert targets[0] in Deduped(targets);
      assert targets == [targets[0]] + targets[1..];
      if x != targets[0] {
        DedupKeeps(targets[1..], x);
        var y :| y in rest && y.stem == x.stem;
        DedupHead(targets[1..]);
        assert rest == [rest[0]] + rest[1..];
      }
    }
  }

  lemma DedupHead(targets: seq<Target>)
    requires targets != []
    ensures Deduped(targets) != [] && Deduped(targets)[0] == targets[0]
  {
  }

  lemma {:induction false} StrictlyApart(targets: seq<Target>, i: nat, j: nat)
    requires StrictlySorted(targets) && i < j < |targets|
    ensures Before(targets[i].stem, targets[j].stem)
    decreases j
  {
    if i < j - 1 {
      StrictlyApart(targets, i, j - 1);
      BeforeOrders(targets[i].stem, targets[j - 1].stem, targets[j].stem);
    }
  }

  /** The Related section lists, in order and once each, the stems of the other exported
      items that the item's highlights were taken from. */
  lemma RelatedLists(item: Item, index: map<Uuid, Target>)
    ensures forall i, j :: 0 <= i < j < |RelatedTo(item, index)| ==>
      Before(RelatedTo(item, index)[i].stem, RelatedTo(item, index)[j].stem)
    ensures forall t <- RelatedTo(item, index) :: Eligible(item, index, t)
    ensures forall t :: Eligible(item, index, t) ==> exists y <- RelatedTo(item, index) :: y.stem == t.stem
  {
    var linked := Linked(item, item.sources, index);
    var related := RelatedTo(item, index);
    SortSorts(linked);
    DedupStrict(SortByStem(linked));
    forall t
      ensures t in linked <==> Eligible(item, index, t)
    {
      LinkedMeans(item, item.sources, index, t);
    }
    forall t | Eligible(item, index, t)
      ensures exists y <- related :: y.stem == t.stem
    {
      DedupKeeps(SortByStem(linked), t);
    }
    forall i, j | 0 <= i < j < |related|
      ensures Before(related[i].stem, related[j].stem)
    {
      StrictlyApart(related, i, j);
    }
  }

  lemma {:induction false} IndexNames(segments: seq<Segment>, items: seq<Item>, k: nat)
    requires k < |items|
    requires forall i, j :: 0 <= i < j < |items| ==> items[i].id != items[j].id
    ensures items[k].id in Index(segments, items)
    ensures Index(segments, items)[items[k].id] == Target(items[k].title, Stem(segments, items[k]))
  {
    var front := items[..|items| - 1];
    if k < |items| - 1 {
      assert forall i :: 0 <= i < |front| ==> front[i] == items[i];
      IndexNames(segments, front, k);
    }
  }

  lemma {:induction false} IndexHolds(segments: seq<Segment>, items: seq<Item>, id: Uuid) returns (k: nat)
    requires id in Index(segments, items)
    ensures k < |items| && items[k].id == id
  {
    if items[|items| - 1].id == id {
      k := |items| - 1;
    } else {
      k := IndexHolds(segments, items[..|items| - 1], id);
    }
  }

  /** Where a link goes: it names the stem of another exported item that a highlight was
      taken from, and with `.md` it is that item's planned path exactly when the template
      has an id or the item was the first to render to its name. */
  lemma LinksReachTheirItems(segments: seq<Segment>, items: seq<Item>, k: nat, t: Target) returns (j: nat)
    requires k < |items| && t in RelatedTo(items[k], Index(segments, items))
    requires forall a, b :: 0 <= a < b < |items| ==> items[a].id != items[b].id
    ensures j < |items| && j != k && Some(items[j].id) in items[k].sources
    ensures t == Target(items[j].title, Stem(segments, items[j]))
    ensures t.stem + ".md" == Path(segments, items, j) <==> Id in segments || !IsRenamed(segments, items, j)
  {
    var index := Index(segments, items);
    RelatedLists(items[k], index);
    assert Eligible(items[k], index, t);
    var source :| source in items[k].sources && Links(items[k], source, index) && index[source.value] == t;
    j := IndexHolds(segments, items, source.value);
    IndexNames(segments, items, j);
    RenamedPairs(Filename(segments, items[j]), items[j].id);
  }
}
