/**
 What an import does to a library, and what export followed by import restores.

 An import splits into two independent parts: it resolves folder names, creating the
 missing folders, and it files feeds one after the other in the folders so found. Both
 parts are described by what a caller can observe: the path of names that leads to a
 folder, and the feed found under a URL.
 */
module LibraryProofs {
  import opened Wrappers
  import Text
  import opened Opml
  import opened OpmlProofs
  import opened Library

  // ----------------------------------------------------------------------
  // Paths of folder names
  // ----------------------------------------------------------------------

  /** Folder `fid` is reached from the root through folders named exactly `path`. */
  ghost predicate At(folders: seq<Folder>, fid: Option<Id>, path: seq<string>)
    decreases |path|
  {
    if path == [] then fid.None?
    else exists f <- folders ::
        fid == Some(f.id) && f.name == path[|path| - 1] && At(folders, f.parentId, path[..|path| - 1])
  }

  ghost function FoldPath(path: seq<string>): (r: seq<string>)
    ensures |r| == |path|
  {
    seq(|path|, i requires 0 <= i < |path| => Text.Fold(path[i]))
  }

  /** The same, up to the ASCII case of the names. */
  ghost predicate AtFolded(folders: seq<Folder>, fid: Option<Id>, path: seq<string>) {
    exists p :: At(folders, fid, p) && FoldPath(p) == FoldPath(path)
  }

  lemma FoldPathInit(p: seq<string>, q: seq<string>)
    requires FoldPath(p) == FoldPath(q) && p != []
    ensures |q| == |p| && FoldPath(p[..|p| - 1]) == FoldPath(q[..|q| - 1]) && Text.Fold(p[|p| - 1]) == Text.Fold(q[|q| - 1])
  {
    var n := |p| - 1;
    assert |q| == |p|;
    forall i | 0 <= i < n
      ensures Text.Fold(p[i]) == Text.Fold(q[i])
    {
      assert FoldPath(p)[i] == FoldPath(q)[i];
    }
    assert FoldPath(p)[n] == FoldPath(q)[n];
  }

  lemma {:induction false} AtFunctional(folders: seq<Folder>, fid: Option<Id>, p: seq<string>, q: seq<string>)
    requires UniqueIds(folders) && At(folders, fid, p) && At(folders, fid, q)
    ensures p == q
    decreases |p|
  {
    if p != [] {
      var f :| f in folders && fid == Some(f.id) && f.name == p[|p| - 1] && At(folders, f.parentId, p[..|p| - 1]);
      var g :| g in folders && fid == Some(g.id) && g.name == q[|q| - 1] && At(folders, g.parentId, q[..|q| - 1]);
      assert f == g;
      AtFunctional(folders, f.parentId, p[..|p| - 1], q[..|q| - 1]);
      assert p == p[..|p| - 1] + [p[|p| - 1]];
      assert q == q[..|q| - 1] + [q[|q| - 1]];
    }
  }

  lemma {:induction false} AtInjective(folders: seq<Folder>, fid: Option<Id>, p: seq<string>, gid: Option<Id>, q: seq<string>)
    requires UniqueIds(folders) && UniqueSiblings(folders)
    requires At(folders, fid, p) && At(folders, gid, q) && FoldPath(p) == FoldPath(q)
    ensures fid == gid
    decreases |p|
  {
    assert |q| == |FoldPath(q)| == |p|;
    if p != [] {
      FoldPathInit(p, q);
      var f :| f in folders && fid == Some(f.id) && f.name == p[|p| - 1] && At(folders, f.parentId, p[..|p| - 1]);
      var g :| g in folders && gid == Some(g.id) && g.name == q[|q| - 1] && At(folders, g.parentId, q[..|q| - 1]);
      AtInjective(folders, f.parentId, p[..|p| - 1], g.parentId, q[..|q| - 1]);
      assert f == g;
    }
  }

  lemma {:induction false} AtGrows(folders: seq<Folder>, more: seq<Folder>, fid: Option<Id>, p: seq<string>)
    requires At(folders, fid, p) && forall f <- folders :: f in more
    ensures At(more, fid, p)
    decreases |p|
  {
    if p != [] {
      var f :| f in folders && fid == Some(f.id) && f.name == p[|p| - 1] && At(folders, f.parentId, p[..|p| - 1]);
      AtGrows(folders, more, f.parentId, p[..|p| - 1]);
    }
  }

  lemma AtChild(folders: seq<Folder>, f: Folder, path: seq<string>)
    requires f in folders && At(folders, f.parentId, path)
    ensures At(folders, Some(f.id), path + [f.name])
  {
    var p := path + [f.name];
    assert p[..|p| - 1] == path;
  }

  // ----------------------------------------------------------------------
  // What a forest asks for
  // ----------------------------------------------------------------------

  /** A subscription as a file states it: under which folder names it is listed. */
  datatype Entry = Entry(title: string, url: string, siteUrl: Option<string>, path: seq<string>)

  /** What the file calls an outline: its title, and only without one its text. */
  ghost function Called(o: Outline): string { if o.title.Some? then o.title.value else o.text }

  /** The subscriptions of a forest in document order. Unnamed folders leave no trace in
      the path, and whatever hangs below a feed is not looked at. */
  ghost function Entries(outlines: seq<Outline>, path: seq<string>): seq<Entry> {
    if outlines == [] then []
    else
      var o := outlines[0];
      (if o.xmlUrl.Some? then [Entry(Called(o), o.xmlUrl.value, o.htmlUrl, path)]
       else Entries(o.children, if Called(o) == "" then path else path + [Called(o)]))
      + Entries(outlines[1..], path)
  }

  ghost predicate DistinctUrls(entries: seq<Entry>) {
    forall i, j :: 0 <= i < j < |entries| ==> entries[i].url != entries[j].url
  }

  lemma {:induction false} EntriesConcat(a: seq<Outline>, b: seq<Outline>, path: seq<string>)
    ensures Entries(a + b, path) == Entries(a, path) + Entries(b, path)
  {
    if a == [] {
      assert a + b == b;
    } else {
      assert (a + b)[1..] == a[1..] + b;
      EntriesConcat(a[1..], b, path);
    }
  }

  // ----------------------------------------------------------------------
  // First part of an import: resolving folders
  // ----------------------------------------------------------------------

  ghost function TableAfter(t: Table, outlines: seq<Outline>, parent: Option<Id>, now: int): Table
    decreases outlines, 0
  {
    if outlines == [] then t
    else TableAfter(TableAfterOne(t, outlines[0], parent, now), outlines[1..], parent, now)
  }

  ghost function TableAfterOne(t: Table, o: Outline, parent: Option<Id>, now: int): Table
    decreases o, 1
  {
    if o.IsFeed() then t
    else if o.DisplayName() == "" then TableAfter(t, o.children, parent, now)
    else
      var (t', f) := GetOrCreate(t, o.DisplayName(), parent, now);
      TableAfter(t', o.children, Some(f.id), now)
  }

  datatype Placement = Placement(title: string, url: string, siteUrl: Option<string>, folder: Option<Id>)

  /** The feeds of a forest with the folder each one is to be filed in. */
  ghost function Placed(t: Table, outlines: seq<Outline>, parent: Option<Id>, now: int): seq<Placement>
    decreases outlines, 0
  {
    if outlines == [] then []
    else PlacedOne(t, outlines[0], parent, now)
         + Placed(TableAfterOne(t, outlines[0], parent, now), outlines[1..], parent, now)
  }

  ghost function PlacedOne(t: Table, o: Outline, parent: Option<Id>, now: int): seq<Placement>
    decreases o, 1
  {
    if o.IsFeed() then [Placement(o.DisplayName(), o.xmlUrl.value, o.htmlUrl, parent)]
    else if o.DisplayName() == "" then Placed(t, o.children, parent, now)
    else
      var (t', f) := GetOrCreate(t, o.DisplayName(), parent, now);
      Placed(t', o.children, Some(f.id), now)
  }

  ghost predicate Known(t: Table, parent: Option<Id>) { parent.Some? ==> parent.value < t.next }

  ghost predicate Grown(t: Table, t': Table) {
    t.folders <= t'.folders && t.next <= t'.next
  }

  lemma GetOrCreateGrows(t: Table, name: string, parent: Option<Id>, now: int)
    requires ValidTable(t) && Known(t, parent)
    ensures var (t', f) := GetOrCreate(t, name, parent, now);
            ValidTable(t') && Grown(t, t') && f in t'.folders && f.parentId == parent
            && Text.Fold(f.name) == Text.Fold(name) && Known(t', Some(f.id))
  {
    var (t', f) := GetOrCreate(t, name, parent, now);
    if FolderByName(t.folders, name, parent).None? {
      assert t'.folders[|t.folders|] == f;
      assert forall g <- t'.folders :: g in t.folders || g == f;
      assert forall g <- t.folders :: g.id < t.next;
    }
  }

  lemma {:induction false} TableGrows(t: Table, outlines: seq<Outline>, parent: Option<Id>, now: int)
    requires ValidTable(t) && Known(t, parent)
    ensures ValidTable(TableAfter(t, outlines, parent, now)) && Grown(t, TableAfter(t, outlines, parent, now))
    decreases outlines, 0
  {
    if outlines != [] {
      TableGrowsOne(t, outlines[0], parent, now);
      TableGrows(TableAfterOne(t, outlines[0], parent, now), outlines[1..], parent, now);
    }
  }

  lemma {:induction false} TableGrowsOne(t: Table, o: Outline, parent: Option<Id>, now: int)
    requires ValidTable(t) && Known(t, parent)
    ensures ValidTable(TableAfterOne(t, o, parent, now)) && Grown(t, TableAfterOne(t, o, parent, now))
    decreases o, 1
  {
    if o.IsFeed() {
    } else if o.DisplayName() == "" {
      TableGrows(t, o.children, parent, now);
    } else {
      GetOrCreateGrows(t, o.DisplayName(), parent, now);
      var (t', f) := GetOrCreate(t, o.DisplayName(), parent, now);
      TableGrows(t', o.children, Some(f.id), now);
    }
  }

  /** A name once found is found again, as the same folder, in every later table. */
  lemma FoundAgain(t: Table, later: Table, name: string, parent: Option<Id>, now: int)
    requires ValidTable(t) && Known(t, parent) && ValidTable(later)
    requires Grown(GetOrCreate(t, name, parent, now).0, later)
    ensures GetOrCreate(later, name, parent, now) == (later, GetOrCreate(t, name, parent, now).1)
  {
    GetOrCreateGrows(t, name, parent, now);
    var (t', f) := GetOrCreate(t, name, parent, now);
    assert f in later.folders;
    var again := FolderByName(later.folders, name, parent);
    assert again.Some?;
    assert again.value == f;
  }

  /** Importing the same forest into any later table creates no folder and resolves every
      feed to the same folder as the first time. */
  lemma {:induction false} Resettles(t: Table, later: Table, outlines: seq<Outline>, parent: Option<Id>, now: int, now': int)
    requires ValidTable(t) && Known(t, parent) && ValidTable(later)
    requires Grown(TableAfter(t, outlines, parent, now), later)
    ensures TableAfter(later, outlines, parent, now') == later
    ensures Placed(later, outlines, parent, now') == Placed(t, outlines, parent, now)
    decreases outlines, 0
  {
    if outlines != [] {
      TableGrowsOne(t, outlines[0], parent, now);
      var t1 := TableAfterOne(t, outlines[0], parent, now);
      TableGrows(t1, outlines[1..], parent, now);
      ResettlesOne(t, later, outlines[0], parent, now, now');
      Resettles(t1, later, outlines[1..], parent, now, now');
    }
  }

  lemma {:induction false} ResettlesOne(t: Table, later: Table, o: Outline, parent: Option<Id>, now: int, now': int)
    requires ValidTable(t) && Known(t, parent) && ValidTable(later)
    requires Grown(TableAfterOne(t, o, parent, now), later)
    ensures TableAfterOne(later, o, parent, now') == later
    ensures PlacedOne(later, o, parent, now') == PlacedOne(t, o, parent, now)
    decreases o, 1
  {
    if o.IsFeed() {
    } else if o.DisplayName() == "" {
      Resettles(t, later, o.children, parent, now, now');
    } else {
      GetOrCreateGrows(t, o.DisplayName(), parent, now);
      var (t', f) := GetOrCreate(t, o.DisplayName(), parent, now);
      TableGrows(t', o.children, Some(f.id), now);
      FoundAgain(t, later, o.DisplayName(), parent, now);
      assert GetOrCreate(later, o.DisplayName(), parent, now') == (later, f);
      Resettles(t', later, o.children, Some(f.id), now, now');
    }
  }

  /** Placement and entry agree: same feed, and the folder lies at the entry's path. */
  ghost predicate Files(folders: seq<Folder>, p: Placement, e: Entry) {
    p.title == e.title && p.url == e.url && p.siteUrl == e.siteUrl && AtFolded(folders, p.folder, e.path)
  }

  ghost predicate AllFile(folders: seq<Folder>, ps: seq<Placement>, es: seq<Entry>) {
    |ps| == |es| && forall k :: 0 <= k < |ps| ==> Files(folders, ps[k], es[k])
  }

  lemma AllFileGrows(t: Table, later: Table, ps: seq<Placement>, es: seq<Entry>)
    requires AllFile(t.folders, ps, es) && Grown(t, later)
    ensures AllFile(later.folders, ps, es)
  {
    forall k | 0 <= k < |ps|
      ensures Files(later.folders, ps[k], es[k])
    {
      assert Files(t.folders, ps[k], es[k]);
      AtFoldedGrows(t, later, ps[k].folder, es[k].path);
    }
  }

  lemma AtFoldedGrows(t: Table, later: Table, fid: Option<Id>, path: seq<string>)
    requires AtFolded(t.folders, fid, path) && Grown(t, later)
    ensures AtFolded(later.folders, fid, path)
  {
    var p :| At(t.folders, fid, p) && FoldPath(p) == FoldPath(path);
    AtGrows(t.folders, later.folders, fid, p);
  }

  lemma AtFoldedChild(folders: seq<Folder>, f: Folder, path: seq<string>, name: string)
    requires f in folders && AtFolded(folders, f.parentId, path) && Text.Fold(f.name) == Text.Fold(name)
    ensures AtFolded(folders, Some(f.id), path + [name])
  {
    var p :| At(folders, f.parentId, p) && FoldPath(p) == FoldPath(path);
    AtChild(folders, f, p);
    var x, y := FoldPath(p + [f.name]), FoldPath(path + [name]);
    forall i | 0 <= i < |x|
      ensures x[i] == y[i]
    {
      if i < |p| { assert FoldPath(p)[i] == FoldPath(path)[i]; }
    }
    assert x == y;
  }

  /** Every feed is resolved to the folder its position in the file names. */
  lemma {:induction false} Resolves(t: Table, outlines: seq<Outline>, parent: Option<Id>, now: int, path: seq<string>)
    requires ValidTable(t) && Known(t, parent) && AtFolded(t.folders, parent, path)
    ensures AllFile(TableAfter(t, outlines, parent, now).folders, Placed(t, outlines, parent, now), Entries(outlines, path))
    decreases outlines, 0
  {
    if outlines != [] {
      var t1 := TableAfterOne(t, outlines[0], parent, now);
      TableGrowsOne(t, outlines[0], parent, now);
      TableGrows(t1, outlines[1..], parent, now);
      ResolvesOne(t, outlines[0], parent, now, path);
      AtFoldedGrows(t, t1, parent, path);
      Resolves(t1, outlines[1..], parent, now, path);
      var first := Entries([outlines[0]], path);
      assert outlines == [outlines[0]] + outlines[1..];
      EntriesConcat([outlines[0]], outlines[1..], path);
      var last := TableAfter(t1, outlines[1..], parent, now);
      AllFileGrows(t1, last, PlacedOne(t, outlines[0], parent, now), first);
      AllFileConcat(last.folders, PlacedOne(t, outlines[0], parent, now), first,
                    Placed(t1, outlines[1..], parent, now), Entries(outlines[1..], path));
    }
  }

  lemma AllFileConcat(folders: seq<Folder>, ps: seq<Placement>, es: seq<Entry>, qs: seq<Placement>, fs: seq<Entry>)
    requires AllFile(folders, ps, es) && AllFile(folders, qs, fs)
    ensures AllFile(folders, ps + qs, es + fs)
  {
  }

  lemma {:induction false} ResolvesOne(t: Table, o: Outline, parent: Option<Id>, now: int, path: seq<string>)
    requires ValidTable(t) && Known(t, parent) && AtFolded(t.folders, parent, path)
    ensures AllFile(TableAfterOne(t, o, parent, now).folders, PlacedOne(t, o, parent, now), Entries([o], path))
    decreases o, 1
  {
    assert [o][1..] == [];
    if o.IsFeed() {
      assert Entries([o], path) == [Entry(o.DisplayName(), o.xmlUrl.value, o.htmlUrl, path)];
    } else if o.DisplayName() == "" {
      assert Entries([o], path) == Entries(o.children, path);
      Resolves(t, o.children, parent, now, path);
    } else {
      var name := o.DisplayName();
      assert Entries([o], path) == Entries(o.children, path + [name]);
      GetOrCreateGrows(t, name, parent, now);
      var (t', f) := GetOrCreate(t, name, parent, now);
      AtFoldedGrows(t, t', parent, path);
      AtFoldedChild(t'.folders, f, path, name);
      Resolves(t', o.children, Some(f.id), now, path + [name]);
    }
  }

  // ----------------------------------------------------------------------
  // Second part of an import: filing feeds
  // ----------------------------------------------------------------------

  /** The part of a session that filing reads and writes. */
  datatype Filing = Filing(feeds: seq<Feed>, next: Id, added: nat, existing: nat, moved: nat)

  ghost function FilingOf(s: Session): Filing {
    Filing(s.feeds, s.nextFeed, s.stats.feedsAdded, s.stats.feedsExisting, s.stats.feedsMoved)
  }

  ghost function File(fl: Filing, p: Placement): Filing {
    match FeedByUrl(fl.feeds, p.url)
    case Some(f) =>
      if f.folderId == p.folder then fl.(existing := fl.existing + 1)
      else fl.(feeds := MoveFeed(fl.feeds, f.id, p.folder), moved := fl.moved + 1)
    case None =>
      fl.(feeds := fl.feeds + [Feed(fl.next, p.title, p.url, p.siteUrl, p.folder)], next := fl.next + 1, added := fl.added + 1)
  }

  ghost function FileAll(fl: Filing, ps: seq<Placement>): Filing
    decreases |ps|
  {
    if ps == [] then fl else FileAll(File(fl, ps[0]), ps[1..])
  }

  lemma {:induction false} FileAllConcat(fl: Filing, a: seq<Placement>, b: seq<Placement>)
    ensures FileAll(fl, a + b) == FileAll(FileAll(fl, a), b)
    decreases |a|
  {
    if a == [] {
      assert a + b == b;
    } else {
      assert (a + b)[1..] == a[1..] + b;
      FileAllConcat(File(fl, a[0]), a[1..], b);
    }
  }

  /** The import is its two parts, one after the other. */
  lemma {:induction false} ImportSplits(s: Session, outlines: seq<Outline>, parent: Option<Id>, now: int)
    ensures Import(s, outlines, parent, now).table == TableAfter(s.table, outlines, parent, now)
    ensures FilingOf(Import(s, outlines, parent, now)) == FileAll(FilingOf(s), Placed(s.table, outlines, parent, now))
    decreases outlines, 0
  {
    if outlines != [] {
      var s1 := ImportOutline(s, outlines[0], parent, now);
      ImportSplitsOne(s, outlines[0], parent, now);
      ImportSplits(s1, outlines[1..], parent, now);
      FileAllConcat(FilingOf(s), PlacedOne(s.table, outlines[0], parent, now), Placed(s1.table, outlines[1..], parent, now));
    }
  }

  lemma {:induction false} ImportSplitsOne(s: Session, o: Outline, parent: Option<Id>, now: int)
    ensures ImportOutline(s, o, parent, now).table == TableAfterOne(s.table, o, parent, now)
    ensures FilingOf(ImportOutline(s, o, parent, now)) == FileAll(FilingOf(s), PlacedOne(s.table, o, parent, now))
    decreases o, 1
  {
    if o.IsFeed() {
      var p := Placement(o.DisplayName(), o.xmlUrl.value, o.htmlUrl, parent);
      assert [p][1..] == [];
      assert FileAll(FilingOf(s), [p]) == FileAll(File(FilingOf(s), p), []);
    } else if o.DisplayName() == "" {
      ImportSplits(s, o.children, parent, now);
    } else {
      var (t', f) := GetOrCreate(s.table, o.DisplayName(), parent, now);
      ImportSplits(s.(table := t', stats := CountFolder(s.stats, f)), o.children, Some(f.id), now);
    }
  }

  /** What is stored for one URL. */
  datatype Filed = Filed(title: string, siteUrl: Option<string>, folder: Option<Id>)

  ghost function Stored(feeds: seq<Feed>, url: string): Option<Filed> {
    match FeedByUrl(feeds, url)
    case None => None
    case Some(f) => Some(Filed(f.title, f.siteUrl, f.folderId))
  }

  ghost function LastFolder(ps: seq<Placement>, url: string): Option<Option<Id>> {
    if ps == [] then None
    else if LastFolder(ps[1..], url).Some? then LastFolder(ps[1..], url)
    else if ps[0].url == url then Some(ps[0].folder)
    else None
  }

  /** What filing leaves for one URL: the first to name it decides title and site, the
      last to name it decides the folder. */
  ghost function Outcome(before: Option<Filed>, ps: seq<Placement>, url: string): Option<Filed>
    decreases |ps|
  {
    if ps == [] then before
    else if ps[0].url != url then Outcome(before, ps[1..], url)
    else if before.Some? then Outcome(Some(before.value.(folder := ps[0].folder)), ps[1..], url)
    else Outcome(Some(Filed(ps[0].title, ps[0].siteUrl, ps[0].folder)), ps[1..], url)
  }

  lemma LookupAt(feeds: seq<Feed>, next: Id, i: nat)
    requires ValidFeeds(feeds, next) && i < |feeds|
    ensures FeedByUrl(feeds, feeds[i].url) == Some(feeds[i])
  {
    var r := FeedByUrl(feeds, feeds[i].url);
    assert feeds[i] in feeds;
    assert r.Some?;
  }

  lemma Found(feeds: seq<Feed>, next: Id, f: Feed)
    requires ValidFeeds(feeds, next) && f in feeds
    ensures FeedByUrl(feeds, f.url) == Some(f)
  {
    var i :| 0 <= i < |feeds| && feeds[i] == f;
    LookupAt(feeds, next, i);
  }

  lemma FileStores(fl: Filing, p: Placement, url: string)
    requires ValidFeeds(fl.feeds, fl.next)
    ensures ValidFeeds(File(fl, p).feeds, File(fl, p).next)
    ensures Stored(File(fl, p).feeds, url) == Outcome(Stored(fl.feeds, url), [p], url)
  {
    assert [p][1..] == [];
    var stored := FeedByUrl(fl.feeds, p.url);
    if stored.None? {
      AddStores(fl, Feed(fl.next, p.title, p.url, p.siteUrl, p.folder), url);
    } else if stored.value.folderId != p.folder {
      MoveStores(fl, stored.value, p.folder, url);
    }
  }

  lemma MoveStores(fl: Filing, f: Feed, folder: Option<Id>, url: string)
    requires ValidFeeds(fl.feeds, fl.next) && f in fl.feeds
    ensures var moved := MoveFeed(fl.feeds, f.id, folder);
            ValidFeeds(moved, fl.next) &&
            FeedByUrl(moved, url) == if url == f.url then Some(f.(folderId := folder)) else FeedByUrl(fl.feeds, url)
  {
    var moved := MoveFeed(fl.feeds, f.id, folder);
    var i :| 0 <= i < |fl.feeds| && fl.feeds[i] == f;
    assert forall k :: 0 <= k < |fl.feeds| && k != i ==> moved[k] == fl.feeds[k];
    assert ValidFeeds(moved, fl.next);
    if url == f.url {
      LookupAt(moved, fl.next, i);
    } else {
      OtherUrl(fl.feeds, moved, url);
    }
  }

  lemma AddStores(fl: Filing, f: Feed, url: string)
    requires ValidFeeds(fl.feeds, fl.next) && f.id == fl.next && FeedByUrl(fl.feeds, f.url).None?
    ensures ValidFeeds(fl.feeds + [f], fl.next + 1)
    ensures FeedByUrl(fl.feeds + [f], url) == if url == f.url then Some(f) else FeedByUrl(fl.feeds, url)
  {
    assert forall k :: 0 <= k < |fl.feeds| ==> fl.feeds[k] in fl.feeds;
    LookupConcat(fl.feeds, [f], url);
    assert [f][1..] == [];
  }

  lemma {:induction false} LookupConcat(a: seq<Feed>, b: seq<Feed>, url: string)
    ensures FeedByUrl(a + b, url) == if FeedByUrl(a, url).Some? then FeedByUrl(a, url) else FeedByUrl(b, url)
  {
    if a == [] {
      assert a + b == b;
    } else {
      assert (a + b)[1..] == a[1..] + b;
      LookupConcat(a[1..], b, url);
    }
  }

  lemma {:induction false} OtherUrl(a: seq<Feed>, b: seq<Feed>, url: string)
    requires |a| == |b|
    requires forall k :: 0 <= k < |a| ==> a[k] == b[k] || (a[k].url != url && b[k].url != url)
    ensures FeedByUrl(a, url) == FeedByUrl(b, url)
  {
    if a != [] {
      OtherUrl(a[1..], b[1..], url);
    }
  }

  lemma {:induction false} FileAllStores(fl: Filing, ps: seq<Placement>, url: string)
    requires ValidFeeds(fl.feeds, fl.next)
    ensures ValidFeeds(FileAll(fl, ps).feeds, FileAll(fl, ps).next)
    ensures Stored(FileAll(fl, ps).feeds, url) == Outcome(Stored(fl.feeds, url), ps, url)
    decreases |ps|
  {
    if ps != [] {
      FileStores(fl, ps[0], url);
      FileAllStores(File(fl, ps[0]), ps[1..], url);
    }
  }

  lemma {:induction false} OutcomeOfKnown(known: Filed, ps: seq<Placement>, url: string)
    ensures Outcome(Some(known), ps, url)
         == Some(known.(folder := if LastFolder(ps, url).Some? then LastFolder(ps, url).value else known.folder))
    decreases |ps|
  {
    if ps != [] {
      OutcomeOfKnown(if ps[0].url == url then known.(folder := ps[0].folder) else known, ps[1..], url);
    }
  }

  lemma {:induction false} OutcomeOfNew(ps: seq<Placement>, url: string)
    ensures Outcome(None, ps, url).Some? <==> exists k :: 0 <= k < |ps| && ps[k].url == url
    ensures Outcome(None, ps, url).Some? ==> LastFolder(ps, url) == Some(Outcome(None, ps, url).value.folder)
  {
    if ps != [] {
      if ps[0].url == url {
        OutcomeOfKnown(Filed(ps[0].title, ps[0].siteUrl, ps[0].folder), ps[1..], url);
      } else {
        OutcomeOfNew(ps[1..], url);
        if k :| 0 <= k < |ps| && ps[k].url == url {
          assert ps[1..][k - 1].url == url;
        }
        if k :| 0 <= k < |ps[1..]| && ps[1..][k].url == url {
          assert ps[k + 1].url == url;
        }
      }
    }
  }

  lemma {:induction false} OutcomeWhenDistinct(ps: seq<Placement>, k: nat)
    requires k < |ps| && forall i, j :: 0 <= i < j < |ps| ==> ps[i].url != ps[j].url
    ensures Outcome(None, ps, ps[k].url) == Some(Filed(ps[k].title, ps[k].siteUrl, ps[k].folder))
  {
    var url := ps[k].url;
    if k == 0 {
      OutcomeOfKnown(Filed(ps[0].title, ps[0].siteUrl, ps[0].folder), ps[1..], url);
      NoLastFolder(ps[1..], url);
    } else {
      OutcomeWhenDistinct(ps[1..], k - 1);
    }
  }

  lemma {:induction false} NoLastFolder(ps: seq<Placement>, url: string)
    requires forall k :: 0 <= k < |ps| ==> ps[k].url != url
    ensures LastFolder(ps, url).None?
  {
    if ps != [] { NoLastFolder(ps[1..], url); }
  }

  // ----------------------------------------------------------------------
  // Importing into any library
  // ----------------------------------------------------------------------

  /** What an import leaves under every URL, for every valid library and every forest. */
  lemma ImportStores(s: Session, outlines: seq<Outline>, now: int, url: string)
    requires ValidSession(s)
    ensures ValidSession(Import(s, outlines, None, now))
    ensures var ps := Placed(s.table, outlines, None, now);
            Stored(Import(s, outlines, None, now).feeds, url) == Outcome(Stored(s.feeds, url), ps, url)
    ensures AllFile(Import(s, outlines, None, now).table.folders, Placed(s.table, outlines, None, now), Entries(outlines, []))
  {
    ImportSplits(s, outlines, None, now);
    TableGrows(s.table, outlines, None, now);
    FileAllStores(FilingOf(s), Placed(s.table, outlines, None, now), url);
    assert At(s.table.folders, None, []);
    Resolves(s.table, outlines, None, now, []);
  }

  lemma {:induction false} OutcomeUntouched(before: Option<Filed>, ps: seq<Placement>, url: string)
    requires forall p <- ps :: p.url != url
    ensures Outcome(before, ps, url) == before
    decreases |ps|
  {
    if ps != [] { OutcomeUntouched(before, ps[1..], url); }
  }

  lemma {:induction false} OutcomeMoved(before: Option<Filed>, ps: seq<Placement>, url: string, last: nat)
    requires before.Some? && last < |ps| && ps[last].url == url && forall k :: last < k < |ps| ==> ps[k].url != url
    ensures Outcome(before, ps, url) == Some(before.value.(folder := ps[last].folder))
    decreases |ps|
  {
    var now := if ps[0].url == url then Some(before.value.(folder := ps[0].folder)) else before;
    if last == 0 {
      OutcomeUntouched(now, ps[1..], url);
    } else {
      OutcomeMoved(now, ps[1..], url, last - 1);
    }
  }

  lemma {:induction false} OutcomeAdded(ps: seq<Placement>, url: string, first: nat, last: nat)
    requires first <= last < |ps| && ps[first].url == url && ps[last].url == url
    requires (forall k :: 0 <= k < first ==> ps[k].url != url) && forall k :: last < k < |ps| ==> ps[k].url != url
    ensures Outcome(None, ps, url) == Some(Filed(ps[first].title, ps[first].siteUrl, ps[last].folder))
    decreases |ps|
  {
    if first > 0 {
      OutcomeAdded(ps[1..], url, first - 1, last - 1);
    } else {
      var added := Some(Filed(ps[0].title, ps[0].siteUrl, ps[0].folder));
      if last == 0 { OutcomeUntouched(added, ps[1..], url); } else { OutcomeMoved(added, ps[1..], url, last - 1); }
    }
  }

  /** What becomes of one URL: a URL the file does not list is left alone; a new one takes
      title and site from where the file lists it first; and either way it is filed in the
      folder of where the file lists it last. */
  lemma ImportedUrl(s: Session, outlines: seq<Outline>, now: int, url: string, first: nat, last: nat)
    requires ValidSession(s)
    ensures var es, s' := Entries(outlines, []), Import(s, outlines, None, now);
            && ((forall e <- es :: e.url != url) ==> Stored(s'.feeds, url) == Stored(s.feeds, url))
            && (first <= last < |es| && es[first].url == url && es[last].url == url
                && (forall k :: 0 <= k < first ==> es[k].url != url) && (forall k :: last < k < |es| ==> es[k].url != url) ==>
                  var before, after := Stored(s.feeds, url), Stored(s'.feeds, url);
                  && after.Some?
                  && after.value.title == (if before.Some? then before.value.title else es[first].title)
                  && after.value.siteUrl == (if before.Some? then before.value.siteUrl else es[first].siteUrl)
                  && AtFolded(s'.table.folders, after.value.folder, es[last].path))
  {
    ImportStores(s, outlines, now, url);
    FilesOutcome(Stored(s.feeds, url), Import(s, outlines, None, now).table.folders,
                 Placed(s.table, outlines, None, now), Entries(outlines, []), url, first, last);
  }

  lemma FilesOutcome(
    before: Option<Filed>, folders: seq<Folder>, ps: seq<Placement>, es: seq<Entry>, url: string, first: nat, last: nat)
    requires AllFile(folders, ps, es)
    ensures (forall e <- es :: e.url != url) ==> Outcome(before, ps, url) == before
    ensures first <= last < |es| && es[first].url == url && es[last].url == url
            && (forall k :: 0 <= k < first ==> es[k].url != url) && (forall k :: last < k < |es| ==> es[k].url != url) ==>
              var after := Outcome(before, ps, url);
              && after.Some?
              && after.value.title == (if before.Some? then before.value.title else es[first].title)
              && after.value.siteUrl == (if before.Some? then before.value.siteUrl else es[first].siteUrl)
              && AtFolded(folders, after.value.folder, es[last].path)
  {
    assert forall k :: 0 <= k < |ps| ==> Files(folders, ps[k], es[k]);
    if forall e <- es :: e.url != url {
      forall p | p in ps
        ensures p.url != url
      {
        var k :| 0 <= k < |ps| && ps[k] == p;
        assert es[k] in es;
      }
      OutcomeUntouched(before, ps, url);
    } else if first <= last < |es| && es[first].url == url && es[last].url == url
              && (forall k :: 0 <= k < first ==> es[k].url != url) && (forall k :: last < k < |es| ==> es[k].url != url) {
      assert forall k :: 0 <= k < |ps| ==> ps[k].url == es[k].url;
      if before.Some? { OutcomeMoved(before, ps, url, last); } else { OutcomeAdded(ps, url, first, last); }
    }
  }

  /** The counters add up: every feed outline is counted exactly once. */
  lemma {:induction false} FileCounts(fl: Filing, ps: seq<Placement>)
    ensures var r := FileAll(fl, ps);
            r.added + r.existing + r.moved == fl.added + fl.existing + fl.moved + |ps|
    ensures |FileAll(fl, ps).feeds| == |fl.feeds| + (FileAll(fl, ps).added - fl.added)
    ensures FileAll(fl, ps).added >= fl.added
    decreases |ps|
  {
    if ps != [] { FileCounts(File(fl, ps[0]), ps[1..]); }
  }

  lemma ImportCountsFeeds(s: Session, outlines: seq<Outline>, now: int)
    requires ValidSession(s) && s.stats == NO_STATS
    ensures var s' := Import(s, outlines, None, now);
            s'.stats.feedsAdded + s'.stats.feedsExisting + s'.stats.feedsMoved == |Entries(outlines, [])|
            && |s'.feeds| == |s.feeds| + s'.stats.feedsAdded
  {
    ImportSplits(s, outlines, None, now);
    FileCounts(FilingOf(s), Placed(s.table, outlines, None, now));
    ImportStores(s, outlines, now, "");
  }

  // ----------------------------------------------------------------------
  // Importing twice
  // ----------------------------------------------------------------------

  ghost predicate AllKnown(feeds: seq<Feed>, ps: seq<Placement>) {
    forall k :: 0 <= k < |ps| ==> Stored(feeds, ps[k].url).Some?
  }

  /** Filing feeds that are all known adds nothing and touches nothing but folders. */
  lemma {:induction false} FileKnown(fl: Filing, ps: seq<Placement>)
    requires ValidFeeds(fl.feeds, fl.next) && AllKnown(fl.feeds, ps)
    ensures var r := FileAll(fl, ps);
            r.next == fl.next && r.added == fl.added && |r.feeds| == |fl.feeds|
            && forall i :: 0 <= i < |r.feeds| ==> r.feeds[i] == fl.feeds[i].(folderId := r.feeds[i].folderId)
    decreases |ps|
  {
    if ps != [] {
      var fl' := File(fl, ps[0]);
      assert Stored(fl.feeds, ps[0].url).Some?;
      forall k | 0 <= k < |ps[1..]|
        ensures Stored(fl'.feeds, ps[1..][k].url).Some?
      {
        var url := ps[1..][k].url;
        assert Stored(fl.feeds, ps[k + 1].url).Some?;
        FileStores(fl, ps[0], url);
        OutcomeOfKnown(Stored(fl.feeds, url).value, [ps[0]], url);
      }
      FileStores(fl, ps[0], "");
      FileKnown(fl', ps[1..]);
    }
  }

  /** Filing known feeds moves none exactly when each is already where it is to go. */
  lemma {:induction false} FileMoves(fl: Filing, ps: seq<Placement>)
    requires ValidFeeds(fl.feeds, fl.next) && AllKnown(fl.feeds, ps)
    ensures FileAll(fl, ps).moved >= fl.moved
    ensures FileAll(fl, ps).moved == fl.moved
       <==> forall k :: 0 <= k < |ps| ==> Stored(fl.feeds, ps[k].url).value.folder == ps[k].folder
    decreases |ps|
  {
    if ps != [] {
      assert Stored(fl.feeds, ps[0].url).Some?;
      var fl' := File(fl, ps[0]);
      forall k | 0 <= k < |ps[1..]|
        ensures Stored(fl'.feeds, ps[1..][k].url).Some?
      {
        assert Stored(fl.feeds, ps[k + 1].url).Some?;
        FileStores(fl, ps[0], ps[k + 1].url);
        OutcomeOfKnown(Stored(fl.feeds, ps[k + 1].url).value, [ps[0]], ps[k + 1].url);
      }
      FileStores(fl, ps[0], "");
      FileMoves(fl', ps[1..]);
      if Stored(fl.feeds, ps[0].url).value.folder == ps[0].folder {
        assert fl'.feeds == fl.feeds;
        if forall k :: 0 <= k < |ps[1..]| ==> Stored(fl.feeds, ps[1..][k].url).value.folder == ps[1..][k].folder {
          forall k | 0 <= k < |ps|
            ensures Stored(fl.feeds, ps[k].url).value.folder == ps[k].folder
          {
            if k > 0 { assert ps[1..][k - 1] == ps[k]; }
          }
        }
      }
    }
  }

  /** The same URL is always listed under the same folder names, up to case. */
  ghost predicate ConsistentPaths(es: seq<Entry>) {
    forall i, j :: 0 <= i < |es| && 0 <= j < |es| && es[i].url == es[j].url ==> FoldPath(es[i].path) == FoldPath(es[j].path)
  }

  lemma SameFolderSamePath(folders: seq<Folder>, p: Placement, q: Placement, d: Entry, e: Entry)
    requires UniqueIds(folders) && UniqueSiblings(folders) && Files(folders, p, d) && Files(folders, q, e)
    ensures p.folder == q.folder <==> FoldPath(d.path) == FoldPath(e.path)
  {
    var x :| At(folders, p.folder, x) && FoldPath(x) == FoldPath(d.path);
    var y :| At(folders, q.folder, y) && FoldPath(y) == FoldPath(e.path);
    if p.folder == q.folder {
      AtFunctional(folders, p.folder, x, y);
    }
    if FoldPath(d.path) == FoldPath(e.path) {
      AtInjective(folders, p.folder, x, q.folder, y);
    }
  }

  lemma {:induction false} LastFolderOccurs(ps: seq<Placement>, url: string) returns (k: nat)
    requires LastFolder(ps, url).Some?
    ensures k < |ps| && ps[k].url == url && Some(ps[k].folder) == LastFolder(ps, url)
  {
    if LastFolder(ps[1..], url).Some? {
      var m := LastFolderOccurs(ps[1..], url);
      k := m + 1;
    } else {
      k := 0;
    }
  }

  /** Filing once more what is already filed where it was last listed changes no feed. */
  lemma FileAgain(fl: Filing, ps: seq<Placement>)
    requires ValidFeeds(fl.feeds, fl.next) && AllKnown(fl.feeds, ps)
    requires forall k :: 0 <= k < |ps| ==> LastFolder(ps, ps[k].url) == Some(Stored(fl.feeds, ps[k].url).value.folder)
    ensures FileAll(fl, ps).feeds == fl.feeds && FileAll(fl, ps).next == fl.next && FileAll(fl, ps).added == fl.added
  {
    FileKnown(fl, ps);
    var r := FileAll(fl, ps);
    forall i | 0 <= i < |fl.feeds|
      ensures r.feeds[i] == fl.feeds[i]
    {
      var url := fl.feeds[i].url;
      FileAllStores(fl, ps, url);
      LookupAt(fl.feeds, fl.next, i);
      LookupAt(r.feeds, r.next, i);
      OutcomeOfKnown(Stored(fl.feeds, url).value, ps, url);
      if LastFolder(ps, url).Some? {
        var k := LastFolderOccurs(ps, url);
      }
    }
  }

  /** Importing any forest a second time leaves every table of any valid library exactly
      as the first import left it. It adds no feed, and it moves none if and only if the
      forest never lists a URL under two different paths. */
  lemma ImportTwice(s: Session, outlines: seq<Outline>, now: int, now': int)
    requires ValidSession(s)
    ensures var first := Import(s, outlines, None, now).(stats := NO_STATS);
            var second := Import(first, outlines, None, now');
            && second == first.(stats := second.stats)
            && second.stats.feedsAdded == 0
            && (second.stats.feedsMoved == 0 <==> ConsistentPaths(Entries(outlines, [])))
  {
    var once := Import(s, outlines, None, now);
    var first := once.(stats := NO_STATS);
    var second := Import(first, outlines, None, now');
    var ps, es := Placed(s.table, outlines, None, now), Entries(outlines, []);
    ImportSplits(s, outlines, None, now);
    ImportSplits(first, outlines, None, now');
    ImportStores(s, outlines, now, "");
    Resettles(s.table, first.table, outlines, None, now, now');
    var fl := FilingOf(first);
    assert FilingOf(second) == FileAll(fl, ps);
    forall k | 0 <= k < |ps|
      ensures Stored(fl.feeds, ps[k].url).Some?
      ensures LastFolder(ps, ps[k].url) == Some(Stored(fl.feeds, ps[k].url).value.folder)
    {
      LastFolderExists(ps, k);
      KeptFolder(s, ps, ps[k].url, once);
    }
    FileAgain(fl, ps);
    FileMoves(fl, ps);
    MovesAndPaths(first.table.folders, fl.feeds, ps, es);
  }

  lemma {:induction false} LastFolderExists(ps: seq<Placement>, k: nat)
    requires k < |ps|
    ensures LastFolder(ps, ps[k].url).Some?
  {
    if k > 0 { LastFolderExists(ps[1..], k - 1); }
  }

  /** After the first import a URL of the forest is filed where it is last listed. */
  lemma KeptFolder(s: Session, ps: seq<Placement>, url: string, once: Session)
    requires ValidFeeds(s.feeds, s.nextFeed) && FilingOf(once) == FileAll(FilingOf(s), ps)
    requires LastFolder(ps, url).Some?
    ensures Stored(once.feeds, url).Some? && LastFolder(ps, url) == Some(Stored(once.feeds, url).value.folder)
  {
    FileAllStores(FilingOf(s), ps, url);
    if Stored(s.feeds, url).Some? {
      OutcomeOfKnown(Stored(s.feeds, url).value, ps, url);
    } else {
      var k := LastFolderOccurs(ps, url);
      OutcomeOfNew(ps, url);
    }
  }

  lemma MovesAndPaths(folders: seq<Folder>, feeds: seq<Feed>, ps: seq<Placement>, es: seq<Entry>)
    requires UniqueIds(folders) && UniqueSiblings(folders) && AllFile(folders, ps, es) && AllKnown(feeds, ps)
    requires forall k :: 0 <= k < |ps| ==> LastFolder(ps, ps[k].url) == Some(Stored(feeds, ps[k].url).value.folder)
    ensures (forall k :: 0 <= k < |ps| ==> Stored(feeds, ps[k].url).value.folder == ps[k].folder) <==> ConsistentPaths(es)
  {
    if forall k :: 0 <= k < |ps| ==> Stored(feeds, ps[k].url).value.folder == ps[k].folder {
      forall i, j | 0 <= i < |es| && 0 <= j < |es| && es[i].url == es[j].url
        ensures FoldPath(es[i].path) == FoldPath(es[j].path)
      {
        assert Files(folders, ps[i], es[i]) && Files(folders, ps[j], es[j]);
        SameFolderSamePath(folders, ps[i], ps[j], es[i], es[j]);
      }
    }
    if ConsistentPaths(es) {
      forall k | 0 <= k < |ps|
        ensures Stored(feeds, ps[k].url).value.folder == ps[k].folder
      {
        var m := LastFolderOccurs(ps, ps[k].url);
        assert Files(folders, ps[k], es[k]) && Files(folders, ps[m], es[m]);
        SameFolderSamePath(folders, ps[k], ps[m], es[k], es[m]);
      }
    }
  }

  const EMPTY_LIBRARY := Session(Table([], 0), [], 0, NO_STATS)

  // ----------------------------------------------------------------------
  // The folder counters
  // ----------------------------------------------------------------------

  /** The folders an import enters, found or created, one per named folder outline. */
  ghost function Entered(t: Table, outlines: seq<Outline>, parent: Option<Id>, now: int): seq<Folder>
    decreases outlines, 0
  {
    if outlines == [] then []
    else EnteredOne(t, outlines[0], parent, now)
         + Entered(TableAfterOne(t, outlines[0], parent, now), outlines[1..], parent, now)
  }

  ghost function EnteredOne(t: Table, o: Outline, parent: Option<Id>, now: int): seq<Folder>
    decreases o, 1
  {
    if o.IsFeed() then []
    else if o.DisplayName() == "" then Entered(t, o.children, parent, now)
    else
      var (t', f) := GetOrCreate(t, o.DisplayName(), parent, now);
      [f] + Entered(t', o.children, Some(f.id), now)
  }

  ghost function NeverEdited(fs: seq<Folder>): nat {
    if fs == [] then 0 else (if fs[0].createdAt == fs[0].updatedAt then 1 else 0) + NeverEdited(fs[1..])
  }

  lemma {:induction false} NeverEditedConcat(a: seq<Folder>, b: seq<Folder>)
    ensures NeverEdited(a + b) == NeverEdited(a) + NeverEdited(b)
  {
    if a == [] {
      assert a + b == b;
    } else {
      assert (a + b)[1..] == a[1..] + b;
      NeverEditedConcat(a[1..], b);
    }
  }

  lemma {:induction false} NeverEditedNone(fs: seq<Folder>)
    ensures NeverEdited(fs) == 0 <==> forall f <- fs :: f.createdAt != f.updatedAt
  {
    if fs != [] { NeverEditedNone(fs[1..]); }
  }

  lemma {:induction false} FolderCounts(s: Session, outlines: seq<Outline>, parent: Option<Id>, now: int)
    ensures var s', fs := Import(s, outlines, parent, now), Entered(s.table, outlines, parent, now);
            && s'.stats.foldersCreated == s.stats.foldersCreated + NeverEdited(fs)
            && s'.stats.foldersCreated + s'.stats.foldersExisting == s.stats.foldersCreated + s.stats.foldersExisting + |fs|
    decreases outlines, 0
  {
    if outlines != [] {
      var s1 := ImportOutline(s, outlines[0], parent, now);
      ImportSplitsOne(s, outlines[0], parent, now);
      FolderCountsOne(s, outlines[0], parent, now);
      FolderCounts(s1, outlines[1..], parent, now);
      NeverEditedConcat(EnteredOne(s.table, outlines[0], parent, now), Entered(s1.table, outlines[1..], parent, now));
    }
  }

  lemma {:induction false} FolderCountsOne(s: Session, o: Outline, parent: Option<Id>, now: int)
    ensures var s', fs := ImportOutline(s, o, parent, now), EnteredOne(s.table, o, parent, now);
            && s'.stats.foldersCreated == s.stats.foldersCreated + NeverEdited(fs)
            && s'.stats.foldersCreated + s'.stats.foldersExisting == s.stats.foldersCreated + s.stats.foldersExisting + |fs|
    decreases o, 1
  {
    if o.IsFeed() {
    } else if o.DisplayName() == "" {
      FolderCounts(s, o.children, parent, now);
    } else {
      var (t', f) := GetOrCreate(s.table, o.DisplayName(), parent, now);
      FolderCounts(s.(table := t', stats := CountFolder(s.stats, f)), o.children, Some(f.id), now);
    }
  }

  /** A repeated import creates no folder, yet it reports none as created if and only if
      every folder it enters has been edited since it was made. */
  lemma ReimportReportsFolders(s: Session, outlines: seq<Outline>, now: int, now': int)
    requires ValidSession(s)
    ensures var first := Import(s, outlines, None, now).(stats := NO_STATS);
            var second := Import(first, outlines, None, now');
            && second.table == first.table
            && (second.stats.foldersCreated == 0
                <==> forall f <- Entered(first.table, outlines, None, now') :: f.createdAt != f.updatedAt)
  {
    var first := Import(s, outlines, None, now).(stats := NO_STATS);
    ImportTwice(s, outlines, now, now');
    FolderCounts(first, outlines, None, now');
    NeverEditedNone(Entered(first.table, outlines, None, now'));
  }

  /** A case in point: one folder, imported twice into an empty library, is reported as
      created both times. */
  lemma ReimportMisreports(now: int, now': int)
    ensures var outlines := [Outline("Tech", None, None, None, None, [])];
            var first := Import(EMPTY_LIBRARY, outlines, None, now).(stats := NO_STATS);
            Import(first, outlines, None, now').stats.foldersCreated == 1
  {
    var o := Outline("Tech", None, None, None, None, []);
    var empty := EMPTY_LIBRARY;
    var f := Folder(0, "Tech", None, now, now);
    assert [o][1..] == [] && o.DisplayName() == "Tech";
    assert empty.table.folders + [f] == [f];
    assert GetOrCreate(empty.table, "Tech", None, now) == (Table([f], 1), f);
    var made := empty.(table := Table([f], 1), stats := CountFolder(NO_STATS, f));
    assert ImportOutline(empty, o, None, now) == made;
    assert Import(empty, [o], None, now) == Import(made, [], None, now) == made;
    var first := made.(stats := NO_STATS);
    assert GetOrCreate(first.table, "Tech", None, now') == (first.table, f);
    assert ImportOutline(first, o, None, now') == first.(stats := CountFolder(NO_STATS, f));
    assert Import(first, [o], None, now') == Import(ImportOutline(first, o, None, now'), [], None, now');
  }

  // ----------------------------------------------------------------------
  // The exported tree
  // ----------------------------------------------------------------------

  ghost predicate NamesGiven(folders: seq<Folder>) { forall f <- folders :: f.name != "" }

  ghost predicate Lists(f: Feed, e: Entry) {
    e.title == f.title && e.url == f.url && e.siteUrl == f.siteUrl
  }

  ghost function FeedEntries(feeds: seq<Feed>, path: seq<string>): seq<Entry> {
    seq(|feeds|, i requires 0 <= i < |feeds| => Entry(feeds[i].title, feeds[i].url, feeds[i].siteUrl, path))
  }

  lemma {:induction false} FeedOutlinesEntries(feeds: seq<Feed>, path: seq<string>)
    ensures Entries(FeedOutlines(feeds), path) == FeedEntries(feeds, path)
  {
    if feeds != [] {
      FeedOutlinesEntries(feeds[1..], path);
      assert FeedOutlines(feeds)[0] == FeedOutline(feeds[0]);
      assert FeedOutlines(feeds)[1..] == FeedOutlines(feeds[1..]);
      assert FeedEntries(feeds, path) == [Entry(feeds[0].title, feeds[0].url, feeds[0].siteUrl, path)] + FeedEntries(feeds[1..], path);
    }
  }

  lemma FolderOutlineEntries(f: Folder, feeds: seq<Feed>, folders: seq<Folder>, trail: seq<Folder>, path: seq<string>)
    requires UniqueIds(folders) && IsTrail(folders, trail + [f]) && f.name != ""
    ensures Entries([FolderOutline(f, feeds, folders, trail)], path)
         == Entries(FolderOutlines(ChildFolders(folders, Some(f.id)), feeds, folders, trail + [f]), path + [f.name])
            + FeedEntries(FeedsIn(feeds, Some(f.id)), path + [f.name])
  {
    var here := path + [f.name];
    var o := FolderOutline(f, feeds, folders, trail);
    assert [o][1..] == [];
    assert Entries([o], path) == Entries(o.children, here);
    EntriesConcat(FolderOutlines(ChildFolders(folders, Some(f.id)), feeds, folders, trail + [f]),
                  FeedOutlines(FeedsIn(feeds, Some(f.id))), here);
    FeedOutlinesEntries(FeedsIn(feeds, Some(f.id)), here);
  }

  /** What a library shows to its owner: the entry is one of its feeds, at the path of the
      folder it is filed in. */
  ghost predicate Shows(feeds: seq<Feed>, folders: seq<Folder>, e: Entry) {
    exists f <- feeds :: Lists(f, e) && At(folders, f.folderId, e.path)
  }

  lemma FeedEntriesSound(folder: Option<Id>, feeds: seq<Feed>, folders: seq<Folder>, path: seq<string>)
    requires At(folders, folder, path)
    ensures forall e <- FeedEntries(FeedsIn(feeds, folder), path) :: Shows(feeds, folders, e) && e.path == path
  {
    var fs := FeedsIn(feeds, folder);
    forall e | e in FeedEntries(fs, path)
      ensures Shows(feeds, folders, e) && e.path == path
    {
      var k :| 0 <= k < |fs| && e == FeedEntries(fs, path)[k];
      assert fs[k] in feeds && Lists(fs[k], e);
    }
  }

  lemma {:induction false} FolderOutlineSound(f: Folder, feeds: seq<Feed>, folders: seq<Folder>, trail: seq<Folder>, path: seq<string>)
    requires UniqueIds(folders) && NamesGiven(folders) && IsTrail(folders, trail + [f])
    requires f in folders && At(folders, f.parentId, path)
    ensures forall e <- Entries([FolderOutline(f, feeds, folders, trail)], path) ::
              Shows(feeds, folders, e) && path + [f.name] <= e.path
    decreases |folders| - |trail|, 0
  {
    TrailFits(folders, trail + [f]);
    ChildTrails(folders, trail, f);
    AtChild(folders, f, path);
    FolderOutlineEntries(f, feeds, folders, trail, path);
    FolderOutlinesSound(ChildFolders(folders, Some(f.id)), Some(f.id), feeds, folders, trail + [f], path + [f.name]);
    FeedEntriesSound(Some(f.id), feeds, folders, path + [f.name]);
    LongerPrefix(path + [f.name], Entries(FolderOutlines(ChildFolders(folders, Some(f.id)), feeds, folders, trail + [f]), path + [f.name]),
                 ChildFolders(folders, Some(f.id)));
  }

  lemma LongerPrefix(here: seq<string>, es: seq<Entry>, fs: seq<Folder>)
    requires forall e <- es :: exists f <- fs :: here + [f.name] <= e.path
    ensures forall e <- es :: here <= e.path
  {
    forall e | e in es
      ensures here <= e.path
    {
      var f :| f in fs && here + [f.name] <= e.path;
      assert e.path[..|here|] == (here + [f.name])[..|here|] == here;
    }
  }

  lemma {:induction false} FolderOutlinesSound(fs: seq<Folder>, parent: Option<Id>, feeds: seq<Feed>, folders: seq<Folder>, trail: seq<Folder>, path: seq<string>)
    requires UniqueIds(folders) && NamesGiven(folders)
    requires forall f <- fs :: IsTrail(folders, trail + [f]) && f in folders && f.parentId == parent
    requires At(folders, parent, path)
    ensures forall e <- Entries(FolderOutlines(fs, feeds, folders, trail), path) ::
              Shows(feeds, folders, e) && exists f <- fs :: path + [f.name] <= e.path
    decreases |folders| - |trail|, 1, |fs|
  {
    if fs != [] {
      FolderOutlineSound(fs[0], feeds, folders, trail, path);
      FolderOutlinesSound(fs[1..], parent, feeds, folders, trail, path);
      var first, rest := [FolderOutline(fs[0], feeds, folders, trail)], FolderOutlines(fs[1..], feeds, folders, trail);
      EntriesConcat(first, rest, path);
      forall e | e in Entries(first + rest, path)
        ensures Shows(feeds, folders, e) && exists f <- fs :: path + [f.name] <= e.path
      {
        if e in Entries(first, path) {
          assert fs[0] in fs && path + [fs[0].name] <= e.path;
        } else {
          var f :| f in fs[1..] && path + [f.name] <= e.path;
          assert f in fs;
        }
      }
    }
  }

  lemma TreeSound(feeds: seq<Feed>, folders: seq<Folder>)
    requires UniqueIds(folders) && NamesGiven(folders)
    ensures forall e <- Entries(Tree(feeds, folders), []) :: Shows(feeds, folders, e)
  {
    var fs := ChildFolders(folders, None);
    EntriesConcat(FolderOutlines(fs, feeds, folders, []), FeedOutlines(FeedsIn(feeds, None)), []);
    FolderOutlinesSound(fs, None, feeds, folders, [], []);
    FeedOutlinesEntries(FeedsIn(feeds, None), []);
    FeedEntriesSound(None, feeds, folders, []);
  }

  lemma {:induction false} Ancestor(folders: seq<Folder>, fid: Option<Id>, p: seq<string>, k: nat) returns (a: Option<Id>)
    requires At(folders, fid, p) && k <= |p|
    ensures At(folders, a, p[..k])
    decreases |p|
  {
    if k == |p| {
      assert p[..k] == p;
      a := fid;
    } else {
      var f :| f in folders && fid == Some(f.id) && f.name == p[|p| - 1] && At(folders, f.parentId, p[..|p| - 1]);
      a := Ancestor(folders, f.parentId, p[..|p| - 1], k);
      assert p[..|p| - 1][..k] == p[..k];
    }
  }

  ghost function EntryFor(g: Feed, path: seq<string>): Entry { Entry(g.title, g.url, g.siteUrl, path) }

  lemma FeedListed(feeds: seq<Feed>, g: Feed, path: seq<string>)
    requires g in feeds
    ensures EntryFor(g, path) in FeedEntries(FeedsIn(feeds, g.folderId), path)
  {
    var fs := FeedsIn(feeds, g.folderId);
    assert g in fs;
    var k :| 0 <= k < |fs| && fs[k] == g;
    assert FeedEntries(fs, path)[k] == EntryFor(g, path);
  }

  /** A folder lists what its subfolders list and the feeds filed in it. */
  lemma InFolder(f: Folder, feeds: seq<Feed>, folders: seq<Folder>, trail: seq<Folder>, path: seq<string>, e: Entry)
    requires UniqueIds(folders) && NamesGiven(folders) && IsTrail(folders, trail + [f])
    ensures f in folders && forall c <- ChildFolders(folders, Some(f.id)) :: IsTrail(folders, trail + [f] + [c])
    ensures e in Entries([FolderOutline(f, feeds, folders, trail)], path) <==>
            || e in Entries(FolderOutlines(ChildFolders(folders, Some(f.id)), feeds, folders, trail + [f]), path + [f.name])
            || e in FeedEntries(FeedsIn(feeds, Some(f.id)), path + [f.name])
  {
    assert (trail + [f])[|trail|] == f;
    ChildTrails(folders, trail, f);
    FolderOutlineEntries(f, feeds, folders, trail, path);
  }

  /** Below the folder at `path[..depth]`, a feed filed at `path` is listed. */
  lemma {:induction false} FolderOutlineComplete(f: Folder, depth: nat, g: Feed, path: seq<string>, feeds: seq<Feed>, folders: seq<Folder>, trail: seq<Folder>)
    requires UniqueIds(folders) && UniqueSiblings(folders) && NamesGiven(folders)
    requires IsTrail(folders, trail + [f]) && g in feeds && At(folders, g.folderId, path)
    requires 0 < depth <= |path| && At(folders, Some(f.id), path[..depth]) && f.name == path[depth - 1]
    ensures EntryFor(g, path) in Entries([FolderOutline(f, feeds, folders, trail)], path[..depth - 1])
    decreases |path| - depth
  {
    assert path[..depth - 1] + [f.name] == path[..depth];
    if depth == |path| {
      assert path[..depth] == path;
      AtInjective(folders, g.folderId, path, Some(f.id), path);
      FeedListed(feeds, g, path);
      InFolder(f, feeds, folders, trail, path[..depth - 1], EntryFor(g, path));
    } else {
      var c := NextFolder(folders, Some(f.id), g.folderId, path, depth);
      ChildTrails(folders, trail, f);
      FolderOutlineComplete(c, depth + 1, g, path, feeds, folders, trail + [f]);
      InSubfolder(c, f, feeds, folders, trail, path[..depth - 1], EntryFor(g, path));
    }
  }

  lemma InSubfolder(c: Folder, f: Folder, feeds: seq<Feed>, folders: seq<Folder>, trail: seq<Folder>, path: seq<string>, e: Entry)
    requires UniqueIds(folders) && NamesGiven(folders) && IsTrail(folders, trail + [f])
    requires c in ChildFolders(folders, Some(f.id)) && IsTrail(folders, trail + [f] + [c])
    requires e in Entries([FolderOutline(c, feeds, folders, trail + [f])], path + [f.name])
    ensures e in Entries([FolderOutline(f, feeds, folders, trail)], path)
  {
    InFolder(f, feeds, folders, trail, path, e);
    InFolderOutlines(c, ChildFolders(folders, Some(f.id)), feeds, folders, trail + [f], path + [f.name], e);
  }

  /** The folder one step further down a path. */
  lemma NextFolder(folders: seq<Folder>, fid: Option<Id>, gid: Option<Id>, path: seq<string>, depth: nat) returns (c: Folder)
    requires UniqueIds(folders) && UniqueSiblings(folders)
    requires depth < |path| && At(folders, fid, path[..depth]) && At(folders, gid, path)
    ensures c in folders && c.parentId == fid && c.name == path[depth] && At(folders, Some(c.id), path[..depth + 1])
  {
    var a := Ancestor(folders, gid, path, depth + 1);
    var p := path[..depth + 1];
    c :| c in folders && a == Some(c.id) && c.name == p[|p| - 1] && At(folders, c.parentId, p[..|p| - 1]);
    assert p[..|p| - 1] == path[..depth];
    AtInjective(folders, c.parentId, path[..depth], fid, path[..depth]);
  }

  lemma {:induction false} InFolderOutlines(c: Folder, fs: seq<Folder>, feeds: seq<Feed>, folders: seq<Folder>, trail: seq<Folder>, path: seq<string>, e: Entry)
    requires UniqueIds(folders) && (forall f <- fs :: IsTrail(folders, trail + [f])) && c in fs
    requires e in Entries([FolderOutline(c, feeds, folders, trail)], path)
    ensures e in Entries(FolderOutlines(fs, feeds, folders, trail), path)
  {
    var first, rest := [FolderOutline(fs[0], feeds, folders, trail)], FolderOutlines(fs[1..], feeds, folders, trail);
    EntriesConcat(first, rest, path);
    if c != fs[0] {
      InFolderOutlines(c, fs[1..], feeds, folders, trail, path, e);
    }
  }

  /** Every feed whose folder hangs from the root is listed, at its path. */
  lemma TreeComplete(feeds: seq<Feed>, folders: seq<Folder>, g: Feed, path: seq<string>)
    requires UniqueIds(folders) && UniqueSiblings(folders) && NamesGiven(folders)
    requires g in feeds && At(folders, g.folderId, path)
    ensures EntryFor(g, path) in Entries(Tree(feeds, folders), [])
  {
    var fs := ChildFolders(folders, None);
    var first, last := FolderOutlines(fs, feeds, folders, []), FeedOutlines(FeedsIn(feeds, None));
    EntriesConcat(first, last, []);
    if path == [] {
      FeedOutlinesEntries(FeedsIn(feeds, None), []);
      FeedListed(feeds, g, []);
      assert EntryFor(g, path) in Entries(last, []);
    } else {
      TopFolderComplete(feeds, folders, g, path);
      assert EntryFor(g, path) in Entries(first, []);
    }
  }

  lemma RootTrails(folders: seq<Folder>)
    ensures forall f <- ChildFolders(folders, None) :: IsTrail(folders, [] + [f])
  {
  }

  lemma TopFolderComplete(feeds: seq<Feed>, folders: seq<Folder>, g: Feed, path: seq<string>)
    requires UniqueIds(folders) && UniqueSiblings(folders) && NamesGiven(folders)
    requires g in feeds && path != [] && At(folders, g.folderId, path)
    ensures EntryFor(g, path) in Entries(FolderOutlines(ChildFolders(folders, None), feeds, folders, []), [])
  {
    assert path[..0] == [] && At(folders, None, path[..0]);
    var c := NextFolder(folders, None, g.folderId, path, 0);
    RootTrails(folders);
    FolderOutlineComplete(c, 1, g, path, feeds, folders, []);
    InFolderOutlines(c, ChildFolders(folders, None), feeds, folders, [], [], EntryFor(g, path));
  }

  // ----------------------------------------------------------------------
  // No feed is listed twice
  // ----------------------------------------------------------------------

  ghost predicate UniqueUrls(feeds: seq<Feed>) {
    forall i, j :: 0 <= i < j < |feeds| ==> feeds[i].url != feeds[j].url
  }

  lemma {:induction false} FeedsInUnique(feeds: seq<Feed>, folder: Option<Id>)
    requires UniqueUrls(feeds)
    ensures UniqueUrls(FeedsIn(feeds, folder))
  {
    if feeds != [] {
      FeedsInUnique(feeds[1..], folder);
      var rest := FeedsIn(feeds[1..], folder);
      forall f | f in rest
        ensures f.url != feeds[0].url
      {
        assert f in feeds[1..];
      }
    }
  }

  lemma DistinctConcat(a: seq<Entry>, b: seq<Entry>)
    requires DistinctUrls(a) && DistinctUrls(b)
    requires forall d, e :: d in a && e in b ==> d.url != e.url
    ensures DistinctUrls(a + b)
  {
    var c := a + b;
    forall i, j | 0 <= i < j < |c|
      ensures c[i].url != c[j].url
    {
      if i < |a| <= j {
        assert c[i] in a && c[j] in b;
      }
    }
  }

  /** Entries shown under one URL have one path. */
  lemma ShownAtOnePath(feeds: seq<Feed>, folders: seq<Folder>, d: Entry, e: Entry)
    requires UniqueIds(folders) && UniqueUrls(feeds)
    requires Shows(feeds, folders, d) && Shows(feeds, folders, e) && d.url == e.url
    ensures d.path == e.path
  {
    var f :| f in feeds && Lists(f, d) && At(folders, f.folderId, d.path);
    var g :| g in feeds && Lists(g, e) && At(folders, g.folderId, e.path);
    assert f == g;
    AtFunctional(folders, f.folderId, d.path, e.path);
  }

  lemma {:induction false} FolderOutlineDistinct(f: Folder, feeds: seq<Feed>, folders: seq<Folder>, trail: seq<Folder>, path: seq<string>)
    requires UniqueIds(folders) && UniqueSiblings(folders) && UniqueUrls(feeds) && NamesGiven(folders)
    requires IsTrail(folders, trail + [f]) && f in folders && At(folders, f.parentId, path)
    ensures DistinctUrls(Entries([FolderOutline(f, feeds, folders, trail)], path))
    decreases |folders| - |trail|, 0
  {
    TrailFits(folders, trail + [f]);
    ChildTrails(folders, trail, f);
    AtChild(folders, f, path);
    FolderOutlineEntries(f, feeds, folders, trail, path);
    ChildFoldersInOrder(folders, Some(f.id));
    LevelDistinct(ChildFolders(folders, Some(f.id)), Some(f.id), feeds, folders, trail + [f], path + [f.name]);
  }

  /** Child folders keep the order and the distinctness of the table. */
  lemma {:induction false} ChildFoldersInOrder(folders: seq<Folder>, parent: Option<Id>)
    requires UniqueSiblings(folders)
    ensures UniqueSiblings(ChildFolders(folders, parent))
  {
    if folders != [] {
      ChildFoldersInOrder(folders[1..], parent);
      forall f | f in ChildFolders(folders[1..], parent)
        ensures !(f.parentId == folders[0].parentId && Text.Fold(f.name) == Text.Fold(folders[0].name))
      {
        assert f in folders[1..];
      }
    }
  }

  /** Subtrees of different siblings list different feeds. */
  lemma SiblingsApart(fs: seq<Folder>, feeds: seq<Feed>, folders: seq<Folder>, path: seq<string>, first: seq<Entry>, rest: seq<Entry>)
    requires UniqueIds(folders) && UniqueUrls(feeds)
    requires fs != [] && UniqueSiblings(fs) && forall f <- fs :: f.parentId == fs[0].parentId
    requires forall d <- first :: Shows(feeds, folders, d) && path + [fs[0].name] <= d.path
    requires forall e <- rest :: Shows(feeds, folders, e) && exists f <- fs[1..] :: path + [f.name] <= e.path
    ensures forall d, e :: d in first && e in rest ==> d.url != e.url
  {
    forall d, e | d in first && e in rest
      ensures d.url != e.url
    {
      var f :| f in fs[1..] && path + [f.name] <= e.path;
      var k :| 0 <= k < |fs[1..]| && fs[1..][k] == f;
      assert fs[k + 1] == f && f in fs && Text.Fold(fs[0].name) != Text.Fold(f.name);
      assert d.path[|path|] == (path + [fs[0].name])[|path|] == fs[0].name;
      assert e.path[|path|] == (path + [f.name])[|path|] == f.name;
      if d.url == e.url {
        ShownAtOnePath(feeds, folders, d, e);
      }
    }
  }

  lemma {:induction false} FolderOutlinesDistinct(fs: seq<Folder>, parent: Option<Id>, feeds: seq<Feed>, folders: seq<Folder>, trail: seq<Folder>, path: seq<string>)
    requires UniqueIds(folders) && UniqueSiblings(folders) && UniqueUrls(feeds) && NamesGiven(folders) && UniqueSiblings(fs)
    requires forall f <- fs :: IsTrail(folders, trail + [f]) && f in folders && f.parentId == parent
    requires At(folders, parent, path)
    ensures DistinctUrls(Entries(FolderOutlines(fs, feeds, folders, trail), path))
    decreases |folders| - |trail|, 1, |fs|
  {
    if fs != [] {
      var first, rest := [FolderOutline(fs[0], feeds, folders, trail)], FolderOutlines(fs[1..], feeds, folders, trail);
      EntriesConcat(first, rest, path);
      FolderOutlineDistinct(fs[0], feeds, folders, trail, path);
      FolderOutlinesDistinct(fs[1..], parent, feeds, folders, trail, path);
      FolderOutlineSound(fs[0], feeds, folders, trail, path);
      FolderOutlinesSound(fs[1..], parent, feeds, folders, trail, path);
      SiblingsApart(fs, feeds, folders, path, Entries(first, path), Entries(rest, path));
      DistinctConcat(Entries(first, path), Entries(rest, path));
    }
  }

  /** One level of the tree: the subtrees of the child folders, then the feeds filed here. */
  lemma {:induction false} LevelDistinct(fs: seq<Folder>, parent: Option<Id>, feeds: seq<Feed>, folders: seq<Folder>, trail: seq<Folder>, path: seq<string>)
    requires UniqueIds(folders) && UniqueSiblings(folders) && UniqueUrls(feeds) && NamesGiven(folders) && UniqueSiblings(fs)
    requires forall f <- fs :: IsTrail(folders, trail + [f]) && f in folders && f.parentId == parent
    requires At(folders, parent, path)
    ensures DistinctUrls(Entries(FolderOutlines(fs, feeds, folders, trail), path) + FeedEntries(FeedsIn(feeds, parent), path))
    decreases |folders| - |trail|, 2
  {
    var here := FeedsIn(feeds, parent);
    var below, at := Entries(FolderOutlines(fs, feeds, folders, trail), path), FeedEntries(here, path);
    FolderOutlinesDistinct(fs, parent, feeds, folders, trail, path);
    FolderOutlinesSound(fs, parent, feeds, folders, trail, path);
    FeedsInUnique(feeds, parent);
    FeedEntriesSound(parent, feeds, folders, path);
    assert DistinctUrls(at);
    assert forall f <- fs :: |path + [f.name]| > |path|;
    DeeperApart(feeds, folders, path, below, at);
    DistinctConcat(below, at);
  }

  /** A feed listed further down is none of those listed here. */
  lemma DeeperApart(feeds: seq<Feed>, folders: seq<Folder>, path: seq<string>, below: seq<Entry>, at: seq<Entry>)
    requires UniqueIds(folders) && UniqueUrls(feeds)
    requires forall d <- below :: Shows(feeds, folders, d) && |d.path| > |path|
    requires forall e <- at :: Shows(feeds, folders, e) && e.path == path
    ensures forall d, e :: d in below && e in at ==> d.url != e.url
  {
    forall d, e | d in below && e in at
      ensures d.url != e.url
    {
      if d.url == e.url {
        ShownAtOnePath(feeds, folders, d, e);
      }
    }
  }

  // ----------------------------------------------------------------------
  // The order of the exported tree
  // ----------------------------------------------------------------------

  /** The positions below `n` that are meant, in order. */
  ghost predicate InOrder(order: seq<nat>, n: nat, meant: nat -> bool) {
    && (forall k, l :: 0 <= k < l < |order| ==> order[k] < order[l])
    && (forall i: nat :: i in order <==> i < n && meant(i))
  }

  /** One level of a tree: the folders below a parent in the order of the table, and behind
      them the feeds filed there in theirs. */
  ghost predicate IsLevel(outlines: seq<Outline>, parent: Option<Id>, feeds: seq<Feed>, folders: seq<Folder>) {
    exists order: seq<nat>, filed: seq<nat> :: LevelIs(outlines, order, filed, parent, feeds, folders)
  }

  ghost predicate LevelIs(
    outlines: seq<Outline>, order: seq<nat>, filed: seq<nat>, parent: Option<Id>, feeds: seq<Feed>, folders: seq<Folder>)
  {
    && InOrder(order, |folders|, Below(folders, parent)) && InOrder(filed, |feeds|, FiledIn(feeds, parent))
    && |outlines| == |order| + |filed|
    && (forall k :: 0 <= k < |order| ==> order[k] < |folders| && Folds(outlines[k], folders[order[k]]))
    && (forall k :: 0 <= k < |filed| ==> filed[k] < |feeds| && Follows(outlines[|order| + k], feeds[filed[k]]))
  }

  ghost function Below(folders: seq<Folder>, parent: Option<Id>): nat -> bool {
    (i: nat) => i < |folders| && folders[i].parentId == parent
  }

  ghost function FiledIn(feeds: seq<Feed>, folder: Option<Id>): nat -> bool {
    (i: nat) => i < |feeds| && feeds[i].folderId == folder
  }

  ghost function Picks(n: nat, meant: nat -> bool): (order: seq<nat>)
    ensures forall k :: 0 <= k < |order| ==> order[k] < n
  {
    if n == 0 then [] else Picks(n - 1, meant) + (if meant(n - 1) then [n - 1] else [])
  }

  lemma {:induction false} PicksInOrder(n: nat, meant: nat -> bool)
    ensures InOrder(Picks(n, meant), n, meant)
  {
    if n > 0 { PicksInOrder(n - 1, meant); }
  }

  ghost function Chosen<T>(xs: seq<T>, order: seq<nat>): seq<T>
    requires forall k :: 0 <= k < |order| ==> order[k] < |xs|
  {
    seq(|order|, k requires 0 <= k < |order| => xs[order[k]])
  }

  lemma ChosenStep<T>(xs: seq<T>, n: nat, meant: nat -> bool)
    requires 0 < n <= |xs|
    ensures Chosen(xs, Picks(n, meant)) == Chosen(xs, Picks(n - 1, meant)) + (if meant(n - 1) then [xs[n - 1]] else [])
  {
    var order := Picks(n - 1, meant);
    if !meant(n - 1) {
      assert order + [] == order && Chosen(xs, order) + [] == Chosen(xs, order);
    }
  }

  ghost predicate Folds(o: Outline, f: Folder) { o.xmlUrl.None? && o.text == f.name && o.title == Some(f.name) }

  ghost predicate Follows(o: Outline, f: Feed) {
    && o.xmlUrl == Some(f.url) && o.htmlUrl == f.siteUrl && o.text == f.title && o.title == Some(f.title)
    && o.feedType == Some("rss") && o.children == []
  }

  lemma {:induction false} PickedFolders(folders: seq<Folder>, parent: Option<Id>, n: nat)
    requires n <= |folders|
    ensures ChildFolders(folders[..n], parent) == Chosen(folders, Picks(n, Below(folders, parent)))
  {
    if n > 0 {
      PickedFolders(folders, parent, n - 1);
      FoldersInStep(folders, n, parent);
      ChosenStep(folders, n, Below(folders, parent));
    }
  }

  lemma FoldersInStep(folders: seq<Folder>, n: nat, parent: Option<Id>)
    requires 0 < n <= |folders|
    ensures ChildFolders(folders[..n], parent)
         == ChildFolders(folders[..n - 1], parent) + (if Below(folders, parent)(n - 1) then [folders[n - 1]] else [])
  {
    ChildFoldersConcat(folders[..n - 1], [folders[n - 1]], parent);
    assert folders[..n] == folders[..n - 1] + [folders[n - 1]];
    assert [folders[n - 1]][1..] == [];
  }

  lemma FeedsInStep(feeds: seq<Feed>, n: nat, folder: Option<Id>)
    requires 0 < n <= |feeds|
    ensures FeedsIn(feeds[..n], folder)
         == FeedsIn(feeds[..n - 1], folder) + (if FiledIn(feeds, folder)(n - 1) then [feeds[n - 1]] else [])
  {
    FeedsInConcat(feeds[..n - 1], [feeds[n - 1]], folder);
    assert feeds[..n] == feeds[..n - 1] + [feeds[n - 1]];
    assert [feeds[n - 1]][1..] == [];
  }

  lemma {:induction false} PickedFeeds(feeds: seq<Feed>, folder: Option<Id>, n: nat)
    requires n <= |feeds|
    ensures FeedsIn(feeds[..n], folder) == Chosen(feeds, Picks(n, FiledIn(feeds, folder)))
  {
    if n > 0 {
      PickedFeeds(feeds, folder, n - 1);
      FeedsInStep(feeds, n, folder);
      ChosenStep(feeds, n, FiledIn(feeds, folder));
    }
  }

  lemma {:induction false} FolderOutlinesFold(fs: seq<Folder>, feeds: seq<Feed>, folders: seq<Folder>, trail: seq<Folder>)
    requires UniqueIds(folders) && forall f <- fs :: IsTrail(folders, trail + [f])
    ensures |FolderOutlines(fs, feeds, folders, trail)| == |fs|
    ensures forall k :: 0 <= k < |fs| ==> Folds(FolderOutlines(fs, feeds, folders, trail)[k], fs[k])
    decreases |fs|
  {
    if fs != [] { FolderOutlinesFold(fs[1..], feeds, folders, trail); }
  }

  lemma {:induction false} FeedOutlinesFollow(feeds: seq<Feed>)
    ensures |FeedOutlines(feeds)| == |feeds|
    ensures forall k :: 0 <= k < |feeds| ==> Follows(FeedOutlines(feeds)[k], feeds[k])
  {
    if feeds != [] { FeedOutlinesFollow(feeds[1..]); }
  }

  lemma LevelInOrder(parent: Option<Id>, feeds: seq<Feed>, folders: seq<Folder>, trail: seq<Folder>)
    requires UniqueIds(folders) && forall f <- ChildFolders(folders, parent) :: IsTrail(folders, trail + [f])
    ensures IsLevel(FolderOutlines(ChildFolders(folders, parent), feeds, folders, trail) + FeedOutlines(FeedsIn(feeds, parent)),
                    parent, feeds, folders)
  {
    var order, filed := Picks(|folders|, Below(folders, parent)), Picks(|feeds|, FiledIn(feeds, parent));
    PicksInOrder(|folders|, Below(folders, parent));
    PicksInOrder(|feeds|, FiledIn(feeds, parent));
    PickedFolders(folders, parent, |folders|);
    PickedFeeds(feeds, parent, |feeds|);
    assert folders[..|folders|] == folders && feeds[..|feeds|] == feeds;
    FolderOutlinesFold(ChildFolders(folders, parent), feeds, folders, trail);
    FeedOutlinesFollow(FeedsIn(feeds, parent));
    LevelOf(FolderOutlines(ChildFolders(folders, parent), feeds, folders, trail), FeedOutlines(FeedsIn(feeds, parent)),
            order, filed, parent, feeds, folders);
  }

  lemma LevelOf(
    kids: seq<Outline>, leaves: seq<Outline>, order: seq<nat>, filed: seq<nat>,
    parent: Option<Id>, feeds: seq<Feed>, folders: seq<Folder>)
    requires InOrder(order, |folders|, Below(folders, parent)) && InOrder(filed, |feeds|, FiledIn(feeds, parent))
    requires |kids| == |order| && forall k :: 0 <= k < |order| ==> order[k] < |folders| && Folds(kids[k], folders[order[k]])
    requires |leaves| == |filed| && forall k :: 0 <= k < |filed| ==> filed[k] < |feeds| && Follows(leaves[k], feeds[filed[k]])
    ensures IsLevel(kids + leaves, parent, feeds, folders)
  {
    assert LevelIs(kids + leaves, order, filed, parent, feeds, folders);
  }

  /** The tree to export and every folder in it are laid out in the order of the tables,
      folders in front of feeds. */
  lemma TreeInOrder(feeds: seq<Feed>, folders: seq<Folder>)
    requires UniqueIds(folders)
    ensures IsLevel(Tree(feeds, folders), None, feeds, folders)
  {
    LevelInOrder(None, feeds, folders, []);
  }

  lemma FolderInOrder(f: Folder, feeds: seq<Feed>, folders: seq<Folder>, trail: seq<Folder>)
    requires UniqueIds(folders) && IsTrail(folders, trail + [f])
    ensures Folds(FolderOutline(f, feeds, folders, trail), f)
    ensures IsLevel(FolderOutline(f, feeds, folders, trail).children, Some(f.id), feeds, folders)
  {
    ChildTrails(folders, trail, f);
    LevelInOrder(Some(f.id), feeds, folders, trail + [f]);
  }

  /** The exported tree lists exactly the feeds that hang from the root, each once, at
      the path of its folder. Feeds whose folder does not exist or lies in a parent cycle
      are left out. */
  lemma TreeListsEachFeedOnce(feeds: seq<Feed>, folders: seq<Folder>)
    requires UniqueIds(folders) && UniqueSiblings(folders) && UniqueUrls(feeds) && NamesGiven(folders)
    ensures DistinctUrls(Entries(Tree(feeds, folders), []))
    ensures forall e :: e in Entries(Tree(feeds, folders), []) <==> Shows(feeds, folders, e)
  {
    var fs := ChildFolders(folders, None);
    EntriesConcat(FolderOutlines(fs, feeds, folders, []), FeedOutlines(FeedsIn(feeds, None)), []);
    FeedOutlinesEntries(FeedsIn(feeds, None), []);
    ChildFoldersInOrder(folders, None);
    LevelDistinct(fs, None, feeds, folders, [], []);
    TreeSound(feeds, folders);
    forall e | Shows(feeds, folders, e)
      ensures e in Entries(Tree(feeds, folders), [])
    {
      var g :| g in feeds && Lists(g, e) && At(folders, g.folderId, e.path);
      TreeComplete(feeds, folders, g, e.path);
      assert EntryFor(g, e.path) == e;
    }
  }

  // ----------------------------------------------------------------------
  // Export, write, read, import
  // ----------------------------------------------------------------------

  lemma {:induction false} FeedOutlinesNormal(feeds: seq<Feed>)
    ensures Normal(FeedOutlines(feeds)) == FeedOutlines(feeds) && FeedsAreLeaves(FeedOutlines(feeds))
  {
    if feeds != [] {
      FeedOutlinesNormal(feeds[1..]);
      assert FeedOutlines(feeds)[1..] == FeedOutlines(feeds[1..]);
    }
  }

  lemma {:induction false} NormalConcat(a: seq<Outline>, b: seq<Outline>)
    ensures Normal(a + b) == Normal(a) + Normal(b)
  {
    if a == [] {
      assert a + b == b;
    } else {
      assert (a + b)[1..] == a[1..] + b;
      NormalConcat(a[1..], b);
    }
  }

  lemma {:induction false} FolderOutlinesNormal(fs: seq<Folder>, feeds: seq<Feed>, folders: seq<Folder>, trail: seq<Folder>)
    requires UniqueIds(folders) && forall f <- fs :: IsTrail(folders, trail + [f])
    ensures var os := FolderOutlines(fs, feeds, folders, trail); Normal(os) == os && FeedsAreLeaves(os)
    decreases |folders| - |trail|, |fs|
  {
    if fs != [] {
      var f := fs[0];
      TrailFits(folders, trail + [f]);
      var below := FolderOutlines(ChildFolders(folders, Some(f.id)), feeds, folders, trail + [f]);
      var filed := FeedOutlines(FeedsIn(feeds, Some(f.id)));
      FolderOutlinesNormal(ChildFolders(folders, Some(f.id)), feeds, folders, trail + [f]);
      FeedOutlinesNormal(FeedsIn(feeds, Some(f.id)));
      NormalConcat(below, filed);
      FeedsAreLeavesConcat(below, filed);
      FolderOutlinesNormal(fs[1..], feeds, folders, trail);
      var os := FolderOutlines(fs, feeds, folders, trail);
      assert os[0] == FolderOutline(f, feeds, folders, trail) && os[0].children == below + filed;
      assert os[1..] == FolderOutlines(fs[1..], feeds, folders, trail);
    }
  }

  /** The exported tree is unchanged by a trip through a file. */
  lemma TreeSurvivesFile(feeds: seq<Feed>, folders: seq<Folder>, title: string)
    requires UniqueIds(folders)
    ensures Parsed(Printed(title, Tree(feeds, folders))) == Ok(Document(Text.Trim(title), Tree(feeds, folders)))
  {
    var below, filed := FolderOutlines(ChildFolders(folders, None), feeds, folders, []), FeedOutlines(FeedsIn(feeds, None));
    FolderOutlinesNormal(ChildFolders(folders, None), feeds, folders, []);
    FeedOutlinesNormal(FeedsIn(feeds, None));
    NormalConcat(below, filed);
    FeedsAreLeavesConcat(below, filed);
    LeafForestRoundTrip(title, below + filed);
  }

  /** Every folder path of a table occurs, letter for letter, in a given library. */
  ghost predicate SpelledAs(t: Table, folders: seq<Folder>) {
    forall fid, p :: At(t.folders, fid, p) ==> exists gid :: At(folders, gid, p)
  }

  /** Two folder paths of one library that agree up to case agree. */
  lemma OneSpelling(folders: seq<Folder>, fid: Option<Id>, p: seq<string>, gid: Option<Id>, q: seq<string>)
    requires UniqueIds(folders) && UniqueSiblings(folders)
    requires At(folders, fid, p) && At(folders, gid, q) && FoldPath(p) == FoldPath(q)
    ensures p == q
  {
    AtInjective(folders, fid, p, gid, q);
    AtFunctional(folders, fid, p, q);
  }

  /** An old id is reached through old folders only. */
  lemma {:induction false} BelowNext(t: Table, f: Folder, fid: Option<Id>, p: seq<string>)
    requires ValidTable(t) && f.id == t.next && Known(t, fid)
    requires At(t.folders + [f], fid, p)
    ensures At(t.folders, fid, p)
    decreases |p|
  {
    if p != [] {
      var all := t.folders + [f];
      var g :| g in all && fid == Some(g.id) && g.name == p[|p| - 1] && At(all, g.parentId, p[..|p| - 1]);
      assert g in t.folders;
      BelowNext(t, f, g.parentId, p[..|p| - 1]);
    }
  }

  lemma AtNewFolder(t: Table, f: Folder, parentPath: seq<string>, fid: Option<Id>, p: seq<string>)
    requires ValidTable(t) && Known(t, f.parentId) && f.id == t.next
    requires At(t.folders, f.parentId, parentPath) && At(t.folders + [f], fid, p)
    ensures At(t.folders, fid, p) || p == parentPath + [f.name]
  {
    if p != [] {
      var all, q := t.folders + [f], p[..|p| - 1];
      var g :| g in all && fid == Some(g.id) && g.name == p[|p| - 1] && At(all, g.parentId, q);
      assert p == q + [g.name];
      assert g in t.folders || g == f;
      BelowNext(t, f, g.parentId, q);
      if g == f {
        AtFunctional(t.folders, f.parentId, q, parentPath);
      }
    }
  }

  /** Every folder a forest names is a folder of the library, spelled the same way. */
  ghost predicate ForestSpelled(outlines: seq<Outline>, path: seq<string>, folders: seq<Folder>) {
    outlines != [] ==>
      var o := outlines[0];
      && ForestSpelled(outlines[1..], path, folders)
      && (!o.IsFeed() ==>
            if o.DisplayName() == "" then ForestSpelled(o.children, path, folders)
            else
              && (exists gid :: At(folders, gid, path + [o.DisplayName()]))
              && ForestSpelled(o.children, path + [o.DisplayName()], folders))
  }

  /** Importing such a forest only creates folders spelled as in the library. */
  lemma {:induction false} KeepsSpelling(t: Table, outlines: seq<Outline>, parent: Option<Id>, now: int, path: seq<string>, folders: seq<Folder>)
    requires ValidTable(t) && Known(t, parent) && At(t.folders, parent, path) && SpelledAs(t, folders)
    requires UniqueIds(folders) && UniqueSiblings(folders) && ForestSpelled(outlines, path, folders)
    ensures SpelledAs(TableAfter(t, outlines, parent, now), folders)
    decreases outlines, 0
  {
    if outlines != [] {
      var t1 := TableAfterOne(t, outlines[0], parent, now);
      TableGrowsOne(t, outlines[0], parent, now);
      KeepsSpellingOne(t, outlines[0], parent, now, path, folders);
      AtGrows(t.folders, t1.folders, parent, path);
      KeepsSpelling(t1, outlines[1..], parent, now, path, folders);
    }
  }

  lemma {:induction false} KeepsSpellingOne(t: Table, o: Outline, parent: Option<Id>, now: int, path: seq<string>, folders: seq<Folder>)
    requires ValidTable(t) && Known(t, parent) && At(t.folders, parent, path) && SpelledAs(t, folders)
    requires UniqueIds(folders) && UniqueSiblings(folders) && ForestSpelled([o], path, folders)
    ensures SpelledAs(TableAfterOne(t, o, parent, now), folders)
    decreases o, 1
  {
    assert [o][0] == o;
    if o.IsFeed() {
    } else if o.DisplayName() == "" {
      KeepsSpelling(t, o.children, parent, now, path, folders);
    } else {
      var name := o.DisplayName();
      var (t', f) := GetOrCreate(t, name, parent, now);
      GetOrCreateGrows(t, name, parent, now);
      FolderSpelled(t, name, parent, now, path, folders);
      KeepsSpelling(t', o.children, Some(f.id), now, path + [name], folders);
    }
  }

  lemma FolderSpelled(t: Table, name: string, parent: Option<Id>, now: int, path: seq<string>, folders: seq<Folder>)
    requires ValidTable(t) && Known(t, parent) && At(t.folders, parent, path) && SpelledAs(t, folders)
    requires UniqueIds(folders) && UniqueSiblings(folders) && exists gid :: At(folders, gid, path + [name])
    ensures var (t', f) := GetOrCreate(t, name, parent, now);
            SpelledAs(t', folders) && At(t'.folders, Some(f.id), path + [name])
  {
    var (t', f) := GetOrCreate(t, name, parent, now);
    GetOrCreateGrows(t, name, parent, now);
    AtGrows(t.folders, t'.folders, parent, path);
    AtChild(t'.folders, f, path);
    if FolderByName(t.folders, name, parent).None? {
      NewFolderSpelled(t, f, path, folders);
    } else {
      assert t' == t;
      SameSpelling(folders, path, f.name, name);
    }
  }

  lemma NewFolderSpelled(t: Table, f: Folder, path: seq<string>, folders: seq<Folder>)
    requires ValidTable(t) && Known(t, f.parentId) && f.id == t.next && At(t.folders, f.parentId, path)
    requires SpelledAs(t, folders) && exists gid :: At(folders, gid, path + [f.name])
    ensures SpelledAs(Table(t.folders + [f], t.next + 1), folders)
  {
    forall fid, p | At(t.folders + [f], fid, p)
      ensures exists gid :: At(folders, gid, p)
    {
      AtNewFolder(t, f, path, fid, p);
    }
  }

  lemma SameSpelling(folders: seq<Folder>, path: seq<string>, a: string, b: string)
    requires UniqueIds(folders) && UniqueSiblings(folders) && Text.Fold(a) == Text.Fold(b)
    requires (exists gid :: At(folders, gid, path + [a])) && exists gid :: At(folders, gid, path + [b])
    ensures a == b
  {
    var gid :| At(folders, gid, path + [a]);
    var hid :| At(folders, hid, path + [b]);
    assert FoldPath(path + [a]) == FoldPath(path + [b]);
    OneSpelling(folders, gid, path + [a], hid, path + [b]);
    assert (path + [a])[|path|] == (path + [b])[|path|];
  }

  lemma {:induction false} ForestSpelledConcat(a: seq<Outline>, b: seq<Outline>, path: seq<string>, folders: seq<Folder>)
    requires ForestSpelled(a, path, folders) && ForestSpelled(b, path, folders)
    ensures ForestSpelled(a + b, path, folders)
  {
    if a == [] {
      assert a + b == b;
    } else {
      assert (a + b)[1..] == a[1..] + b;
      ForestSpelledConcat(a[1..], b, path, folders);
    }
  }

  lemma {:induction false} FeedOutlinesSpelled(feeds: seq<Feed>, path: seq<string>, folders: seq<Folder>)
    ensures ForestSpelled(FeedOutlines(feeds), path, folders)
  {
    if feeds != [] {
      FeedOutlinesSpelled(feeds[1..], path, folders);
      assert FeedOutlines(feeds)[1..] == FeedOutlines(feeds[1..]);
    }
  }

  lemma {:induction false} FolderOutlinesSpelled(fs: seq<Folder>, feeds: seq<Feed>, folders: seq<Folder>, trail: seq<Folder>, path: seq<string>)
    requires UniqueIds(folders) && NamesGiven(folders)
    requires forall f <- fs :: IsTrail(folders, trail + [f]) && f in folders && At(folders, f.parentId, path)
    ensures ForestSpelled(FolderOutlines(fs, feeds, folders, trail), path, folders)
    decreases |folders| - |trail|, |fs|
  {
    if fs != [] {
      var f := fs[0];
      TrailFits(folders, trail + [f]);
      ChildTrails(folders, trail, f);
      AtChild(folders, f, path);
      var here := path + [f.name];
      var below := FolderOutlines(ChildFolders(folders, Some(f.id)), feeds, folders, trail + [f]);
      var filed := FeedOutlines(FeedsIn(feeds, Some(f.id)));
      FolderOutlinesSpelled(ChildFolders(folders, Some(f.id)), feeds, folders, trail + [f], here);
      FeedOutlinesSpelled(FeedsIn(feeds, Some(f.id)), here, folders);
      ForestSpelledConcat(below, filed, here, folders);
      FolderOutlinesSpelled(fs[1..], feeds, folders, trail, path);
      var os := FolderOutlines(fs, feeds, folders, trail);
      assert os[0] == FolderOutline(f, feeds, folders, trail) && os[0].children == below + filed;
      assert os[1..] == FolderOutlines(fs[1..], feeds, folders, trail);
    }
  }

  lemma TreeSpelled(feeds: seq<Feed>, folders: seq<Folder>)
    requires UniqueIds(folders) && NamesGiven(folders)
    ensures ForestSpelled(Tree(feeds, folders), [], folders)
  {
    FolderOutlinesSpelled(ChildFolders(folders, None), feeds, folders, [], []);
    FeedOutlinesSpelled(FeedsIn(feeds, None), [], folders);
    ForestSpelledConcat(FolderOutlines(ChildFolders(folders, None), feeds, folders, []), FeedOutlines(FeedsIn(feeds, None)), [], folders);
  }

  /** Letter-for-letter paths, once every folder is spelled as in the library. */
  lemma ExactPath(t: Table, folders: seq<Folder>, fid: Option<Id>, gid: Option<Id>, path: seq<string>)
    requires UniqueIds(folders) && UniqueSiblings(folders) && SpelledAs(t, folders)
    requires AtFolded(t.folders, fid, path) && At(folders, gid, path)
    ensures At(t.folders, fid, path)
  {
    var p :| At(t.folders, fid, p) && FoldPath(p) == FoldPath(path);
    var hid :| At(folders, hid, p);
    OneSpelling(folders, hid, p, gid, path);
  }

  // ----------------------------------------------------------------------
  // Folders, empty ones included
  // ----------------------------------------------------------------------

  ghost predicate HasFolder(folders: seq<Folder>, path: seq<string>) {
    exists fid :: At(folders, fid, path)
  }

  lemma HasFolderGrows(t: Table, later: Table, p: seq<string>)
    requires HasFolder(t.folders, p) && Grown(t, later)
    ensures HasFolder(later.folders, p)
  {
    var fid :| At(t.folders, fid, p);
    AtGrows(t.folders, later.folders, fid, p);
  }

  /** The forest has a folder at `p`. */
  ghost predicate Mentions(outlines: seq<Outline>, path: seq<string>, p: seq<string>) {
    outlines != [] &&
    (var o := outlines[0];
     || (o.xmlUrl.None? &&
           if Called(o) == "" then Mentions(o.children, path, p)
           else p == path + [Called(o)] || Mentions(o.children, path + [Called(o)], p))
     || Mentions(outlines[1..], path, p))
  }

  lemma {:induction false} MentionsConcat(a: seq<Outline>, b: seq<Outline>, path: seq<string>, p: seq<string>)
    ensures Mentions(a + b, path, p) <==> Mentions(a, path, p) || Mentions(b, path, p)
  {
    if a == [] {
      assert a + b == b;
    } else {
      assert (a + b)[1..] == a[1..] + b;
      MentionsConcat(a[1..], b, path, p);
    }
  }

  /** Importing a forest spelled as in the library makes every folder it has. */
  lemma {:induction false} MentionedIsMade(
    t: Table, outlines: seq<Outline>, parent: Option<Id>, now: int, path: seq<string>, folders: seq<Folder>, p: seq<string>)
    requires ValidTable(t) && Known(t, parent) && At(t.folders, parent, path) && SpelledAs(t, folders)
    requires UniqueIds(folders) && UniqueSiblings(folders) && ForestSpelled(outlines, path, folders)
    requires Mentions(outlines, path, p)
    ensures HasFolder(TableAfter(t, outlines, parent, now).folders, p)
    decreases outlines, 0
  {
    var o, rest := outlines[0], outlines[1..];
    ForestSplits(outlines, path, folders, p);
    if Mentions(rest, path, p) {
      SpelledBehindOne(t, o, parent, now, path, folders);
      MentionedIsMade(TableAfterOne(t, o, parent, now), rest, parent, now, path, folders, p);
    } else {
      MentionedIsMadeOne(t, o, parent, now, path, folders, p);
      FolderOutlives(t, o, rest, parent, now, p);
    }
  }

  lemma ForestSplits(outlines: seq<Outline>, path: seq<string>, folders: seq<Folder>, p: seq<string>)
    requires outlines != [] && ForestSpelled(outlines, path, folders) && Mentions(outlines, path, p)
    ensures ForestSpelled([outlines[0]], path, folders) && ForestSpelled(outlines[1..], path, folders)
    ensures Mentions([outlines[0]], path, p) || Mentions(outlines[1..], path, p)
  {
    assert [outlines[0]][1..] == [];
  }

  lemma SpelledBehindOne(t: Table, o: Outline, parent: Option<Id>, now: int, path: seq<string>, folders: seq<Folder>)
    requires ValidTable(t) && Known(t, parent) && At(t.folders, parent, path) && SpelledAs(t, folders)
    requires UniqueIds(folders) && UniqueSiblings(folders) && ForestSpelled([o], path, folders)
    ensures var t1 := TableAfterOne(t, o, parent, now);
            ValidTable(t1) && Known(t1, parent) && At(t1.folders, parent, path) && SpelledAs(t1, folders)
  {
    TableGrowsOne(t, o, parent, now);
    KeepsSpellingOne(t, o, parent, now, path, folders);
    AtGrows(t.folders, TableAfterOne(t, o, parent, now).folders, parent, path);
  }

  lemma FolderOutlives(t: Table, o: Outline, rest: seq<Outline>, parent: Option<Id>, now: int, p: seq<string>)
    requires ValidTable(t) && Known(t, parent) && HasFolder(TableAfterOne(t, o, parent, now).folders, p)
    ensures HasFolder(TableAfter(TableAfterOne(t, o, parent, now), rest, parent, now).folders, p)
  {
    var t1 := TableAfterOne(t, o, parent, now);
    TableGrowsOne(t, o, parent, now);
    TableGrows(t1, rest, parent, now);
    HasFolderGrows(t1, TableAfter(t1, rest, parent, now), p);
  }

  lemma {:induction false} MentionedIsMadeOne(
    t: Table, o: Outline, parent: Option<Id>, now: int, path: seq<string>, folders: seq<Folder>, p: seq<string>)
    requires ValidTable(t) && Known(t, parent) && At(t.folders, parent, path) && SpelledAs(t, folders)
    requires UniqueIds(folders) && UniqueSiblings(folders) && ForestSpelled([o], path, folders)
    requires Mentions([o], path, p)
    ensures HasFolder(TableAfterOne(t, o, parent, now).folders, p)
    decreases o, 1
  {
    assert [o][0] == o && [o][1..] == [];
    if o.DisplayName() == "" {
      MentionedIsMade(t, o.children, parent, now, path, folders, p);
    } else {
      var name := o.DisplayName();
      var (t', f) := GetOrCreate(t, name, parent, now);
      GetOrCreateGrows(t, name, parent, now);
      FolderSpelled(t, name, parent, now, path, folders);
      if p == path + [name] {
        TableGrows(t', o.children, Some(f.id), now);
        assert HasFolder(t'.folders, p);
        HasFolderGrows(t', TableAfter(t', o.children, Some(f.id), now), p);
      } else {
        MentionedIsMade(t', o.children, Some(f.id), now, path + [name], folders, p);
      }
    }
  }

  /** Below the folder at `p[..depth]`, the folder at `p` is in the outline. */
  lemma {:induction false} FolderMentioned(
    f: Folder, depth: nat, gid: Option<Id>, p: seq<string>, feeds: seq<Feed>, folders: seq<Folder>, trail: seq<Folder>)
    requires UniqueIds(folders) && UniqueSiblings(folders) && NamesGiven(folders)
    requires IsTrail(folders, trail + [f]) && f in folders && At(folders, gid, p)
    requires 0 < depth <= |p| && At(folders, Some(f.id), p[..depth]) && f.name == p[depth - 1]
    ensures Mentions([FolderOutline(f, feeds, folders, trail)], p[..depth - 1], p)
    decreases |p| - depth
  {
    var here := p[..depth];
    assert p[..depth - 1] + [f.name] == here;
    var o := FolderOutline(f, feeds, folders, trail);
    assert [o][0] == o && o.DisplayName() == f.name;
    if depth == |p| {
      assert here == p;
    } else {
      var children := ChildFolders(folders, Some(f.id));
      var c := NextFolder(folders, Some(f.id), gid, p, depth);
      ChildTrails(folders, trail, f);
      FolderMentioned(c, depth + 1, gid, p, feeds, folders, trail + [f]);
      assert p[..depth + 1 - 1] == here;
      MentionedAmong(c, children, feeds, folders, trail + [f], here, p);
      MentionsConcat(FolderOutlines(children, feeds, folders, trail + [f]), FeedOutlines(FeedsIn(feeds, Some(f.id))), here, p);
    }
  }

  lemma {:induction false} MentionedAmong(
    c: Folder, fs: seq<Folder>, feeds: seq<Feed>, folders: seq<Folder>, trail: seq<Folder>, path: seq<string>, p: seq<string>)
    requires UniqueIds(folders) && (forall f <- fs :: IsTrail(folders, trail + [f])) && c in fs
    requires Mentions([FolderOutline(c, feeds, folders, trail)], path, p)
    ensures Mentions(FolderOutlines(fs, feeds, folders, trail), path, p)
  {
    var first, rest := [FolderOutline(fs[0], feeds, folders, trail)], FolderOutlines(fs[1..], feeds, folders, trail);
    MentionsConcat(first, rest, path, p);
    if c != fs[0] {
      MentionedAmong(c, fs[1..], feeds, folders, trail, path, p);
    }
  }

  /** The exported tree has every folder that hangs from the root, empty ones included. */
  lemma TreeMentions(feeds: seq<Feed>, folders: seq<Folder>, gid: Option<Id>, p: seq<string>)
    requires UniqueIds(folders) && UniqueSiblings(folders) && NamesGiven(folders)
    requires p != [] && At(folders, gid, p)
    ensures Mentions(Tree(feeds, folders), [], p)
  {
    assert p[..0] == [] && At(folders, None, p[..0]);
    var c := NextFolder(folders, None, gid, p, 0);
    RootTrails(folders);
    FolderMentioned(c, 1, gid, p, feeds, folders, []);
    MentionedAmong(c, ChildFolders(folders, None), feeds, folders, [], [], p);
    MentionsConcat(FolderOutlines(ChildFolders(folders, None), feeds, folders, []), FeedOutlines(FeedsIn(feeds, None)), [], p);
  }

  /** The restored library has a folder at a path exactly when the exported one has. */
  lemma FoldersRestored(feeds: seq<Feed>, folders: seq<Folder>, now: int, p: seq<string>)
    requires UniqueIds(folders) && UniqueSiblings(folders) && NamesGiven(folders)
    ensures var restored := Import(EMPTY_LIBRARY, Tree(feeds, folders), None, now);
            HasFolder(restored.table.folders, p) <==> HasFolder(folders, p)
  {
    var outlines := Tree(feeds, folders);
    var restored := Import(EMPTY_LIBRARY, outlines, None, now);
    TreeSpelled(feeds, folders);
    assert SpelledAs(EMPTY_LIBRARY.table, folders) by { assert At(folders, None, []); }
    KeepsSpelling(EMPTY_LIBRARY.table, outlines, None, now, [], folders);
    ImportSplits(EMPTY_LIBRARY, outlines, None, now);
    if HasFolder(folders, p) {
      var gid :| At(folders, gid, p);
      if p == [] {
        assert At(restored.table.folders, None, p);
      } else {
        TreeMentions(feeds, folders, gid, p);
        MentionedIsMade(EMPTY_LIBRARY.table, outlines, None, now, [], folders, p);
      }
    }
  }

  /** Exporting a library, writing the file, reading it back and importing it into an
      empty library restores exactly the feeds that hang from the root, with every title,
      URL, site URL and folder path, and exactly the folders that hang from the root, empty
      ones included; and nothing else. */
  lemma ExportImportRestores(feeds: seq<Feed>, folders: seq<Folder>, title: string, now: int)
    requires UniqueIds(folders) && UniqueSiblings(folders) && UniqueUrls(feeds) && NamesGiven(folders)
    ensures var file := Parsed(Printed(title, Tree(feeds, folders)));
            file.Ok? &&
            var restored := Import(EMPTY_LIBRARY, file.value.outlines, None, now);
            && (forall e :: Shows(restored.feeds, restored.table.folders, e) <==> Shows(feeds, folders, e))
            && (forall p :: HasFolder(restored.table.folders, p) <==> HasFolder(folders, p))
  {
    TreeSurvivesFile(feeds, folders, title);
    var outlines := Tree(feeds, folders);
    var restored := Import(EMPTY_LIBRARY, outlines, None, now);
    TreeListsEachFeedOnce(feeds, folders);
    TreeSpelled(feeds, folders);
    assert SpelledAs(EMPTY_LIBRARY.table, folders) by { assert At(folders, None, []); }
    KeepsSpelling(EMPTY_LIBRARY.table, outlines, None, now, [], folders);
    ImportSplits(EMPTY_LIBRARY, outlines, None, now);
    ImportStores(EMPTY_LIBRARY, outlines, now, "");
    forall e | Shows(feeds, folders, e)
      ensures Shows(restored.feeds, restored.table.folders, e)
    {
      RestoresEntry(feeds, folders, now, e);
    }
    forall e | Shows(restored.feeds, restored.table.folders, e)
      ensures Shows(feeds, folders, e)
    {
      RestoresNothingElse(feeds, folders, now, e);
    }
    forall p
      ensures HasFolder(restored.table.folders, p) <==> HasFolder(folders, p)
    {
      FoldersRestored(feeds, folders, now, p);
    }
  }

  ghost predicate Exportable(feeds: seq<Feed>, folders: seq<Folder>, now: int) {
    && UniqueIds(folders) && UniqueSiblings(folders) && UniqueUrls(feeds)
    && var outlines := Tree(feeds, folders);
    && DistinctUrls(Entries(outlines, []))
    && (forall e :: e in Entries(outlines, []) <==> Shows(feeds, folders, e))
    && SpelledAs(Import(EMPTY_LIBRARY, outlines, None, now).table, folders)
    && AllFile(Import(EMPTY_LIBRARY, outlines, None, now).table.folders, Placed(EMPTY_LIBRARY.table, outlines, None, now), Entries(outlines, []))
  }

  lemma RestoresEntry(feeds: seq<Feed>, folders: seq<Folder>, now: int, e: Entry)
    requires UniqueIds(folders) && Exportable(feeds, folders, now) && Shows(feeds, folders, e)
    ensures var restored := Import(EMPTY_LIBRARY, Tree(feeds, folders), None, now);
            Shows(restored.feeds, restored.table.folders, e)
  {
    var outlines := Tree(feeds, folders);
    var restored := Import(EMPTY_LIBRARY, outlines, None, now);
    var es, ps := Entries(outlines, []), Placed(EMPTY_LIBRARY.table, outlines, None, now);
    var k :| 0 <= k < |es| && es[k] == e;
    assert Files(restored.table.folders, ps[k], e);
    forall i, j | 0 <= i < j < |ps|
      ensures ps[i].url != ps[j].url
    {
      assert Files(restored.table.folders, ps[i], es[i]) && Files(restored.table.folders, ps[j], es[j]);
    }
    OutcomeWhenDistinct(ps, k);
    ImportStores(EMPTY_LIBRARY, outlines, now, e.url);
    var g := FeedByUrl(restored.feeds, e.url).value;
    var f :| f in feeds && Lists(f, e) && At(folders, f.folderId, e.path);
    ExactPath(restored.table, folders, g.folderId, f.folderId, e.path);
    assert g in restored.feeds && Lists(g, e);
  }

  lemma RestoresNothingElse(feeds: seq<Feed>, folders: seq<Folder>, now: int, e: Entry)
    requires UniqueIds(folders) && Exportable(feeds, folders, now)
    requires var restored := Import(EMPTY_LIBRARY, Tree(feeds, folders), None, now);
             Shows(restored.feeds, restored.table.folders, e)
    ensures Shows(feeds, folders, e)
  {
    var outlines := Tree(feeds, folders);
    var restored := Import(EMPTY_LIBRARY, outlines, None, now);
    var es, ps := Entries(outlines, []), Placed(EMPTY_LIBRARY.table, outlines, None, now);
    var g :| g in restored.feeds && Lists(g, e) && At(restored.table.folders, g.folderId, e.path);
    ImportStores(EMPTY_LIBRARY, outlines, now, e.url);
    Found(restored.feeds, restored.nextFeed, g);
    OutcomeOfNew(ps, e.url);
    var k :| 0 <= k < |ps| && ps[k].url == e.url;
    assert Files(restored.table.folders, ps[k], es[k]);
    assert es[k] in es;
    RestoresEntry(feeds, folders, now, es[k]);
    var h :| h in restored.feeds && Lists(h, es[k]) && At(restored.table.folders, h.folderId, es[k].path);
    Found(restored.feeds, restored.nextFeed, h);
    assert g == h;
    AtFunctional(restored.table.folders, g.folderId, e.path, es[k].path);
    assert e == es[k];
  }
}
