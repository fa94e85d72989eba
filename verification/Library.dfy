/**
 The subscription library behind OPML export and import: folders linked by parent id,
 feeds filed in folders, the tree built for export and the recursive, idempotent import.

 The database's own constraints are part of the model: ids are primary keys, a feed URL
 is unique, sibling folders have names that differ in more than ASCII case, and folder
 names are looked up without regard to ASCII case.
 */
module Library {
  import opened Wrappers
  import Text
  import opened Opml

  type Id = nat

  datatype Feed = Feed(id: Id, title: string, url: string, siteUrl: Option<string>, folderId: Option<Id>)

  datatype Folder = Folder(id: Id, name: string, parentId: Option<Id>, createdAt: int, updatedAt: int)

  /** The folder table; `next` stands for the supply of fresh ids. */
  datatype Table = Table(folders: seq<Folder>, next: Id)

  datatype Stats = Stats(
    foldersCreated: nat,
    foldersExisting: nat,
    feedsAdded: nat,
    feedsExisting: nat,
    feedsMoved: nat)

  const NO_STATS := Stats(0, 0, 0, 0, 0)

  /** The library together with the counters of one import. */
  datatype Session = Session(table: Table, feeds: seq<Feed>, nextFeed: Id, stats: Stats)

  // ----------------------------------------------------------------------
  // Queries
  // ----------------------------------------------------------------------

  function FolderByName(folders: seq<Folder>, name: string, parent: Option<Id>): (r: Option<Folder>)
    ensures r.Some? ==> r.value in folders && Text.Fold(r.value.name) == Text.Fold(name) && r.value.parentId == parent
    ensures r.None? ==> forall f <- folders :: !(Text.Fold(f.name) == Text.Fold(name) && f.parentId == parent)
  {
    if folders == [] then None
    else if Text.Fold(folders[0].name) == Text.Fold(name) && folders[0].parentId == parent then Some(folders[0])
    else FolderByName(folders[1..], name, parent)
  }

  function FeedByUrl(feeds: seq<Feed>, url: string): (r: Option<Feed>)
    ensures r.Some? ==> r.value in feeds && r.value.url == url
    ensures r.None? ==> forall f <- feeds :: f.url != url
  {
    if feeds == [] then None
    else if feeds[0].url == url then Some(feeds[0])
    else FeedByUrl(feeds[1..], url)
  }

  /** The update statement that files a feed elsewhere. */
  function MoveFeed(feeds: seq<Feed>, id: Id, folder: Option<Id>): (r: seq<Feed>)
    ensures |r| == |feeds|
    ensures forall i :: 0 <= i < |feeds| ==> r[i] == if feeds[i].id == id then feeds[i].(folderId := folder) else feeds[i]
  {
    seq(|feeds|, i requires 0 <= i < |feeds| =>
      if feeds[i].id == id then feeds[i].(folderId := folder) else feeds[i])
  }

  // ----------------------------------------------------------------------
  // Constraints
  // ----------------------------------------------------------------------

  ghost predicate UniqueIds(folders: seq<Folder>) {
    forall i, j :: 0 <= i < j < |folders| ==> folders[i].id != folders[j].id
  }

  ghost predicate UniqueSiblings(folders: seq<Folder>) {
    forall i, j :: 0 <= i < j < |folders| ==>
      !(folders[i].parentId == folders[j].parentId && Text.Fold(folders[i].name) == Text.Fold(folders[j].name))
  }

  ghost predicate ValidTable(t: Table) {
    && UniqueIds(t.folders)
    && UniqueSiblings(t.folders)
    && (forall f <- t.folders :: f.id < t.next && (f.parentId.Some? ==> f.parentId.value < t.next))
  }

  ghost predicate ValidFeeds(feeds: seq<Feed>, next: Id) {
    && (forall i, j :: 0 <= i < j < |feeds| ==> feeds[i].url != feeds[j].url && feeds[i].id != feeds[j].id)
    && (forall f <- feeds :: f.id < next)
  }

  ghost predicate ValidSession(s: Session) {
    ValidTable(s.table) && ValidFeeds(s.feeds, s.nextFeed)
  }

  // ----------------------------------------------------------------------
  // Building the tree to export
  // ----------------------------------------------------------------------

  /** A chain of folders from a root folder down. */
  ghost predicate IsTrail(folders: seq<Folder>, trail: seq<Folder>) {
    && trail != [] && trail[0].parentId.None?
    && (forall i :: 0 <= i < |trail| ==> trail[i] in folders)
    && (forall i {:trigger trail[i].parentId} :: 0 < i < |trail| ==> trail[i].parentId == Some(trail[i - 1].id))
  }

  /** With unique ids no folder occurs twice on the way down from a root. */
  lemma TrailDistinct(folders: seq<Folder>, trail: seq<Folder>, i: nat, j: nat)
    requires UniqueIds(folders) && IsTrail(folders, trail) && i < j < |trail|
    ensures trail[i] != trail[j]
  {
    forall a, b | 0 <= a < |trail| && 0 <= b < |trail| && trail[a].id == trail[b].id
      ensures trail[a] == trail[b]
    {
      IdsTell(folders, trail[a], trail[b]);
    }
    ChainDistinct(trail, i, j);
  }

  lemma {:induction false} ChainDistinct(trail: seq<Folder>, i: nat, j: nat)
    requires i < j < |trail| && trail[0].parentId.None?
    requires forall k {:trigger trail[k].parentId} :: 0 < k < |trail| ==> trail[k].parentId == Some(trail[k - 1].id)
    requires forall a, b :: 0 <= a < |trail| && 0 <= b < |trail| && trail[a].id == trail[b].id ==> trail[a] == trail[b]
    ensures trail[i] != trail[j]
  {
    assert trail[j].parentId == Some(trail[j - 1].id);
    if i > 0 {
      assert trail[i].parentId == Some(trail[i - 1].id);
      ChainDistinct(trail, i - 1, j - 1);
    }
  }

  lemma IdsTell(folders: seq<Folder>, f: Folder, g: Folder)
    requires UniqueIds(folders) && f in folders && g in folders && f.id == g.id
    ensures f == g
  {
    var i :| 0 <= i < |folders| && folders[i] == f;
    var j :| 0 <= j < |folders| && folders[j] == g;
    assert !(i < j) && !(j < i);
  }

  lemma {:induction false} DistinctFits<T>(xs: seq<T>, ys: seq<T>)
    requires forall i, j :: 0 <= i < j < |xs| ==> xs[i] != xs[j]
    requires forall x <- xs :: x in ys
    ensures |xs| <= |ys|
  {
    if xs != [] {
      var x := xs[0];
      assert x in xs;
      var k :| 0 <= k < |ys| && ys[k] == x;
      var ys' := ys[..k] + ys[k + 1..];
      forall z | z in xs[1..]
        ensures z in ys'
      {
        assert z in xs;
        var n :| 0 <= n < |ys| && ys[n] == z;
        if n < k { assert ys'[n] == z; } else { assert ys'[n - 1] == z; }
      }
      DistinctFits(xs[1..], ys');
    }
  }

  lemma TrailFits(folders: seq<Folder>, trail: seq<Folder>)
    requires UniqueIds(folders) && IsTrail(folders, trail)
    ensures |trail| <= |folders|
  {
    forall i, j | 0 <= i < j < |trail|
      ensures trail[i] != trail[j]
    {
      TrailDistinct(folders, trail, i, j);
    }
    DistinctFits(trail, folders);
  }

  function ChildFolders(folders: seq<Folder>, parent: Option<Id>): (r: seq<Folder>)
    ensures forall f :: f in r <==> f in folders && f.parentId == parent
  {
    if folders == [] then []
    else (if folders[0].parentId == parent then [folders[0]] else []) + ChildFolders(folders[1..], parent)
  }

  function FeedsIn(feeds: seq<Feed>, folder: Option<Id>): (r: seq<Feed>)
    ensures forall f :: f in r <==> f in feeds && f.folderId == folder
  {
    if feeds == [] then []
    else (if feeds[0].folderId == folder then [feeds[0]] else []) + FeedsIn(feeds[1..], folder)
  }

  function FeedOutline(f: Feed): Outline {
    Outline(f.title, Some(f.title), Some(f.url), f.siteUrl, Some("rss"), [])
  }

  function FeedOutlines(feeds: seq<Feed>): seq<Outline> {
    if feeds == [] then [] else [FeedOutline(feeds[0])] + FeedOutlines(feeds[1..])
  }

  /** The recursion visits a folder below the folders of `trail`; unique ids bound it, so
      it ends even when other folders form parent cycles. */
  function FolderOutline(f: Folder, feeds: seq<Feed>, folders: seq<Folder>, ghost trail: seq<Folder>): Outline
    requires UniqueIds(folders) && IsTrail(folders, trail + [f])
    decreases |folders| - |trail|, 0
  {
    TrailFits(folders, trail + [f]);
    Outline(f.name, Some(f.name), None, None, None,
      FolderOutlines(ChildFolders(folders, Some(f.id)), feeds, folders, trail + [f])
      + FeedOutlines(FeedsIn(feeds, Some(f.id))))
  }

  function FolderOutlines(fs: seq<Folder>, feeds: seq<Feed>, folders: seq<Folder>, ghost trail: seq<Folder>): seq<Outline>
    requires UniqueIds(folders) && forall f <- fs :: IsTrail(folders, trail + [f])
    decreases |folders| - |trail|, 1, |fs|
  {
    if fs == [] then []
    else [FolderOutline(fs[0], feeds, folders, trail)] + FolderOutlines(fs[1..], feeds, folders, trail)
  }

  function Tree(feeds: seq<Feed>, folders: seq<Folder>): seq<Outline>
    requires UniqueIds(folders)
  {
    FolderOutlines(ChildFolders(folders, None), feeds, folders, [])
    + FeedOutlines(FeedsIn(feeds, None))
  }

  lemma {:induction false} ChildFoldersConcat(a: seq<Folder>, b: seq<Folder>, parent: Option<Id>)
    ensures ChildFolders(a + b, parent) == ChildFolders(a, parent) + ChildFolders(b, parent)
  {
    if a == [] {
      assert a + b == b;
    } else {
      assert (a + b)[1..] == a[1..] + b;
      ChildFoldersConcat(a[1..], b, parent);
    }
  }

  lemma {:induction false} FeedsInConcat(a: seq<Feed>, b: seq<Feed>, folder: Option<Id>)
    ensures FeedsIn(a + b, folder) == FeedsIn(a, folder) + FeedsIn(b, folder)
  {
    if a == [] {
      assert a + b == b;
    } else {
      assert (a + b)[1..] == a[1..] + b;
      FeedsInConcat(a[1..], b, folder);
    }
  }

  lemma {:induction false} FeedOutlinesConcat(a: seq<Feed>, b: seq<Feed>)
    ensures FeedOutlines(a + b) == FeedOutlines(a) + FeedOutlines(b)
  {
    if a == [] {
      assert a + b == b;
    } else {
      assert (a + b)[1..] == a[1..] + b;
      FeedOutlinesConcat(a[1..], b);
    }
  }

  lemma {:induction false} FolderOutlinesSnoc(fs: seq<Folder>, f: Folder, feeds: seq<Feed>, folders: seq<Folder>, trail: seq<Folder>)
    requires UniqueIds(folders) && (forall g <- fs :: IsTrail(folders, trail + [g])) && IsTrail(folders, trail + [f])
    ensures forall g <- fs + [f] :: IsTrail(folders, trail + [g])
    ensures FolderOutlines(fs + [f], feeds, folders, trail)
         == FolderOutlines(fs, feeds, folders, trail) + [FolderOutline(f, feeds, folders, trail)]
  {
    if fs == [] {
      assert fs + [f] == [f] && [f][1..] == [];
      assert FolderOutlines([f], feeds, folders, trail) == [FolderOutline(f, feeds, folders, trail)] + FolderOutlines([], feeds, folders, trail);
    } else {
      assert (fs + [f])[1..] == fs[1..] + [f];
      FolderOutlinesSnoc(fs[1..], f, feeds, folders, trail);
    }
  }

  lemma ChildFoldersStep(folders: seq<Folder>, i: nat, parent: Option<Id>)
    requires i < |folders|
    ensures ChildFolders(folders[..i + 1], parent)
         == ChildFolders(folders[..i], parent) + (if folders[i].parentId == parent then [folders[i]] else [])
  {
    ChildFoldersConcat(folders[..i], [folders[i]], parent);
    assert folders[..i + 1] == folders[..i] + [folders[i]];
  }

  lemma FeedOutlinesStep(feeds: seq<Feed>, i: nat, folder: Option<Id>)
    requires i < |feeds|
    ensures FeedOutlines(FeedsIn(feeds[..i + 1], folder))
         == FeedOutlines(FeedsIn(feeds[..i], folder)) + (if feeds[i].folderId == folder then [FeedOutline(feeds[i])] else [])
  {
    FeedsInConcat(feeds[..i], [feeds[i]], folder);
    assert feeds[..i + 1] == feeds[..i] + [feeds[i]];
    FeedOutlinesConcat(FeedsIn(feeds[..i], folder), FeedsIn([feeds[i]], folder));
    OneFeedOutline(feeds[i], folder);
  }

  lemma OneFeedOutline(f: Feed, folder: Option<Id>)
    ensures FeedOutlines(FeedsIn([f], folder)) == if f.folderId == folder then [FeedOutline(f)] else []
  {
    assert [f][1..] == [];
  }

  lemma TrailExtends(folders: seq<Folder>, trail: seq<Folder>, f: Folder)
    requires IsTrail(folders, trail) && f in folders && f.parentId == Some(trail[|trail| - 1].id)
    ensures IsTrail(folders, trail + [f])
  {
    var longer := trail + [f];
    assert forall k :: 0 <= k < |trail| ==> longer[k] == trail[k];
  }

  lemma ChildTrails(folders: seq<Folder>, trail: seq<Folder>, f: Folder)
    requires IsTrail(folders, trail + [f])
    ensures forall c <- ChildFolders(folders, Some(f.id)) :: IsTrail(folders, trail + [f] + [c])
  {
    assert (trail + [f])[|trail|] == f;
    forall c | c in ChildFolders(folders, Some(f.id))
      ensures IsTrail(folders, trail + [f] + [c])
    {
      TrailExtends(folders, trail + [f], c);
    }
  }

  /** The exporter's loops: root folders first, then the feeds outside any folder. */
  method BuildOpmlTree(feeds: seq<Feed>, folders: seq<Folder>) returns (outlines: seq<Outline>)
    requires UniqueIds(folders)
    ensures outlines == Tree(feeds, folders)
  {
    outlines := [];
    ghost var done: seq<Folder> := [];
    for i := 0 to |folders|
      invariant done == ChildFolders(folders[..i], None)
      invariant forall f <- done :: IsTrail(folders, [] + [f])
      invariant outlines == FolderOutlines(done, feeds, folders, [])
    {
      ChildFoldersStep(folders, i, None);
      if folders[i].parentId.None? {
        var outline := BuildFolderOutline(folders[i], feeds, folders, []);
        FolderOutlinesSnoc(done, folders[i], feeds, folders, []);
        outlines, done := outlines + [outline], done + [folders[i]];
      }
    }
    assert folders[..|folders|] == folders;
    var filed := FeedLoop(feeds, None);
    outlines := outlines + filed;
  }

  method BuildFolderOutline(folder: Folder, feeds: seq<Feed>, folders: seq<Folder>, ghost trail: seq<Folder>)
    returns (outline: Outline)
    requires UniqueIds(folders) && IsTrail(folders, trail + [folder])
    ensures outline == FolderOutline(folder, feeds, folders, trail)
    decreases |folders| - |trail|
  {
    TrailFits(folders, trail + [folder]);
    ghost var here := trail + [folder];
    var children: seq<Outline> := [];
    ghost var done: seq<Folder> := [];
    for i := 0 to |folders|
      invariant done == ChildFolders(folders[..i], Some(folder.id))
      invariant forall f <- done :: IsTrail(folders, here + [f])
      invariant children == FolderOutlines(done, feeds, folders, here)
    {
      ChildFoldersStep(folders, i, Some(folder.id));
      if folders[i].parentId == Some(folder.id) {
        TrailExtends(folders, here, folders[i]);
        assert |here| == |trail| + 1 <= |folders|;
        var child := BuildFolderOutline(folders[i], feeds, folders, here);
        FolderOutlinesSnoc(done, folders[i], feeds, folders, here);
        children, done := children + [child], done + [folders[i]];
      }
    }
    assert folders[..|folders|] == folders;
    var filed := FeedLoop(feeds, Some(folder.id));
    outline := Outline(folder.name, Some(folder.name), None, None, None, children + filed);
  }

  method FeedLoop(feeds: seq<Feed>, folder: Option<Id>) returns (outlines: seq<Outline>)
    ensures outlines == FeedOutlines(FeedsIn(feeds, folder))
  {
    outlines := [];
    for i := 0 to |feeds|
      invariant outlines == FeedOutlines(FeedsIn(feeds[..i], folder))
    {
      FeedOutlinesStep(feeds, i, folder);
      if feeds[i].folderId == folder {
        outlines := outlines + [FeedOutline(feeds[i])];
      }
    }
    assert feeds[..|feeds|] == feeds;
  }

  // ----------------------------------------------------------------------
  // Import
  // ----------------------------------------------------------------------

  /** Files a feed outline: subscribe, leave, or move. */
  function PlaceFeed(s: Session, o: Outline, parent: Option<Id>): Session
    requires o.IsFeed()
  {
    match FeedByUrl(s.feeds, o.xmlUrl.value)
    case Some(f) =>
      if f.folderId == parent then s.(stats := s.stats.(feedsExisting := s.stats.feedsExisting + 1))
      else s.(feeds := MoveFeed(s.feeds, f.id, parent), stats := s.stats.(feedsMoved := s.stats.feedsMoved + 1))
    case None =>
      var f := Feed(s.nextFeed, o.DisplayName(), o.xmlUrl.value, o.htmlUrl, parent);
      s.(feeds := s.feeds + [f], nextFeed := s.nextFeed + 1, stats := s.stats.(feedsAdded := s.stats.feedsAdded + 1))
  }

  function GetOrCreate(t: Table, name: string, parent: Option<Id>, now: int): (Table, Folder) {
    match FolderByName(t.folders, name, parent)
    case Some(f) => (t, f)
    case None =>
      var f := Folder(t.next, name, parent, now, now);
      (Table(t.folders + [f], t.next + 1), f)
  }

  function CountFolder(stats: Stats, f: Folder): Stats {
    if f.createdAt == f.updatedAt then stats.(foldersCreated := stats.foldersCreated + 1)
    else stats.(foldersExisting := stats.foldersExisting + 1)
  }

  function ImportOutline(s: Session, o: Outline, parent: Option<Id>, now: int): Session
    decreases o, 1
  {
    if o.IsFeed() then PlaceFeed(s, o, parent)
    else if o.DisplayName() == "" then Import(s, o.children, parent, now)
    else
      var (table, f) := GetOrCreate(s.table, o.DisplayName(), parent, now);
      Import(s.(table := table, stats := CountFolder(s.stats, f)), o.children, Some(f.id), now)
  }

  function Import(s: Session, outlines: seq<Outline>, parent: Option<Id>, now: int): Session
    decreases outlines, 0
  {
    if outlines == [] then s
    else Import(ImportOutline(s, outlines[0], parent, now), outlines[1..], parent, now)
  }

  /** The library's tables and the import's counters, updated in place. */
  class Importer {
    var folders: seq<Folder>
    var nextFolder: Id
    var feeds: seq<Feed>
    var nextFeed: Id
    var stats: Stats

    ghost function View(): Session
      reads this
    {
      Session(Table(folders, nextFolder), feeds, nextFeed, stats)
    }

    constructor (session: Session)
      ensures View() == session
    {
      folders, nextFolder := session.table.folders, session.table.next;
      feeds, nextFeed := session.feeds, session.nextFeed;
      stats := session.stats;
    }

    method ImportOutlines(outlines: seq<Outline>, parentFolderId: Option<Id>, now: int)
      modifies this
      ensures View() == Import(old(View()), outlines, parentFolderId, now)
      decreases outlines
    {
      for i := 0 to |outlines|
        invariant Import(View(), outlines[i..], parentFolderId, now) == Import(old(View()), outlines, parentFolderId, now)
      {
        var outline := outlines[i];
        assert outlines[i..][1..] == outlines[i + 1..];
        ghost var before := View();
        if outline.IsFeed() {
          var existing := FeedByUrl(feeds, outline.xmlUrl.value);
          if existing.Some? {
            if existing.value.folderId == parentFolderId {
              stats := stats.(feedsExisting := stats.feedsExisting + 1);
            } else {
              feeds := MoveFeed(feeds, existing.value.id, parentFolderId);
              stats := stats.(feedsMoved := stats.feedsMoved + 1);
            }
          } else {
            var feed := Feed(nextFeed, outline.DisplayName(), outline.xmlUrl.value, outline.htmlUrl, parentFolderId);
            feeds, nextFeed := feeds + [feed], nextFeed + 1;
            stats := stats.(feedsAdded := stats.feedsAdded + 1);
          }
          assert View() == PlaceFeed(before, outline, parentFolderId);
        } else if outline.DisplayName() == "" {
          ImportOutlines(outline.children, parentFolderId, now);
        } else {
          var folder := GetOrCreateFolder(outline.DisplayName(), parentFolderId, now);
          if folder.createdAt == folder.updatedAt {
            stats := stats.(foldersCreated := stats.foldersCreated + 1);
          } else {
            stats := stats.(foldersExisting := stats.foldersExisting + 1);
          }
          ImportOutlines(outline.children, Some(folder.id), now);
        }
        assert View() == ImportOutline(before, outline, parentFolderId, now);
      }
    }

    method GetOrCreateFolder(name: string, parentId: Option<Id>, now: int) returns (folder: Folder)
      modifies this`folders, this`nextFolder
      ensures (Table(folders, nextFolder), folder) == GetOrCreate(old(Table(folders, nextFolder)), name, parentId, now)
    {
      var existing := FolderByName(folders, name, parentId);
      if existing.Some? { return existing.value; }
      folder := Folder(nextFolder, name, parentId, now, now);
      folders, nextFolder := folders + [folder], nextFolder + 1;
    }
  }
}
