/**
 * The album selector of the older Electron front end. It follows the same
 * walk, filter and sort as the application's selector, keeps the chosen
 * folders in a field, opens its window before scanning, and announces an
 * album during the scan only while the list is shorter than the window end.
 */
module LegacySelection {
  import opened Wrappers
  import opened Folders
  import opened Albums
  import opened Sorting

  datatype FilterType = NameFilter | OtherFilter
  datatype AlbumFilter = AlbumFilter(filterType: FilterType, value: string)

  /**
   * From the reset state, the scan announces one album fewer than the first
   * page holds: the last cover of a full first page only arrives with the
   * next page request.
   */
  lemma ScanMissesLastSlot(found: seq<Album>, perPage: nat)
    requires perPage > 0 && |found| >= perPage
    ensures |Announced(found, 0, perPage - 1)| == perPage - 1
    ensures Announced(found, 0, perPage - 1) + [found[perPage - 1]] == Present(PageSlots(found, 0, perPage))
  {
    PageShowsWindow(found, 0, perPage);
    assert found[0..perPage] == found[0..perPage - 1] + [found[perPage - 1]];
  }

  class AlbumSelector {
    const coversPerPage: nat
    var start: int
    var end: int
    /** The folders chosen in the dialog. */
    var folders: seq<Path>
    var albums: seq<Album>
    var allAlbums: seq<Album>
    /** Everything sent to the selector window. */
    var sent: seq<Notice>

    ghost predicate Valid()
      reads this
    {
      coversPerPage > 0 && end == start + coversPerPage && IsSubsequence(albums, allAlbums)
    }

    constructor(coversPerPage: nat)
      requires coversPerPage > 0
      ensures Valid()
      ensures this.coversPerPage == coversPerPage && start == 0 && end == coversPerPage
      ensures folders == [] && albums == [] && allAlbums == [] && sent == []
    {
      this.coversPerPage := coversPerPage;
      start := 0;
      end := coversPerPage;
      folders := [];
      albums := [];
      allAlbums := [];
      sent := [];
    }

    function CreatePageInfo(): PageInfo
      reads this
      requires coversPerPage > 0
    {
      PageInfo(PageCount(|albums|, coversPerPage))
    }

    method NotifyPageInfo()
      requires Valid()
      modifies this
      ensures Valid()
      ensures sent == old(sent) + [PageInfoNotice(CreatePageInfo())]
      ensures start == old(start) && end == old(end) && folders == old(folders)
      ensures albums == old(albums) && allAlbums == old(allAlbums)
    {
      sent := sent + [PageInfoNotice(CreatePageInfo())];
    }

    /** `#processAlbum`: keep an album with pictures; announce it only while the list stays shorter than the window end. */
    method ProcessAlbum(album: Album)
      modifies this
      ensures start == old(start) && end == old(end) && folders == old(folders) && allAlbums == old(allAlbums)
      ensures albums == old(albums) + (if album.count > 0 then [album] else [])
      ensures sent == old(sent) + (if album.count > 0 && |old(albums)| < end - 1 then [AlbumNotice(Some(album))] else [])
    {
      if album.count > 0 {
        albums := albums + [album];
        if |albums| < end {
          sent := sent + [AlbumNotice(Some(album))];
        }
      }
    }

    /** The walk of `#processFolders`: every folder visited in order, its album kept and announced by `#processAlbum`. */
    method ScanFolders(fs: FileSystem, roots: seq<Path>)
      requires WellFormed(fs) && Listed(fs, roots)
      modifies this
      ensures start == old(start) && end == old(end) && folders == old(folders) && allAlbums == old(allAlbums)
      ensures albums == old(albums) + Discovered(fs, Walk(fs, roots))
      ensures sent == old(sent) + AlbumNotices(Announced(albums, |old(albums)|, end - 1))
    {
      var toProcess := roots;
      ghost var visited: seq<Path> := [];
      ghost var kept := albums;
      ghost var notices := sent;
      ghost var limit := end - 1;
      while toProcess != []
        invariant WalkSplit(fs, roots, visited, toProcess)
        invariant start == old(start) && end == old(end) && folders == old(folders) && allAlbums == old(allAlbums)
        invariant |kept| <= |albums|
        invariant albums == kept + Discovered(fs, visited)
        invariant sent == notices + AlbumNotices(Announced(albums, |kept|, limit))
        decreases QueueSize(fs, toProcess)
      {
        var folder := toProcess[0];
        WalkStep(fs, roots, visited, toProcess);
        ghost var albums0, sent0 := albums, sent;
        ProcessAlbum(CreateAlbum(fs, folder));
        ScanStep(fs, kept, notices, visited, folder, limit, albums0, sent0, albums, sent);
        visited := visited + [folder];
        toProcess := toProcess[1..] + SubFolders(fs, folder);
      }
      assert Walk(fs, roots) == visited;
      assert kept == old(albums) && notices == old(sent);
      assert limit == end - 1;
    }

    /** `#processFolders`: scan the given folders; afterwards every album found is on show. */
    method ProcessFolders(fs: FileSystem, roots: seq<Path>)
      requires Valid() && WellFormed(fs) && Listed(fs, roots)
      modifies this
      ensures Valid()
      ensures start == old(start) && end == old(end) && folders == old(folders)
      ensures albums == old(albums) + Discovered(fs, Walk(fs, roots))
      ensures allAlbums == albums
      ensures sent == old(sent) + AlbumNotices(Announced(albums, |old(albums)|, end - 1))
    {
      ScanFolders(fs, roots);
      ghost var scanned, notified := albums, sent;
      allAlbums := albums;
      assert albums == scanned && sent == notified;
      SubsequenceReflexive(albums);
    }

    /** `#loadFolders`: scan the stored folders, then report the page count. */
    method LoadFolders(fs: FileSystem)
      requires Valid() && WellFormed(fs) && Listed(fs, folders)
      modifies this
      ensures Valid()
      ensures start == old(start) && end == old(end) && folders == old(folders) && albums == allAlbums
      ensures albums == old(albums) + Discovered(fs, Walk(fs, folders))
      ensures sent == old(sent) + AlbumNotices(Announced(albums, |old(albums)|, end - 1)) + [PageInfoNotice(CreatePageInfo())]
    {
      ProcessFolders(fs, folders);
      NotifyPageInfo();
    }

    /** `#loadWindow`: with at least one folder chosen, remember the folders and scan them; otherwise do nothing. */
    method LoadWindow(fs: FileSystem, chosen: seq<Path>)
      requires Valid() && WellFormed(fs) && Listed(fs, chosen)
      modifies this
      ensures Valid()
      ensures start == old(start) && end == old(end)
      ensures chosen == [] ==>
        folders == old(folders) && albums == old(albums) && allAlbums == old(allAlbums) && sent == old(sent)
      ensures chosen != [] ==>
        folders == chosen && albums == allAlbums &&
        albums == old(albums) + Discovered(fs, Walk(fs, chosen)) &&
        sent == old(sent) + AlbumNotices(Announced(albums, |old(albums)|, end - 1)) + [PageInfoNotice(CreatePageInfo())]
    {
      if |chosen| > 0 {
        folders := chosen;
        LoadFolders(fs);
      }
    }

    /** The part of `openWindow` that runs before the dialog opens. */
    method ResetForDialog()
      requires Valid()
      modifies this
      ensures Valid()
      ensures albums == [] && start == 0 && end == coversPerPage && folders == []
      ensures allAlbums == old(allAlbums) && sent == old(sent)
    {
      albums := [];
      start := 0;
      end := coversPerPage;
      folders := [];
    }

    /**
     * `openWindow`, with `chosen` the folders picked in the dialog. A full
     * first page is announced without its last cover.
     */
    method OpenWindow(fs: FileSystem, chosen: seq<Path>)
      requires Valid() && WellFormed(fs) && Listed(fs, chosen)
      modifies this
      ensures Valid()
      ensures start == 0 && end == coversPerPage
      ensures chosen == [] ==> albums == [] && folders == [] && allAlbums == old(allAlbums) && sent == old(sent)
      ensures chosen != [] ==>
        folders == chosen && albums == allAlbums && albums == Discovered(fs, Walk(fs, chosen)) &&
        sent == old(sent) + AlbumNotices(Announced(albums, 0, coversPerPage - 1)) + [PageInfoNotice(CreatePageInfo())]
    {
      ResetForDialog();
      LoadWindow(fs, chosen);
      if chosen != [] {
        assert [] + Discovered(fs, Walk(fs, chosen)) == Discovered(fs, Walk(fs, chosen));
      }
    }

    /** `loadPage`: one notice per index of the page's window, `undefined` past the end of the list. */
    method LoadPage(page: int)
      requires Valid()
      modifies this
      ensures Valid()
      ensures start == page * coversPerPage && end == start + coversPerPage
      ensures folders == old(folders) && albums == old(albums) && allAlbums == old(allAlbums)
      ensures sent == old(sent) + PageSlots(albums, start, end)
    {
      start := page * coversPerPage;
      end := start + coversPerPage;
      var i := start;
      while i < end
        invariant start <= i <= end
        invariant start == page * coversPerPage && end == start + coversPerPage
        invariant folders == old(folders) && albums == old(albums) && allAlbums == old(allAlbums)
        invariant sent == old(sent) + PageSlots(albums, start, i)
      {
        PageSlotsExtend(albums, start, i);
        sent := sent + [AlbumNotice(At(albums, i))];
        i := i + 1;
      }
    }

    method FilterByName(name: string)
      requires Valid()
      modifies this
      ensures Valid()
      ensures albums == NameMatches(allAlbums, name) && allAlbums == old(allAlbums) && folders == old(folders)
      ensures start == 0 && end == coversPerPage
      ensures sent == old(sent) + [PageInfoNotice(CreatePageInfo())] + PageSlots(albums, 0, coversPerPage)
    {
      if |name| == 0 {
        albums := allAlbums;
        EmptyNameKeepsAll(allAlbums);
      } else {
        albums := NameMatches(allAlbums, name);
      }
      NotifyPageInfo();
      LoadPage(0);
    }

    method FilterAlbums(filter: AlbumFilter)
      requires Valid()
      modifies this
      ensures Valid()
      ensures allAlbums == old(allAlbums) && folders == old(folders)
      ensures filter.filterType == OtherFilter ==>
        albums == old(albums) && start == old(start) && end == old(end) && sent == old(sent)
      ensures filter.filterType == NameFilter ==>
        albums == NameMatches(allAlbums, filter.value) && start == 0 && end == coversPerPage &&
        sent == old(sent) + [PageInfoNotice(CreatePageInfo())] + PageSlots(albums, 0, coversPerPage)
    {
      if filter.filterType == NameFilter {
        FilterByName(filter.value);
      }
    }

    /** `sortAlbums`, with `None` standing for an order that is not an `AlbumSorter` constant. */
    method SortAlbums(order: Option<AlbumSorter>)
      requires Valid()
      modifies this
      ensures Valid()
      ensures albums == Sort(LegacyComparatorFor(order), old(albums))
      ensures allAlbums == Sort(LegacyComparatorFor(order), old(allAlbums))
      ensures folders == old(folders) && start == 0 && end == coversPerPage
      ensures sent == old(sent) + [PageInfoNotice(CreatePageInfo())] + PageSlots(albums, 0, coversPerPage)
    {
      var sorter := LegacyComparatorFor(order);
      SortKeepsSubsequence(sorter, albums, allAlbums);
      albums := Sort(sorter, albums);
      allAlbums := Sort(sorter, allAlbums);
      NotifyPageInfo();
      LoadPage(0);
    }
  }
}
