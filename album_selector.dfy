/**
 * The album selector of the application (`AlbumSelector` in the services of
 * the app): it walks the chosen folders breadth first, keeps the albums that
 * hold pictures, pages, filters and sorts them, and notifies its listeners.
 * Both listeners are modelled as one log of notices, in sending order.
 */
module AlbumSelection {
  import opened Wrappers
  import opened Folders
  import opened Albums
  import opened Sorting

  /** `COVERS_PER_PAGE`: the page size the selector is created with. */
  const COVERS_PER_PAGE: nat := 20

  /** `FilterType`: only the name filter has an effect. */
  datatype FilterType = NameFilter | OtherFilter
  datatype AlbumFilter = AlbumFilter(filterType: FilterType, value: string)

  /** Whether `onLoad` runs after the dialog: not when no folder was chosen (`NOTHING_TO_LOAD_ERROR`). */
  datatype LoadOutcome = Loaded | NothingToLoad

  /** The page a scan fills as it goes: the albums announced from the reset state are exactly what the first page shows. */
  lemma ScanMatchesFirstPage(found: seq<Album>, perPage: nat)
    requires perPage > 0
    ensures Announced(found, 0, perPage) == Present(PageSlots(found, 0, perPage))
  {
    PageShowsWindow(found, 0, perPage);
  }

  class AlbumSelector {
    const coversPerPage: nat
    var start: int
    var end: int
    /** The albums on show: all of them, a filtered part, sorted or not. */
    var albums: seq<Album>
    /** Every album found by the last scan. */
    var allAlbums: seq<Album>
    /** Everything sent to the album and page-information listeners. */
    var sent: seq<Notice>

    ghost predicate Valid()
      reads this
    {
      coversPerPage > 0 && end == start + coversPerPage && IsSubsequence(albums, allAlbums)
    }

    constructor(coversPerPage: nat)
      requires coversPerPage > 0
      ensures Valid()
      ensures this.coversPerPage == coversPerPage && start == 0 && end == coversPerPage
      ensures albums == [] && allAlbums == [] && sent == []
    {
      this.coversPerPage := coversPerPage;
      start := 0;
      end := coversPerPage;
      albums := [];
      allAlbums := [];
      sent := [];
    }

    /** `#createPageInfo`: as many pages as the albums on show fill. */
    function CreatePageInfo(): PageInfo
      reads this
      requires coversPerPage > 0
    {
      PageInfo(PageCount(|albums|, coversPerPage))
    }

    /** `getPageInfo`: the fewest pages that hold the albums on show; none when there are none. */
    method GetPageInfo() returns (info: PageInfo)
      requires Valid()
      ensures info.count * coversPerPage >= |albums|
      ensures info.count > 0 ==> (info.count - 1) * coversPerPage < |albums|
      ensures info.count == 0 <==> albums == []
    {
      info := CreatePageInfo();
    }

    method NotifyPageInfo()
      requires Valid()
      modifies this
      ensures Valid()
      ensures sent == old(sent) + [PageInfoNotice(CreatePageInfo())]
      ensures start == old(start) && end == old(end) && albums == old(albums) && allAlbums == old(allAlbums)
    {
      sent := sent + [PageInfoNotice(CreatePageInfo())];
    }

    /** `#processAlbum`: keep an album with pictures; announce it while it lands inside the current window. */
    method ProcessAlbum(album: Album)
      modifies this
      ensures start == old(start) && end == old(end) && allAlbums == old(allAlbums)
      ensures albums == old(albums) + (if album.count > 0 then [album] else [])
      ensures sent == old(sent) + (if album.count > 0 && |old(albums)| < end then [AlbumNotice(Some(album))] else [])
    {
      if album.count > 0 {
        albums := albums + [album];
        if |albums| <= end {
          sent := sent + [AlbumNotice(Some(album))];
        }
      }
    }

    /** The walk of `#processFolders`: every folder visited in order, its album kept and announced by `#processAlbum`. */
    method ScanFolders(fs: FileSystem, folders: seq<Path>)
      requires WellFormed(fs) && Listed(fs, folders)
      modifies this
      ensures start == old(start) && end == old(end) && allAlbums == old(allAlbums)
      ensures albums == old(albums) + Discovered(fs, Walk(fs, folders))
      ensures sent == old(sent) + AlbumNotices(Announced(albums, |old(albums)|, end))
    {
      var toProcess := folders;
      ghost var visited: seq<Path> := [];
      ghost var kept := albums;
      ghost var notices := sent;
      while toProcess != []
        invariant WalkSplit(fs, folders, visited, toProcess)
        invariant start == old(start) && end == old(end) && allAlbums == old(allAlbums)
        invariant |kept| <= |albums|
        invariant albums == kept + Discovered(fs, visited)
        invariant sent == notices + AlbumNotices(Announced(albums, |kept|, end))
        decreases QueueSize(fs, toProcess)
      {
        var folder := toProcess[0];
        WalkStep(fs, folders, visited, toProcess);
        ghost var albums0, sent0 := albums, sent;
        ProcessAlbum(CreateAlbum(fs, folder));
        ScanStep(fs, kept, notices, visited, folder, end, albums0, sent0, albums, sent);
        visited := visited + [folder];
        toProcess := toProcess[1..] + SubFolders(fs, folder);
      }
      assert Walk(fs, folders) == visited;
      assert kept == old(albums) && notices == old(sent);
    }

    /**
     * `#processFolders`: visit the folders breadth first, a folder's
     * sub-folders queued after everything already waiting; afterwards every
     * album on show is the full list.
     */
    method ProcessFolders(fs: FileSystem, folders: seq<Path>)
      requires Valid() && WellFormed(fs) && Listed(fs, folders)
      modifies this
      ensures Valid()
      ensures start == old(start) && end == old(end)
      ensures albums == old(albums) + Discovered(fs, Walk(fs, folders))
      ensures allAlbums == albums
      ensures sent == old(sent) + AlbumNotices(Announced(albums, |old(albums)|, end))
    {
      ScanFolders(fs, folders);
      ghost var scanned, notified := albums, sent;
      allAlbums := albums;
      assert albums == scanned && sent == notified;
      SubsequenceReflexive(albums);
    }

    /** `#loadFolders`: scan the chosen folders and report the page count, or refuse an empty choice. */
    method LoadFolders(fs: FileSystem, folders: seq<Path>) returns (outcome: LoadOutcome)
      requires Valid() && WellFormed(fs) && Listed(fs, folders)
      modifies this
      ensures Valid()
      ensures outcome == Loaded <==> folders != []
      ensures outcome == NothingToLoad ==>
        start == old(start) && end == old(end) && albums == old(albums) && allAlbums == old(allAlbums) && sent == old(sent)
      ensures outcome == Loaded ==>
        start == old(start) && end == old(end) && albums == allAlbums &&
        albums == old(albums) + Discovered(fs, Walk(fs, folders)) &&
        sent == old(sent) + AlbumNotices(Announced(albums, |old(albums)|, end)) + [PageInfoNotice(CreatePageInfo())]
    {
      if |folders| > 0 {
        ProcessFolders(fs, folders);
        NotifyPageInfo();
        outcome := Loaded;
      } else {
        outcome := NothingToLoad;
      }
    }

    /** The part of `selectRootFolder` that runs before the dialog opens. */
    method ResetForDialog()
      requires Valid()
      modifies this
      ensures Valid()
      ensures albums == [] && start == 0 && end == coversPerPage
      ensures allAlbums == old(allAlbums) && sent == old(sent)
    {
      albums := [];
      start := 0;
      end := coversPerPage;
    }

    /**
     * `selectRootFolder`, with `chosen` the folders picked in the dialog:
     * the albums of the chosen trees in visit order; the first page announced
     * as the scan finds it.
     */
    method SelectRootFolder(fs: FileSystem, chosen: seq<Path>) returns (outcome: LoadOutcome)
      requires Valid() && WellFormed(fs) && Listed(fs, chosen)
      modifies this
      ensures Valid()
      ensures start == 0 && end == coversPerPage
      ensures outcome == Loaded <==> chosen != []
      ensures outcome == NothingToLoad ==> albums == [] && allAlbums == old(allAlbums) && sent == old(sent)
      ensures outcome == Loaded ==>
        albums == allAlbums && albums == Discovered(fs, Walk(fs, chosen)) &&
        sent == old(sent) + AlbumNotices(Present(PageSlots(albums, 0, coversPerPage))) + [PageInfoNotice(CreatePageInfo())]
    {
      ResetForDialog();
      outcome := LoadFolders(fs, chosen);
      if outcome == Loaded {
        ScanMatchesFirstPage(albums, coversPerPage);
        assert [] + Discovered(fs, Walk(fs, chosen)) == Discovered(fs, Walk(fs, chosen));
      }
    }

    /** `loadPage`: one notice per index of the page's window, `undefined` past the end of the list. */
    method LoadPage(page: int)
      requires Valid()
      modifies this
      ensures Valid()
      ensures start == page * coversPerPage && end == start + coversPerPage
      ensures albums == old(albums) && allAlbums == old(allAlbums)
      ensures sent == old(sent) + PageSlots(albums, start, end)
    {
      start := page * coversPerPage;
      end := start + coversPerPage;
      var i := start;
      while i < end
        invariant start <= i <= end
        invariant start == page * coversPerPage && end == start + coversPerPage
        invariant albums == old(albums) && allAlbums == old(allAlbums)
        invariant sent == old(sent) + PageSlots(albums, start, i)
      {
        PageSlotsExtend(albums, start, i);
        sent := sent + [AlbumNotice(At(albums, i))];
        i := i + 1;
      }
    }

    /** `#filterByName`: show the albums whose name contains `name` (all of them for an empty name), from the first page. */
    method FilterByName(name: string)
      requires Valid()
      modifies this
      ensures Valid()
      ensures albums == NameMatches(allAlbums, name) && allAlbums == old(allAlbums)
      ensures start == 0 && end == coversPerPage
      ensures sent == old(sent) + [PageInfoNotice(CreatePageInfo())] + PageSlots(albums, 0, coversPerPage)
    {
      if |name| == 0 {
        albums := allAlbums;
        EmptyNameKeepsAll(allAlbums);
      } else {
        albums := NameMatches(allAlbums, name);
      }
      NotifyPageInfo();
      LoadPage(0);
    }

    /** `filterAlbums`: only a name filter changes anything. */
    method FilterAlbums(filter: AlbumFilter)
      requires Valid()
      modifies this
      ensures Valid()
      ensures allAlbums == old(allAlbums)
      ensures filter.filterType == OtherFilter ==>
        albums == old(albums) && start == old(start) && end == old(end) && sent == old(sent)
      ensures filter.filterType == NameFilter ==>
        albums == NameMatches(allAlbums, filter.value) && start == 0 && end == coversPerPage &&
        sent == old(sent) + [PageInfoNotice(CreatePageInfo())] + PageSlots(albums, 0, coversPerPage)
    {
      if filter.filterType == NameFilter {
        FilterByName(filter.value);
      }
    }

    /** `sortAlbums`: sort the albums on show and the full list by the named order, then show the first page. */
    method SortAlbums(order: string)
      requires Valid()
      modifies this
      ensures Valid()
      ensures albums == Sort(ComparatorFor(order), old(albums))
      ensures allAlbums == Sort(ComparatorFor(order), old(allAlbums))
      ensures start == 0 && end == coversPerPage
      ensures sent == old(sent) + [PageInfoNotice(CreatePageInfo())] + PageSlots(albums, 0, coversPerPage)
    {
      var sorter := ComparatorFor(order);
      SortKeepsSubsequence(sorter, albums, allAlbums);
      albums := Sort(sorter, albums);
      allAlbums := Sort(sorter, allAlbums);
      NotifyPageInfo();
      LoadPage(0);
    }
  }
}
