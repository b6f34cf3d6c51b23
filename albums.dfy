/**
 * Album records, how one folder becomes an album, the page arithmetic, the
 * notifications the selector sends, and the name filter.
 */
module Albums {
  import opened Wrappers
  import opened Text
  import opened Sequences
  import opened Controller
  import opened Folders

  /** The cover: the override from the album properties, else the first picture, else nothing. */
  datatype Cover = Override(path: Path) | FirstPicture(file: FileEntry) | NoCover

  datatype Album = Album(cover: Cover, count: nat, folder: Path, created: int, name: string)

  /** `files.filter(isImage)`. */
  function Pictures(files: seq<FileEntry>): (pictures: seq<FileEntry>)
    ensures |pictures| <= |files|
    ensures forall f :: f in pictures <==> f in files && IsImage(f)
  {
    if files == [] then []
    else (if IsImage(files[0]) then [files[0]] else []) + Pictures(files[1..])
  }

  /** Each image entry is kept as often as it is listed, and every other entry is dropped. */
  lemma {:induction false} PicturesExactly(files: seq<FileEntry>, f: FileEntry)
    ensures multiset(Pictures(files))[f] == if IsImage(f) then multiset(files)[f] else 0
  {
    if files != [] {
      PicturesExactly(files[1..], f);
      ConsSplit(files);
    }
  }

  /** The filter keeps listing order: the pictures of a concatenation are the pictures of each part, in turn. */
  lemma {:induction false} PicturesAppend(a: seq<FileEntry>, b: seq<FileEntry>)
    ensures Pictures(a + b) == Pictures(a) + Pictures(b)
  {
    if a == [] {
      assert [] + b == b;
    } else {
      PicturesAppend(a[1..], b);
      TailAppend(a, b);
      Assoc(if IsImage(a[0]) then [a[0]] else [], Pictures(a[1..]), Pictures(b));
    }
  }

  /** Only images before `k`. */
  predicate NoImageBefore(files: seq<FileEntry>, k: int)
    requires k <= |files|
  {
    forall j :: 0 <= j < k ==> !IsImage(files[j])
  }

  /** The first picture is the first image entry in listing order. */
  lemma {:induction false} FirstPictureIsFirstImage(files: seq<FileEntry>)
    requires Pictures(files) != []
    ensures exists k :: 0 <= k < |files| && files[k] == Pictures(files)[0] && IsImage(files[k]) && NoImageBefore(files, k)
  {
    if !IsImage(files[0]) {
      FirstPictureIsFirstImage(files[1..]);
      var k :| 0 <= k < |files[1..]| && files[1..][k] == Pictures(files[1..])[0] && IsImage(files[1..][k])
               && NoImageBefore(files[1..], k);
      NoImageShift(files, k);
      assert files[k + 1] == Pictures(files)[0];
    } else {
      assert files[0] == Pictures(files)[0];
    }
  }

  lemma NoImageShift(files: seq<FileEntry>, k: nat)
    requires k < |files| - 1 && !IsImage(files[0]) && NoImageBefore(files[1..], k)
    ensures NoImageBefore(files, k + 1)
  {
    forall j | 0 <= j < k + 1 ensures !IsImage(files[j]) {
      if j > 0 { assert files[j] == files[1..][j - 1]; }
    }
  }

  /** `#computeProperties(folder, pictureFiles).cover`. */
  function CoverFor(coverOverride: Option<Path>, pictures: seq<FileEntry>): Cover
  {
    match coverOverride
    case Some(p) => Override(p)
    case None => if pictures == [] then NoCover else FirstPicture(pictures[0])
  }

  /** `#createAlbum(path.basename(folder), folder)`. */
  function CreateAlbum(fs: FileSystem, folder: Path): Album
    requires folder in fs
  {
    var pictures := Pictures(fs[folder].files);
    Album(CoverFor(fs[folder].coverOverride, pictures), |pictures|, folder, fs[folder].created, Basename(folder))
  }

  /**
   * The album of a folder is named after the folder and carries its creation
   * time; it has a positive count exactly when the folder directly holds a
   * picture; without an override its cover is the first picture in listing
   * order.
   */
  lemma AlbumDescribesFolder(fs: FileSystem, folder: Path)
    requires folder in fs
    ensures CreateAlbum(fs, folder).folder == folder && CreateAlbum(fs, folder).name == Basename(folder)
    ensures CreateAlbum(fs, folder).created == fs[folder].created
    ensures CreateAlbum(fs, folder).count > 0 <==> exists f :: f in fs[folder].files && IsImage(f)
    ensures fs[folder].coverOverride.Some? ==> CreateAlbum(fs, folder).cover == Override(fs[folder].coverOverride.value)
    ensures fs[folder].coverOverride.None? && CreateAlbum(fs, folder).count > 0 ==>
      exists k :: 0 <= k < |fs[folder].files| && CreateAlbum(fs, folder).cover == FirstPicture(fs[folder].files[k])
                  && IsImage(fs[folder].files[k]) && NoImageBefore(fs[folder].files, k)
  {
    var pictures := Pictures(fs[folder].files);
    if pictures != [] {
      assert pictures[0] in pictures;
      FirstPictureIsFirstImage(fs[folder].files);
    }
  }

  /** The albums `#processAlbum` keeps while the walk visits `paths`: those with at least one picture, in visit order. */
  function Discovered(fs: FileSystem, paths: seq<Path>): (albums: seq<Album>)
    requires Listed(fs, paths)
    ensures |albums| <= |paths|
    ensures forall a :: a in albums ==> a.count > 0
  {
    if paths == [] then []
    else
      var album := CreateAlbum(fs, paths[0]);
      (if album.count > 0 then [album] else []) + Discovered(fs, paths[1..])
  }

  lemma {:induction false} DiscoveredAppend(fs: FileSystem, a: seq<Path>, b: seq<Path>)
    requires Listed(fs, a) && Listed(fs, b)
    ensures Listed(fs, a + b)
    ensures Discovered(fs, a + b) == Discovered(fs, a) + Discovered(fs, b)
  {
    ListedAppend(fs, a, b);
    if a == [] {
      assert a + b == b;
    } else {
      TailAppend(a, b);
      assert (a + b)[0] == a[0];
      DiscoveredAppend(fs, a[1..], b);
      var album := CreateAlbum(fs, a[0]);
      var head := if album.count > 0 then [album] else [];
      assert Discovered(fs, a + b) == head + Discovered(fs, a[1..] + b);
      Assoc(head, Discovered(fs, a[1..]), Discovered(fs, b));
    }
  }

  /** An album is discovered exactly when it is the album of a visited folder holding a picture. */
  lemma {:induction false} DiscoveredExactly(fs: FileSystem, paths: seq<Path>, album: Album)
    requires Listed(fs, paths)
    ensures album in Discovered(fs, paths) <==>
      exists i :: 0 <= i < |paths| && album == CreateAlbum(fs, paths[i]) && album.count > 0
  {
    if paths != [] {
      DiscoveredExactly(fs, paths[1..], album);
      if exists i :: 0 <= i < |paths| && album == CreateAlbum(fs, paths[i]) && album.count > 0 {
        var i :| 0 <= i < |paths| && album == CreateAlbum(fs, paths[i]) && album.count > 0;
        if i > 0 { assert paths[1..][i - 1] == paths[i]; }
      }
      if exists i :: 0 <= i < |paths[1..]| && album == CreateAlbum(fs, paths[1..][i]) && album.count > 0 {
        var i :| 0 <= i < |paths[1..]| && album == CreateAlbum(fs, paths[1..][i]) && album.count > 0;
        assert paths[i + 1] == paths[1..][i];
      }
    }
  }

  datatype PageInfo = PageInfo(count: nat)

  /** `Math.ceil(n / perPage)`: the fewest pages of `perPage` albums that hold `n` albums. */
  function PageCount(n: nat, perPage: nat): (pages: nat)
    requires perPage > 0
    ensures pages * perPage >= n
    ensures pages > 0 ==> (pages - 1) * perPage < n
    ensures pages == 0 <==> n == 0
  {
    var pages := (n + perPage - 1) / perPage;
    assert pages * perPage + (n + perPage - 1) % perPage == n + perPage - 1;
    pages
  }

  /** What a listener receives: an album (or `undefined`, read past the end of the list), or page information. */
  datatype Notice = AlbumNotice(album: Option<Album>) | PageInfoNotice(info: PageInfo)

  /** `albums[i]` in JavaScript: `undefined` outside the list. */
  function At(albums: seq<Album>, i: int): Option<Album>
  {
    if 0 <= i < |albums| then Some(albums[i]) else None
  }

  /** The album notices `loadPage` sends for the window `[start, end)`, one per index. */
  function PageSlots(albums: seq<Album>, start: int, end: int): (notices: seq<Notice>)
    ensures |notices| == if start < end then end - start else 0
    ensures forall k :: 0 <= k < |notices| ==> notices[k] == AlbumNotice(At(albums, start + k))
    decreases end - start
  {
    if start >= end then [] else [AlbumNotice(At(albums, start))] + PageSlots(albums, start + 1, end)
  }

  /** One notice per album, in order. */
  function AlbumNotices(albums: seq<Album>): (notices: seq<Notice>)
    ensures |notices| == |albums|
    ensures forall k :: 0 <= k < |albums| ==> notices[k] == AlbumNotice(Some(albums[k]))
  {
    if albums == [] then [] else [AlbumNotice(Some(albums[0]))] + AlbumNotices(albums[1..])
  }

  lemma {:induction false} AlbumNoticesAppend(a: seq<Album>, b: seq<Album>)
    ensures AlbumNotices(a + b) == AlbumNotices(a) + AlbumNotices(b)
  {
    var whole, parts := AlbumNotices(a + b), AlbumNotices(a) + AlbumNotices(b);
    assert |whole| == |parts|;
    forall k | 0 <= k < |whole| ensures whole[k] == parts[k] {
      if k < |a| {
        assert (a + b)[k] == a[k];
      } else {
        assert (a + b)[k] == b[k - |a|];
      }
    }
  }

  /** The albums carried by the notices, `undefined` entries skipped. */
  function Present(notices: seq<Notice>): seq<Album>
  {
    if notices == [] then []
    else (if notices[0].AlbumNotice? && notices[0].album.Some? then [notices[0].album.value] else []) + Present(notices[1..])
  }

  /**
   * A page request shows exactly the part of the list inside the window,
   * in order; every index past the end of the list gives an `undefined` notice.
   */
  lemma {:induction false} PageShowsWindow(albums: seq<Album>, start: nat, end: nat)
    requires start <= end
    ensures Present(PageSlots(albums, start, end)) ==
      albums[if start < |albums| then start else |albums| .. if end < |albums| then end else |albums|]
    ensures |PageSlots(albums, start, end)| - |Present(PageSlots(albums, start, end))| ==
      (end - start) - (if end < |albums| then end else |albums|) + (if start < |albums| then start else |albums|)
    decreases end - start
  {
    if start < end {
      PageShowsWindow(albums, start + 1, end);
      var slots := PageSlots(albums, start, end);
      assert slots[1..] == PageSlots(albums, start + 1, end);
      if start < |albums| {
        var hi := if end < |albums| then end else |albums|;
        var window := albums[start..hi];
        assert start + 1 <= hi;
        assert window[0] == albums[start];
        assert window[1..] == albums[start + 1..hi];
        assert window == [window[0]] + window[1..];
        assert slots[0] == AlbumNotice(Some(albums[start]));
        assert Present(slots) == [albums[start]] + Present(slots[1..]);
      }
    }
  }

  /**
   * The albums a scan announces: those pushed at positions from `before` up to,
   * not including, `limit` (a 0-based position `i` is announced when `i < limit`).
   */
  function Announced(albums: seq<Album>, before: nat, limit: int): (announced: seq<Album>)
    requires before <= |albums|
    ensures |announced| == (if limit <= before then 0 else if limit >= |albums| then |albums| - before else limit - before)
    ensures forall k :: 0 <= k < |announced| ==> announced[k] == albums[before + k] && before + k < limit
  {
    albums[before..if limit <= before then before else if limit >= |albums| then |albums| else limit]
  }

  lemma PageSlotsExtend(albums: seq<Album>, start: int, end: int)
    requires start <= end
    ensures PageSlots(albums, start, end + 1) == PageSlots(albums, start, end) + [AlbumNotice(At(albums, end))]
  {
    assert |PageSlots(albums, start, end + 1)| == |PageSlots(albums, start, end) + [AlbumNotice(At(albums, end))]|;
  }

  lemma AnnouncedExtend(albums: seq<Album>, before: nat, limit: int, album: Album)
    requires before <= |albums|
    ensures Announced(albums + [album], before, limit) ==
      Announced(albums, before, limit) + (if |albums| < limit then [album] else [])
  {
    var longer := Announced(albums + [album], before, limit);
    var expected := Announced(albums, before, limit) + (if |albums| < limit then [album] else []);
    assert |longer| == |expected|;
    forall k | 0 <= k < |longer| ensures longer[k] == expected[k] {
      assert longer[k] == (albums + [album])[before + k];
    }
  }

  /** What one kept album adds to the scan's announcements. */
  lemma AnnouncedStep(before: seq<Album>, base: nat, limit: int, album: Album)
    requires base <= |before|
    ensures AlbumNotices(Announced(before + (if album.count > 0 then [album] else []), base, limit)) ==
      AlbumNotices(Announced(before, base, limit)) +
      (if album.count > 0 && |before| < limit then [AlbumNotice(Some(album))] else [])
  {
    if album.count > 0 {
      AnnouncedExtend(before, base, limit, album);
      AlbumNoticesAppend(Announced(before, base, limit), if |before| < limit then [album] else []);
    } else {
      assert before + [] == before;
    }
  }

  /** What one visited folder adds to the discovered albums. */
  lemma DiscoveredStep(fs: FileSystem, visited: seq<Path>, folder: Path)
    requires Listed(fs, visited) && folder in fs
    ensures Listed(fs, visited + [folder])
    ensures Discovered(fs, visited + [folder]) ==
      Discovered(fs, visited) + (if CreateAlbum(fs, folder).count > 0 then [CreateAlbum(fs, folder)] else [])
  {
    DiscoveredAppend(fs, visited, [folder]);
    assert [folder][1..] == [];
  }

  /**
   * One folder of a scan that started with `kept` on show and `notices` sent:
   * the album of `folder` is kept when it has pictures, and announced while
   * it lands before `limit`.
   */
  lemma ScanStep(fs: FileSystem, kept: seq<Album>, notices: seq<Notice>, visited: seq<Path>, folder: Path, limit: int,
                 albums: seq<Album>, sent: seq<Notice>, albums': seq<Album>, sent': seq<Notice>)
    requires Listed(fs, visited) && folder in fs
    requires albums == kept + Discovered(fs, visited)
    requires sent == notices + AlbumNotices(Announced(albums, |kept|, limit))
    requires albums' == albums + (if CreateAlbum(fs, folder).count > 0 then [CreateAlbum(fs, folder)] else [])
    requires sent' == sent + (if CreateAlbum(fs, folder).count > 0 && |albums| < limit then [AlbumNotice(Some(CreateAlbum(fs, folder)))] else [])
    ensures Listed(fs, visited + [folder])
    ensures albums' == kept + Discovered(fs, visited + [folder])
    ensures sent' == notices + AlbumNotices(Announced(albums', |kept|, limit))
  {
    var album := CreateAlbum(fs, folder);
    var added := if album.count > 0 then [album] else [];
    DiscoveredStep(fs, visited, folder);
    Assoc(kept, Discovered(fs, visited), added);
    AnnouncedStep(albums, |kept|, limit, album);
    Assoc(notices, AlbumNotices(Announced(albums, |kept|, limit)),
      if album.count > 0 && |albums| < limit then [AlbumNotice(Some(album))] else []);
  }

  /** `s` is `t` with some elements left out, the rest kept in order. */
  predicate IsSubsequence(s: seq<Album>, t: seq<Album>)
    decreases |t|
  {
    if s == [] then true
    else if t == [] then false
    else (s[0] == t[0] && IsSubsequence(s[1..], t[1..])) || IsSubsequence(s, t[1..])
  }

  lemma {:induction false} SubsequenceReflexive(s: seq<Album>)
    ensures IsSubsequence(s, s)
  {
    if s != [] { SubsequenceReflexive(s[1..]); }
  }

  lemma {:induction false} SubsequenceElements(s: seq<Album>, t: seq<Album>)
    requires IsSubsequence(s, t)
    ensures multiset(s) <= multiset(t)
    decreases |t|
  {
    if s != [] {
      assert t == [t[0]] + t[1..];
      if s[0] == t[0] && IsSubsequence(s[1..], t[1..]) {
        SubsequenceElements(s[1..], t[1..]);
        assert s == [s[0]] + s[1..];
      } else {
        SubsequenceElements(s, t[1..]);
      }
    }
  }

  lemma {:induction false} SubsequenceTransitive(r: seq<Album>, s: seq<Album>, t: seq<Album>)
    requires IsSubsequence(r, s) && IsSubsequence(s, t)
    ensures IsSubsequence(r, t)
    decreases |t|
  {
    if r != [] {
      if s[0] == t[0] && IsSubsequence(s[1..], t[1..]) {
        if r[0] == s[0] && IsSubsequence(r[1..], s[1..]) {
          SubsequenceTransitive(r[1..], s[1..], t[1..]);
        } else {
          SubsequenceTransitive(r, s[1..], t[1..]);
        }
      } else {
        SubsequenceTransitive(r, s, t[1..]);
      }
    }
  }

  /** `albums.filter(album => album.name.includes(name))`. */
  function NameMatches(albums: seq<Album>, name: string): (kept: seq<Album>)
    ensures IsSubsequence(kept, albums)
    ensures forall a :: a in kept ==> Includes(a.name, name)
  {
    if albums == [] then []
    else if Includes(albums[0].name, name) then [albums[0]] + NameMatches(albums[1..], name)
    else NameMatches(albums[1..], name)
  }

  /** The filter keeps every matching album as often as it occurs, and no other. */
  lemma {:induction false} NameMatchesExactly(albums: seq<Album>, name: string, a: Album)
    ensures multiset(NameMatches(albums, name))[a] == if Includes(a.name, name) then multiset(albums)[a] else 0
  {
    if albums != [] {
      NameMatchesExactly(albums[1..], name, a);
      assert albums == [albums[0]] + albums[1..];
    }
  }

  /** Every name includes the empty string, so filtering by it keeps the whole list. */
  lemma {:induction false} EmptyNameKeepsAll(albums: seq<Album>)
    ensures NameMatches(albums, "") == albums
  {
    if albums != [] {
      assert Includes(albums[0].name, "");
      EmptyNameKeepsAll(albums[1..]);
    }
  }
}
