/**
 * The album orderings `sortAlbums` offers and the stable sort that applies
 * them (`Array.prototype.sort` is stable since ECMAScript 2019).
 */
module Sorting {
  import opened Wrappers
  import Text
  import opened Albums

  /** The album attribute a comparator looks at. */
  datatype SortKey = ByFolder | ByName | ByDate | BySize

  /** A comparator: one key, read in ascending order or with its arguments swapped. */
  datatype Comparator = Ascending(key: SortKey) | Descending(key: SortKey)

  /**
   * `compareFolder`, `compareName`, `compareDate`, `compareSize`: negative when
   * `a1` goes first, zero for a tie. Dates and sizes compare by difference.
   */
  function CompareBy(key: SortKey, a1: Album, a2: Album): int
  {
    match key
    case ByFolder => Text.Compare(a1.folder, a2.folder)
    case ByName => Text.Compare(a1.name, a2.name)
    case ByDate => a1.created - a2.created
    case BySize => a1.count - a2.count
  }

  function Compare(c: Comparator, a1: Album, a2: Album): int
  {
    match c
    case Ascending(key) => CompareBy(key, a1, a2)
    case Descending(key) => CompareBy(key, a2, a1)
  }

  /** Swapping the arguments of any comparator negates its result. */
  lemma CompareFlips(c: Comparator, a1: Album, a2: Album)
    ensures Compare(c, a2, a1) == -Compare(c, a1, a2)
  {
    match c.key
    case ByFolder => Text.CompareAntisymmetric(a1.folder, a2.folder);
    case ByName => Text.CompareAntisymmetric(a1.name, a2.name);
    case ByDate =>
    case BySize =>
  }

  /** Every comparator orders albums transitively. */
  lemma CompareTransitive(c: Comparator, a1: Album, a2: Album, a3: Album)
    requires Compare(c, a1, a2) <= 0 && Compare(c, a2, a3) <= 0
    ensures Compare(c, a1, a3) <= 0
  {
    match c
    case Ascending(key) =>
      match key {
        case ByFolder => Text.CompareTransitive(a1.folder, a2.folder, a3.folder);
        case ByName => Text.CompareTransitive(a1.name, a2.name, a3.name);
        case ByDate =>
        case BySize =>
      }
    case Descending(key) =>
      match key {
        case ByFolder => Text.CompareTransitive(a3.folder, a2.folder, a1.folder);
        case ByName => Text.CompareTransitive(a3.name, a2.name, a1.name);
        case ByDate =>
        case BySize =>
      }
  }

  /** Ties of a comparator are an equivalence: a tie with a tied album is a tie. */
  lemma TieTransitive(c: Comparator, a1: Album, a2: Album, a3: Album)
    requires Compare(c, a1, a2) == 0 && Compare(c, a2, a3) == 0
    ensures Compare(c, a1, a3) == 0
  {
    CompareFlips(c, a1, a2);
    CompareFlips(c, a2, a3);
    CompareTransitive(c, a1, a2, a3);
    CompareTransitive(c, a3, a2, a1);
    CompareFlips(c, a1, a3);
  }

  /** `DEFAULT_COMPARATOR`. */
  const DEFAULT_COMPARATOR := Ascending(ByFolder)

  /** The app's `COMPARATORS` map, keys spelled as they are registered. */
  const COMPARATORS: map<string, Comparator> := map[
    "path-asc" := Ascending(ByFolder),
    "path-desc" := Descending(ByFolder),
    "name-asc" := Ascending(ByName),
    "name-desc" := Descending(ByName),
    "date_asc" := Ascending(ByDate),
    "date_desc" := Descending(ByDate),
    "size_asc" := Ascending(BySize),
    "size-desc" := Descending(BySize)]

  /** `COMPARATORS.get(order) || DEFAULT_COMPARATOR`. */
  function ComparatorFor(order: string): (c: Comparator)
    ensures order in COMPARATORS ==> c == COMPARATORS[order]
    ensures order !in COMPARATORS ==> c == DEFAULT_COMPARATOR
  {
    if order in COMPARATORS then COMPARATORS[order] else DEFAULT_COMPARATOR
  }

  /**
   * The date keys and the ascending size key are registered with underscores,
   * so the hyphenated spellings the other keys use fall back to the folder order.
   */
  lemma HyphenatedKeysFallBack()
    ensures ComparatorFor("date-asc") == DEFAULT_COMPARATOR
    ensures ComparatorFor("date-desc") == DEFAULT_COMPARATOR
    ensures ComparatorFor("size-asc") == DEFAULT_COMPARATOR
    ensures ComparatorFor("size-desc") == Descending(BySize)
    ensures ComparatorFor("date_asc") == Ascending(ByDate)
  {
    assert "date-asc" !in COMPARATORS;
    assert "date-desc" !in COMPARATORS;
    assert "size-asc" !in COMPARATORS;
  }

  /** The orders of the older selector, keyed by the shared `AlbumSorter` constants. */
  datatype AlbumSorter = PathAsc | PathDesc | NameAsc | NameDesc | DateAsc | DateDesc | SizeAsc | SizeDesc

  /** The older selector's lookup; `None` stands for any value that is not an `AlbumSorter` constant. */
  function LegacyComparatorFor(order: Option<AlbumSorter>): (c: Comparator)
    ensures order.None? ==> c == DEFAULT_COMPARATOR
    ensures order.Some? ==> c.key == match order.value
      case PathAsc => ByFolder case PathDesc => ByFolder case NameAsc => ByName case NameDesc => ByName
      case DateAsc => ByDate case DateDesc => ByDate case SizeAsc => BySize case SizeDesc => BySize
    ensures order.Some? ==> (c.Ascending? <==> order.value in {PathAsc, NameAsc, DateAsc, SizeAsc})
  {
    match order
    case None => DEFAULT_COMPARATOR
    case Some(PathAsc) => Ascending(ByFolder)
    case Some(PathDesc) => Descending(ByFolder)
    case Some(NameAsc) => Ascending(ByName)
    case Some(NameDesc) => Descending(ByName)
    case Some(DateAsc) => Ascending(ByDate)
    case Some(DateDesc) => Descending(ByDate)
    case Some(SizeAsc) => Ascending(BySize)
    case Some(SizeDesc) => Descending(BySize)
  }

  predicate Sorted(c: Comparator, s: seq<Album>)
  {
    forall i, j :: 0 <= i < j < |s| ==> Compare(c, s[i], s[j]) <= 0
  }

  /** `x` placed before the first album it does not follow. */
  function Insert(c: Comparator, x: Album, s: seq<Album>): (r: seq<Album>)
    ensures multiset(r) == multiset(s) + multiset{x}
    ensures |r| == |s| + 1
  {
    if s == [] || Compare(c, x, s[0]) <= 0 then [x] + s
    else
      assert s == [s[0]] + s[1..];
      [s[0]] + Insert(c, x, s[1..])
  }

  /** The stable sort `albums.sort(sorter)` computes. */
  function Sort(c: Comparator, s: seq<Album>): (r: seq<Album>)
    ensures multiset(r) == multiset(s)
    ensures |r| == |s|
  {
    if s == [] then []
    else
      assert s == [s[0]] + s[1..];
      Insert(c, s[0], Sort(c, s[1..]))
  }

  /** In a sorted list, every album from the first one `x` does not follow on is one `x` does not follow. */
  lemma SortedTail(c: Comparator, x: Album, s: seq<Album>)
    requires Sorted(c, s) && s != [] && Compare(c, x, s[0]) <= 0
    ensures forall e :: e in s ==> Compare(c, x, e) <= 0
  {
    forall e | e in s ensures Compare(c, x, e) <= 0 {
      var j :| 0 <= j < |s| && s[j] == e;
      if j > 0 { CompareTransitive(c, x, s[0], e); }
    }
  }

  lemma {:induction false} InsertSorted(c: Comparator, x: Album, s: seq<Album>)
    requires Sorted(c, s)
    ensures Sorted(c, Insert(c, x, s))
  {
    var r := Insert(c, x, s);
    if s == [] {
    } else if Compare(c, x, s[0]) <= 0 {
      SortedTail(c, x, s);
      forall i, j | 0 <= i < j < |r| ensures Compare(c, r[i], r[j]) <= 0 {
        if i == 0 { assert r[j] == s[j - 1] && r[j] in s; } else { assert r[i] == s[i - 1] && r[j] == s[j - 1]; }
      }
    } else {
      InsertSorted(c, x, s[1..]);
      CompareFlips(c, x, s[0]);
      forall i, j | 0 <= i < j < |r| ensures Compare(c, r[i], r[j]) <= 0 {
        if i == 0 {
          assert r[j] in multiset(s[1..]) + multiset{x};
          if r[j] != x {
            assert r[j] in s[1..];
            var k :| 0 <= k < |s[1..]| && s[1..][k] == r[j];
            assert s[k + 1] == r[j];
          }
        }
      }
    }
  }

  /** `albums.sort(sorter)` leaves the albums in the comparator's order. */
  lemma {:induction false} SortSorts(c: Comparator, s: seq<Album>)
    ensures Sorted(c, Sort(c, s))
  {
    if s != [] {
      SortSorts(c, s[1..]);
      InsertSorted(c, s[0], Sort(c, s[1..]));
    }
  }

  /** The albums tied with `y`, in list order. */
  function Ties(c: Comparator, s: seq<Album>, y: Album): seq<Album>
  {
    if s == [] then [] else (if Compare(c, s[0], y) == 0 then [s[0]] else []) + Ties(c, s[1..], y)
  }

  lemma {:induction false} InsertTies(c: Comparator, x: Album, s: seq<Album>, y: Album)
    ensures Ties(c, Insert(c, x, s), y) == (if Compare(c, x, y) == 0 then [x] else []) + Ties(c, s, y)
  {
    var r := Insert(c, x, s);
    var tx := if Compare(c, x, y) == 0 then [x] else [];
    if s == [] || Compare(c, x, s[0]) <= 0 {
      assert r == [x] + s;
      assert r[0] == x && r[1..] == s;
      assert Ties(c, r, y) == tx + Ties(c, s, y);
    } else {
      assert r == [s[0]] + Insert(c, x, s[1..]);
      assert r[0] == s[0] && r[1..] == Insert(c, x, s[1..]);
      InsertTies(c, x, s[1..], y);
      var ts := if Compare(c, s[0], y) == 0 then [s[0]] else [];
      assert Ties(c, r, y) == ts + (tx + Ties(c, s[1..], y));
      assert Ties(c, s, y) == ts + Ties(c, s[1..], y);
      if tx != [] && ts != [] {
        CompareFlips(c, s[0], y);
        TieTransitive(c, x, y, s[0]);
        assert false;
      }
      var rest := Ties(c, s[1..], y);
      if tx == [] {
        assert tx + rest == rest && tx + (ts + rest) == ts + rest;
      } else {
        assert ts + (tx + rest) == tx + rest && ts + rest == rest;
      }
    }
  }

  /** Stability: albums the comparator ties keep their relative order. */
  lemma {:induction false} SortKeepsTies(c: Comparator, s: seq<Album>, y: Album)
    ensures Ties(c, Sort(c, s), y) == Ties(c, s, y)
  {
    if s != [] {
      SortKeepsTies(c, s[1..], y);
      InsertTies(c, s[0], Sort(c, s[1..]), y);
    }
  }

  lemma SubsequenceOfCons(s: seq<Album>, y: Album, t: seq<Album>)
    requires IsSubsequence(s, t)
    ensures IsSubsequence(s, [y] + t)
  {
    assert ([y] + t)[1..] == t;
  }

  lemma {:induction false} SingletonSubsequence(x: Album, t: seq<Album>)
    requires x in t
    ensures IsSubsequence([x], t)
    decreases |t|
  {
    if t[0] != x {
      SingletonSubsequence(x, t[1..]);
    }
  }

  lemma SortedRest(c: Comparator, v: seq<Album>)
    requires Sorted(c, v) && v != []
    ensures Sorted(c, v[1..])
  {
    forall i, j | 0 <= i < j < |v[1..]| ensures Compare(c, v[1..][i], v[1..][j]) <= 0 {
      assert v[1..][i] == v[i + 1] && v[1..][j] == v[j + 1];
    }
  }

  /** When `x` goes first in a sorted list, it goes first in every non-empty sub-list too. */
  lemma InsertFirst(c: Comparator, x: Album, u: seq<Album>, v: seq<Album>)
    requires Sorted(c, v) && IsSubsequence(u, v) && u != [] && Compare(c, x, v[0]) <= 0
    ensures IsSubsequence(Insert(c, x, u), Insert(c, x, v))
  {
    SortedTail(c, x, v);
    SubsequenceElements(u, v);
    assert u[0] in multiset(v);
    assert Insert(c, x, u) == [x] + u;
    assert ([x] + u)[1..] == u && ([x] + v)[1..] == v;
  }

  lemma {:induction false} InsertContains(c: Comparator, x: Album, v: seq<Album>)
    ensures x in Insert(c, x, v)
  {
    if v != [] && Compare(c, x, v[0]) > 0 {
      InsertContains(c, x, v[1..]);
    }
  }

  lemma {:induction false} InsertMonotone(c: Comparator, x: Album, u: seq<Album>, v: seq<Album>)
    requires Sorted(c, v) && IsSubsequence(u, v)
    ensures IsSubsequence(Insert(c, x, u), Insert(c, x, v))
    decreases |v|
  {
    if u == [] {
      InsertContains(c, x, v);
      SingletonSubsequence(x, Insert(c, x, v));
      assert Insert(c, x, u) == [x];
    } else if Compare(c, x, v[0]) <= 0 {
      InsertFirst(c, x, u, v);
    } else if u[0] == v[0] && IsSubsequence(u[1..], v[1..]) {
      SortedRest(c, v);
      InsertMonotone(c, x, u[1..], v[1..]);
      InsertKeepsHead(c, x, u, v);
    } else {
      SortedRest(c, v);
      InsertMonotone(c, x, u, v[1..]);
      InsertSkipsHead(c, x, u, v);
    }
  }

  lemma InsertKeepsHead(c: Comparator, x: Album, u: seq<Album>, v: seq<Album>)
    requires u != [] && v != [] && u[0] == v[0] && Compare(c, x, v[0]) > 0
    requires IsSubsequence(Insert(c, x, u[1..]), Insert(c, x, v[1..]))
    ensures IsSubsequence(Insert(c, x, u), Insert(c, x, v))
  {
    var iu := Insert(c, x, u);
    var iv := Insert(c, x, v);
    assert iu[0] == iv[0];
    assert iu[1..] == Insert(c, x, u[1..]);
    assert iv[1..] == Insert(c, x, v[1..]);
  }

  lemma InsertSkipsHead(c: Comparator, x: Album, u: seq<Album>, v: seq<Album>)
    requires v != [] && Compare(c, x, v[0]) > 0
    requires IsSubsequence(Insert(c, x, u), Insert(c, x, v[1..]))
    ensures IsSubsequence(Insert(c, x, u), Insert(c, x, v))
  {
    SubsequenceOfCons(Insert(c, x, u), v[0], Insert(c, x, v[1..]));
  }

  /** Sorting a sub-list gives a sub-list of the sorted list. */
  lemma {:induction false} SortKeepsSubsequence(c: Comparator, s: seq<Album>, t: seq<Album>)
    requires IsSubsequence(s, t)
    ensures IsSubsequence(Sort(c, s), Sort(c, t))
    decreases |t|
  {
    if s == [] {
    } else if s[0] == t[0] && IsSubsequence(s[1..], t[1..]) {
      SortKeepsSubsequence(c, s[1..], t[1..]);
      SortSorts(c, t[1..]);
      InsertMonotone(c, t[0], Sort(c, s[1..]), Sort(c, t[1..]));
    } else {
      SortKeepsSubsequence(c, s, t[1..]);
      SortSorts(c, t[1..]);
      InsertMonotone(c, t[0], [], Sort(c, t[1..]));
      InsertAddsSubsequence(c, t[0], Sort(c, t[1..]));
      SubsequenceTransitive(Sort(c, s), Sort(c, t[1..]), Sort(c, t));
    }
  }

  /** Inserting an album keeps every album that was there, in order. */
  lemma {:induction false} InsertAddsSubsequence(c: Comparator, x: Album, s: seq<Album>)
    ensures IsSubsequence(s, Insert(c, x, s))
  {
    if s == [] {
    } else if Compare(c, x, s[0]) <= 0 {
      SubsequenceReflexive(s);
      SubsequenceOfCons(s, x, s);
    } else {
      InsertAddsSubsequence(c, x, s[1..]);
      var r := Insert(c, x, s);
      assert r[1..] == Insert(c, x, s[1..]);
    }
  }
}
