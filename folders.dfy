/**
 * The folder tree the engine walks, as a finite map from folder path to what
 * the file system reports about the folder, and the breadth-first walk over it.
 */
module Folders {
  import opened Wrappers
  import opened Controller
  import opened Sequences

  type Path = string

  const SEPARATOR: char := '/'

  /** `path.join(folder, name)` for a plain entry name. */
  function Join(folder: Path, name: string): (p: Path)
    ensures folder < p
  {
    folder + [SEPARATOR] + name
  }

  function TrimTrailing(p: Path): Path
  {
    if p != [] && p[|p| - 1] == SEPARATOR then TrimTrailing(p[..|p| - 1]) else p
  }

  function LastSegment(p: Path): string
  {
    if p == [] || p[|p| - 1] == SEPARATOR then [] else LastSegment(p[..|p| - 1]) + [p[|p| - 1]]
  }

  /** `path.basename(p)`: the last segment, trailing separators ignored. */
  function Basename(p: Path): string
  {
    LastSegment(TrimTrailing(p))
  }

  lemma {:induction false} LastSegmentAfterSeparator(prefix: Path, name: string)
    requires prefix != [] && prefix[|prefix| - 1] == SEPARATOR
    requires SEPARATOR !in name
    ensures LastSegment(prefix + name) == name
    decreases |name|
  {
    if name != [] {
      var init := name[..|name| - 1];
      assert (prefix + name)[..|prefix + name| - 1] == prefix + init;
      LastSegmentAfterSeparator(prefix, init);
      assert init + [name[|name| - 1]] == name;
    } else {
      assert prefix + name == prefix;
    }
  }

  /** The name an album gets from its folder path is the entry name the folder was listed under. */
  lemma BasenameOfJoin(folder: Path, name: string)
    requires name != [] && SEPARATOR !in name
    ensures Basename(Join(folder, name)) == name
  {
    var p := Join(folder, name);
    assert p[|p| - 1] == name[|name| - 1];
    assert TrimTrailing(p) == p;
    assert p == (folder + [SEPARATOR]) + name;
    LastSegmentAfterSeparator(folder + [SEPARATOR], name);
  }

  /**
   * What the file system reports about one folder: the names of its
   * sub-folders in directory-listing order, its entries as the file lister
   * returns them, the cover named by its album properties (already resolved
   * to a path) if any, and its creation time in milliseconds.
   */
  datatype Folder = Folder(subFolders: seq<string>, files: seq<FileEntry>, coverOverride: Option<Path>, created: int)

  type FileSystem = map<Path, Folder>

  /** Every listed sub-folder exists. (Acyclicity is built in: a sub-folder's path extends its parent's.) */
  ghost predicate WellFormed(fs: FileSystem)
  {
    forall p, i :: p in fs && 0 <= i < |fs[p].subFolders| ==> Join(p, fs[p].subFolders[i]) in fs
  }

  /** Every path of `paths` is a folder of `fs`. */
  ghost predicate Listed(fs: FileSystem, paths: seq<Path>)
  {
    forall i :: 0 <= i < |paths| ==> paths[i] in fs
  }

  /** The paths of the entries `names` inside `folder`. */
  function JoinAll(folder: Path, names: seq<string>): (paths: seq<Path>)
    ensures |paths| == |names|
    ensures forall i :: 0 <= i < |names| ==> paths[i] == Join(folder, names[i])
  {
    if names == [] then [] else [Join(folder, names[0])] + JoinAll(folder, names[1..])
  }

  /** `#getSubFolders(folder)`: the sub-folders' paths in listing order. */
  function SubFolders(fs: FileSystem, folder: Path): (subs: seq<Path>)
    requires folder in fs
    ensures |subs| == |fs[folder].subFolders|
    ensures forall i :: 0 <= i < |subs| ==> subs[i] == Join(folder, fs[folder].subFolders[i])
  {
    JoinAll(folder, fs[folder].subFolders)
  }

  /** The folders of `fs` at or below `p`. */
  ghost function Below(fs: FileSystem, p: Path): set<Path>
  {
    set q | q in fs && p <= q
  }

  lemma BelowShrinks(fs: FileSystem, p: Path, name: string)
    requires p in fs
    ensures Below(fs, Join(p, name)) < Below(fs, p)
  {
    var c := Join(p, name);
    forall q | q in Below(fs, c) ensures q in Below(fs, p) {
      assert q[..|p|] == c[..|p|] == p;
    }
    assert p in Below(fs, p) && p !in Below(fs, c);
  }

  /** The number of folders the walk visits when it starts from `p` alone. */
  ghost function SubtreeSize(fs: FileSystem, p: Path): nat
    requires WellFormed(fs) && p in fs
    decreases Below(fs, p), 1, 0
  {
    1 + ChildrenSize(fs, p, fs[p].subFolders)
  }

  ghost function ChildrenSize(fs: FileSystem, p: Path, names: seq<string>): nat
    requires WellFormed(fs) && p in fs
    requires forall i :: 0 <= i < |names| ==> Join(p, names[i]) in fs
    decreases Below(fs, p), 0, |names|
  {
    if names == [] then 0
    else
      BelowShrinks(fs, p, names[0]);
      SubtreeSize(fs, Join(p, names[0])) + ChildrenSize(fs, p, names[1..])
  }

  /** The number of folders the walk visits starting from `queue`. */
  ghost function QueueSize(fs: FileSystem, queue: seq<Path>): nat
    requires WellFormed(fs) && Listed(fs, queue)
  {
    if queue == [] then 0 else SubtreeSize(fs, queue[0]) + QueueSize(fs, queue[1..])
  }

  lemma {:induction false} QueueSizeAppend(fs: FileSystem, a: seq<Path>, b: seq<Path>)
    requires WellFormed(fs) && Listed(fs, a) && Listed(fs, b)
    ensures Listed(fs, a + b)
    ensures QueueSize(fs, a + b) == QueueSize(fs, a) + QueueSize(fs, b)
  {
    if a != [] {
      assert (a + b)[1..] == a[1..] + b;
      QueueSizeAppend(fs, a[1..], b);
    } else {
      assert a + b == b;
    }
  }

  lemma {:induction false} ChildrenSizeIsQueueSize(fs: FileSystem, p: Path, names: seq<string>)
    requires WellFormed(fs) && p in fs
    requires forall i :: 0 <= i < |names| ==> Join(p, names[i]) in fs
    ensures Listed(fs, JoinAll(p, names))
    ensures ChildrenSize(fs, p, names) == QueueSize(fs, JoinAll(p, names))
  {
    if names != [] {
      ChildrenSizeIsQueueSize(fs, p, names[1..]);
      assert JoinAll(p, names)[1..] == JoinAll(p, names[1..]);
    }
  }

  /** Dequeuing a folder and enqueuing its sub-folders leaves one folder fewer to visit. */
  lemma WalkStepShrinks(fs: FileSystem, queue: seq<Path>)
    requires WellFormed(fs) && Listed(fs, queue) && queue != []
    ensures Listed(fs, queue[1..] + SubFolders(fs, queue[0]))
    ensures QueueSize(fs, queue[1..] + SubFolders(fs, queue[0])) == QueueSize(fs, queue) - 1
  {
    var p := queue[0];
    ChildrenSizeIsQueueSize(fs, p, fs[p].subFolders);
    assert SubtreeSize(fs, p) == 1 + QueueSize(fs, SubFolders(fs, p));
    assert Listed(fs, queue[1..]);
    assert QueueSize(fs, queue) == SubtreeSize(fs, p) + QueueSize(fs, queue[1..]);
    QueueSizeAppend(fs, queue[1..], SubFolders(fs, p));
  }

  /**
   * The order in which `#processFolders` visits folders: take the head of the
   * FIFO queue, visit it, append its sub-folders to the tail.
   */
  ghost function Walk(fs: FileSystem, queue: seq<Path>): (visit: seq<Path>)
    requires WellFormed(fs) && Listed(fs, queue)
    ensures Listed(fs, visit)
    decreases QueueSize(fs, queue)
  {
    if queue == [] then []
    else
      WalkStepShrinks(fs, queue);
      [queue[0]] + Walk(fs, queue[1..] + SubFolders(fs, queue[0]))
  }

  /** Part way through a walk from `roots`: `visited` done, `queue` still waiting. */
  ghost predicate WalkSplit(fs: FileSystem, roots: seq<Path>, visited: seq<Path>, queue: seq<Path>)
  {
    WellFormed(fs) && Listed(fs, roots) && Listed(fs, visited) && Listed(fs, queue) &&
    Walk(fs, roots) == visited + Walk(fs, queue)
  }

  lemma AppendShift(visited: seq<Path>, p: Path, rest: seq<Path>)
    ensures visited + ([p] + rest) == (visited + [p]) + rest
  {
    var a, b := visited + ([p] + rest), (visited + [p]) + rest;
    assert |a| == |b|;
    forall i | 0 <= i < |a| ensures a[i] == b[i] {
      if i < |visited| { assert a[i] == visited[i] == b[i]; }
      else if i > |visited| { assert a[i] == rest[i - |visited| - 1] == b[i]; }
    }
  }

  /** One step of the walk: the head is visited, its sub-folders join the tail of the queue. */
  lemma WalkStep(fs: FileSystem, roots: seq<Path>, visited: seq<Path>, queue: seq<Path>)
    requires WalkSplit(fs, roots, visited, queue) && queue != []
    ensures WalkSplit(fs, roots, visited + [queue[0]], queue[1..] + SubFolders(fs, queue[0]))
    ensures QueueSize(fs, queue[1..] + SubFolders(fs, queue[0])) < QueueSize(fs, queue)
  {
    WalkStepShrinks(fs, queue);
    var next := queue[1..] + SubFolders(fs, queue[0]);
    var rest := Walk(fs, next);
    assert Walk(fs, queue) == [queue[0]] + rest;
    AppendShift(visited, queue[0], rest);
    assert Listed(fs, visited + [queue[0]]) by {
      forall i | 0 <= i < |visited + [queue[0]]| ensures (visited + [queue[0]])[i] in fs {
        if i < |visited| { assert (visited + [queue[0]])[i] == visited[i]; }
      }
    }
  }

  /** The folders one level further down: the sub-folders of every queued folder, queue order first, listing order second. */
  function NextLevel(fs: FileSystem, queue: seq<Path>): seq<Path>
    requires Listed(fs, queue)
  {
    if queue == [] then [] else SubFolders(fs, queue[0]) + NextLevel(fs, queue[1..])
  }

  lemma {:induction false} NextLevelListed(fs: FileSystem, queue: seq<Path>)
    requires WellFormed(fs) && Listed(fs, queue)
    ensures Listed(fs, NextLevel(fs, queue))
  {
    if queue != [] {
      NextLevelListed(fs, queue[1..]);
    }
  }

  /**
   * The walk is breadth-first: it visits everything already queued, in queue
   * order, before anything found below it, and the next level is queued
   * behind what was waiting.
   */
  lemma {:induction false} WalkLevels(fs: FileSystem, queue: seq<Path>, waiting: seq<Path>)
    requires WellFormed(fs) && Listed(fs, queue) && Listed(fs, waiting)
    ensures Listed(fs, queue + waiting) && Listed(fs, waiting + NextLevel(fs, queue))
    ensures Walk(fs, queue + waiting) == queue + Walk(fs, waiting + NextLevel(fs, queue))
    decreases |queue|
  {
    NextLevelListed(fs, queue);
    ListedAppend(fs, queue, waiting);
    ListedAppend(fs, waiting, NextLevel(fs, queue));
    if queue == [] {
      assert queue + waiting == waiting + NextLevel(fs, queue) == waiting;
    } else {
      var p := queue[0];
      var waiting' := waiting + SubFolders(fs, p);
      ListedAppend(fs, waiting, SubFolders(fs, p));
      WalkLevels(fs, queue[1..], waiting');
      var rest := Walk(fs, waiting' + NextLevel(fs, queue[1..]));
      WalkUnfold(fs, queue + waiting);
      TailAppend(queue, waiting);
      Assoc(queue[1..], waiting, SubFolders(fs, p));
      assert Walk(fs, queue + waiting) == [p] + (queue[1..] + rest);
      Assoc(waiting, SubFolders(fs, p), NextLevel(fs, queue[1..]));
      Assoc([p], queue[1..], rest);
      ConsSplit(queue);
    }
  }

  lemma ListedAppend(fs: FileSystem, a: seq<Path>, b: seq<Path>)
    requires Listed(fs, a) && Listed(fs, b)
    ensures Listed(fs, a + b)
  {
    forall i | 0 <= i < |a + b| ensures (a + b)[i] in fs {
      if i >= |a| { assert (a + b)[i] == b[i - |a|]; }
    }
  }


  /** The roots are visited first, in the order given, then the folders one level down. */
  lemma WalkBreadthFirst(fs: FileSystem, roots: seq<Path>)
    requires WellFormed(fs) && Listed(fs, roots)
    ensures Listed(fs, NextLevel(fs, roots))
    ensures Walk(fs, roots) == roots + Walk(fs, NextLevel(fs, roots))
  {
    WalkLevels(fs, roots, []);
    assert roots + [] == roots;
    assert [] + NextLevel(fs, roots) == NextLevel(fs, roots);
  }

  /** The walk visits as many folders as the queued trees hold, counted with repetition when queued trees overlap. */
  lemma {:induction false} WalkLength(fs: FileSystem, queue: seq<Path>)
    requires WellFormed(fs) && Listed(fs, queue)
    ensures |Walk(fs, queue)| == QueueSize(fs, queue)
    decreases QueueSize(fs, queue)
  {
    if queue != [] {
      WalkStepShrinks(fs, queue);
      WalkLength(fs, queue[1..] + SubFolders(fs, queue[0]));
    }
  }

  /** Everything the walk visits lies at or below one of the folders it started from. */
  lemma {:induction false} WalkStaysBelow(fs: FileSystem, queue: seq<Path>, k: nat)
    requires WellFormed(fs) && Listed(fs, queue) && k < |Walk(fs, queue)|
    ensures exists r :: r in queue && r <= Walk(fs, queue)[k]
    decreases QueueSize(fs, queue)
  {
    var w := Walk(fs, queue);
    if k == 0 {
      assert queue[0] in queue && queue[0] <= w[0];
    } else {
      var p := queue[0];
      var next := queue[1..] + SubFolders(fs, p);
      WalkStepShrinks(fs, queue);
      assert w[k] == Walk(fs, next)[k - 1];
      WalkStaysBelow(fs, next, k - 1);
      var r :| r in next && r <= w[k];
      if r in queue[1..] {
        assert r in queue;
      } else {
        var i :| 0 <= i < |SubFolders(fs, p)| && SubFolders(fs, p)[i] == r;
        assert p <= r;
        assert w[k][..|p|] == r[..|p|] == p;
        assert p in queue && p <= w[k];
      }
    }
  }

  /** Every queued folder is visited, in queue order, before anything else. */
  lemma WalkStartsWithQueue(fs: FileSystem, queue: seq<Path>)
    requires WellFormed(fs) && Listed(fs, queue)
    ensures |queue| <= |Walk(fs, queue)| && Walk(fs, queue)[..|queue|] == queue
  {
    WalkBreadthFirst(fs, queue);
    var w := Walk(fs, queue);
    assert w[..|queue|] == (queue + Walk(fs, NextLevel(fs, queue)))[..|queue|];
  }

  lemma WalkUnfold(fs: FileSystem, queue: seq<Path>)
    requires WellFormed(fs) && Listed(fs, queue) && queue != []
    ensures Listed(fs, queue[1..] + SubFolders(fs, queue[0]))
    ensures QueueSize(fs, queue[1..] + SubFolders(fs, queue[0])) < QueueSize(fs, queue)
    ensures Walk(fs, queue) == [queue[0]] + Walk(fs, queue[1..] + SubFolders(fs, queue[0]))
  {
    WalkStepShrinks(fs, queue);
  }

  /** The sub-folders of the head of the queue are visited right after everything queued. */
  lemma HeadSubFoldersFollowQueue(fs: FileSystem, queue: seq<Path>, i: nat)
    requires WellFormed(fs) && Listed(fs, queue) && queue != [] && i < |fs[queue[0]].subFolders|
    ensures |queue| + i < |Walk(fs, queue)| && Walk(fs, queue)[|queue| + i] == SubFolders(fs, queue[0])[i]
  {
    var p := queue[0];
    var next := queue[1..] + SubFolders(fs, p);
    WalkStepShrinks(fs, queue);
    var rest := Walk(fs, next);
    assert Walk(fs, queue) == [p] + rest;
    WalkStartsWithQueue(fs, next);
    var m := |queue| - 1 + i;
    assert next[m] == SubFolders(fs, p)[i];
    assert rest[..|next|][m] == rest[m];
    assert Walk(fs, queue)[m + 1] == rest[m];
  }

  /**
   * The walk misses no sub-folder: when a folder is visited, each of its
   * sub-folders is visited later.
   */
  lemma {:induction false} WalkVisitsSubFolders(fs: FileSystem, queue: seq<Path>, k: nat, i: nat)
    requires WellFormed(fs) && Listed(fs, queue)
    requires k < |Walk(fs, queue)|
    requires Walk(fs, queue)[k] in fs && i < |fs[Walk(fs, queue)[k]].subFolders|
    ensures exists m :: k < m < |Walk(fs, queue)| && Walk(fs, queue)[m] == SubFolders(fs, Walk(fs, queue)[k])[i]
    decreases QueueSize(fs, queue)
  {
    var w := Walk(fs, queue);
    var p := queue[0];
    var next := queue[1..] + SubFolders(fs, p);
    WalkUnfold(fs, queue);
    if k == 0 {
      HeadSubFoldersFollowQueue(fs, queue, i);
      assert w[|queue| + i] == SubFolders(fs, w[k])[i];
    } else {
      WalkVisitsSubFolders(fs, next, k - 1, i);
      LaterInTail(w, p, Walk(fs, next), k, SubFolders(fs, w[k])[i]);
    }
  }

  /** A position found after `k - 1` in the tail is one after `k` in the whole. */
  lemma LaterInTail(w: seq<Path>, p: Path, rest: seq<Path>, k: nat, target: Path)
    requires w == [p] + rest && 0 < k < |w|
    requires exists m :: k - 1 < m < |rest| && rest[m] == target
    ensures exists m :: k < m < |w| && w[m] == target
  {
    var m :| k - 1 < m < |rest| && rest[m] == target;
    assert w[m + 1] == rest[m];
  }
}
