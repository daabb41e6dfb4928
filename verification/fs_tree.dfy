/**
 * The directory tree the filesystem calls read. Each entry carries what `fs.statSync` reports of
 * it (file or not, and its `size`) and the name `readdir` lists it under; a directory also
 * carries its listing, in listing order. Only regular files and directories are modelled.
 */
module FsTree {
  import opened JsArray

  datatype Entry =
    | File(name: string, size: nat)
    | Dir(name: string, size: nat, children: seq<Entry>)

  /** `stat.isFile()`. */
  predicate IsFile(e: Entry) {
    e.File?
  }

  /** `stat.isDirectory()`. */
  predicate IsDirectory(e: Entry) {
    e.Dir?
  }

  // Reference definitions: what a directory "contains", counted over the tree itself.

  /** The file entries of the subtree rooted at `e`, `e` included. */
  function Files(e: Entry): nat
    decreases e
  {
    match e
    case File(_, _) => 1
    case Dir(_, _, cs) => ForestFiles(cs)
  }

  function ForestFiles(cs: seq<Entry>): nat
    decreases cs
  {
    if cs == [] then 0 else Files(cs[0]) + ForestFiles(cs[1..])
  }

  /** The directory entries of the subtree rooted at `e`, `e` included. */
  function Folders(e: Entry): nat
    decreases e
  {
    match e
    case File(_, _) => 0
    case Dir(_, _, cs) => 1 + ForestFolders(cs)
  }

  function ForestFolders(cs: seq<Entry>): nat
    decreases cs
  {
    if cs == [] then 0 else Folders(cs[0]) + ForestFolders(cs[1..])
  }

  /** The stat sizes of every entry of the subtree rooted at `e`, `e` included. */
  function TotalSize(e: Entry): nat
    decreases e
  {
    match e
    case File(_, size) => size
    case Dir(_, size, cs) => size + ForestSize(cs)
  }

  function ForestSize(cs: seq<Entry>): nat
    decreases cs
  {
    if cs == [] then 0 else TotalSize(cs[0]) + ForestSize(cs[1..])
  }

  lemma {:induction false} ForestAppend(a: seq<Entry>, b: seq<Entry>)
    ensures ForestFiles(a + b) == ForestFiles(a) + ForestFiles(b)
    ensures ForestFolders(a + b) == ForestFolders(a) + ForestFolders(b)
    ensures ForestSize(a + b) == ForestSize(a) + ForestSize(b)
  {
    if a == [] {
      assert a + b == b;
    } else {
      assert (a + b)[1..] == a[1..] + b;
      ForestAppend(a[1..], b);
    }
  }

  /** The counts over a prefix of a listing grow by the counts of the next child. */
  lemma ForestSnoc(cs: seq<Entry>, i: nat)
    requires i < |cs|
    ensures ForestFiles(cs[..i + 1]) == ForestFiles(cs[..i]) + Files(cs[i])
    ensures ForestFolders(cs[..i + 1]) == ForestFolders(cs[..i]) + Folders(cs[i])
  {
    assert cs[..i + 1] == cs[..i] + [cs[i]];
    ForestAppend(cs[..i], [cs[i]]);
    assert ForestFiles([cs[i]]) == Files(cs[i]) + ForestFiles([]);
    assert ForestFolders([cs[i]]) == Folders(cs[i]) + ForestFolders([]);
  }

  // utils.ts getDeepStats: one stat per entry below a directory, in pre-order.

  /** The stats of every entry below a directory whose listing is `cs`, the directory itself
      excluded: each child's stat, followed by the stats below it when it is a directory. */
  function DeepStats(cs: seq<Entry>): (r: seq<Entry>)
    ensures |r| == ForestFiles(cs) + ForestFolders(cs)
    decreases cs
  {
    if cs == [] then [] else Subtree(cs[0]) + DeepStats(cs[1..])
  }

  /** The stat of `c` followed by the stats below it. */
  function Subtree(c: Entry): (r: seq<Entry>)
    ensures |r| == Files(c) + Folders(c)
    ensures r[0] == c
    decreases c, 1
  {
    [c] + (if c.Dir? then DeepStats(c.children) else [])
  }

  /** `stats.map(stat => stat.size)`. */
  function Sizes(s: seq<Entry>): (r: seq<nat>)
    ensures |r| == |s|
  {
    if s == [] then [] else [s[0].size] + Sizes(s[1..])
  }

  lemma {:induction false} SizesAppend(a: seq<Entry>, b: seq<Entry>)
    ensures Sizes(a + b) == Sizes(a) + Sizes(b)
  {
    if a == [] {
      assert a + b == b;
    } else {
      assert (a + b)[0] == a[0];
      assert (a + b)[1..] == a[1..] + b;
      SizesAppend(a[1..], b);
    }
  }

  /** The listing is walked in order: the deep stats of two listings side by side are those of
      the first followed by those of the second. */
  lemma {:induction false} DeepStatsAppend(a: seq<Entry>, b: seq<Entry>)
    ensures DeepStats(a + b) == DeepStats(a) + DeepStats(b)
  {
    if a == [] {
      assert a + b == b;
    } else {
      assert (a + b)[1..] == a[1..] + b;
      DeepStatsAppend(a[1..], b);
    }
  }

  /** Pre-order: in the deep stats of a listing, the stat of the k-th child comes right after
      everything below the children before it, and is followed at once by the stats of its own
      descendants, then by everything below the children after it. */
  lemma DeepStatsSubtree(cs: seq<Entry>, k: nat)
    requires k < |cs|
    ensures DeepStats(cs) == DeepStats(cs[..k]) + (Subtree(cs[k]) + DeepStats(cs[k + 1..]))
  {
    var tail := cs[k..];
    assert cs == cs[..k] + tail;
    DeepStatsAppend(cs[..k], tail);
    assert DeepStats(tail) == Subtree(cs[k]) + DeepStats(cs[k + 1..]) by {
      assert tail[0] == cs[k] && tail[1..] == cs[k + 1..];
    }
  }

  lemma DeepStatsSnoc(cs: seq<Entry>, i: nat)
    requires i < |cs|
    ensures DeepStats(cs[..i + 1]) == DeepStats(cs[..i]) + Subtree(cs[i])
  {
    assert cs[..i + 1] == cs[..i] + [cs[i]];
    DeepStatsAppend(cs[..i], [cs[i]]);
    assert DeepStats([cs[i]]) == Subtree(cs[i]) + DeepStats([]);
  }

  /** Counting the stats that are files (resp. directories) in the deep stats gives the number
      of file (resp. directory) entries at any depth. */
  lemma {:induction false} DeepStatsCounts(cs: seq<Entry>)
    ensures |Filter(DeepStats(cs), IsFile)| == ForestFiles(cs)
    ensures |Filter(DeepStats(cs), IsDirectory)| == ForestFolders(cs)
    decreases cs
  {
    if cs != [] {
      var c := cs[0];
      var below := if c.Dir? then DeepStats(c.children) else [];
      if c.Dir? {
        DeepStatsCounts(c.children);
      }
      DeepStatsCounts(cs[1..]);
      FilterAppend([c], below, IsFile);
      FilterAppend([c], below, IsDirectory);
      FilterAppend(Subtree(c), DeepStats(cs[1..]), IsFile);
      FilterAppend(Subtree(c), DeepStats(cs[1..]), IsDirectory);
    }
  }

  /** Summing the sizes of the deep stats gives the size of every entry at any depth. */
  lemma {:induction false} DeepStatsSize(cs: seq<Entry>)
    ensures Sum(Sizes(DeepStats(cs))) == ForestSize(cs)
    decreases cs
  {
    if cs != [] {
      var c := cs[0];
      var below := if c.Dir? then DeepStats(c.children) else [];
      if c.Dir? {
        DeepStatsSize(c.children);
      }
      DeepStatsSize(cs[1..]);
      SizesAppend([c], below);
      SumAppend(Sizes([c]), Sizes(below));
      SizesAppend(Subtree(c), DeepStats(cs[1..]));
      SumAppend(Sizes(Subtree(c)), Sizes(DeepStats(cs[1..])));
    }
  }
}
