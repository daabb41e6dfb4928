/**
 * getSizeAndContains in its revisions: the size of a path and, for a directory, how many files
 * and folders it contains at any depth.
 *
 * src/index.ts (getSizeAndContainsSync and its async twin) and src/utils.ts walk the tree once,
 * bumping a shared `contains` counter object for every entry met and collecting the stat sizes
 * in a flat list; utils.ts first lists every stat below the directory (getDeepStats) and then
 * counts and sums that list. Both are proved to compute `Aggregate`.
 */
module SizeAggregation {
  import opened Wrappers
  import opened JsArray
  import opened FsTree

  /** The `contains` object: `{ files, folders }`. */
  datatype Contains = Contains(files: nat, folders: nat)

  /** `{ size, contains }`; `contains` is `undefined` for a file. */
  datatype SizeAndContains = SizeAndContains(size: nat, contains: Option<Contains>)

  /** What getSizeAndContains yields for the path whose stat is `e`: a file's own size and no
      `contains`; for a directory, the sum of the stat sizes of every entry below it (files and
      subdirectories alike, the directory's own size excluded) and the number of file and of
      directory entries below it at any depth. */
  function Aggregate(e: Entry): SizeAndContains
  {
    match e
    case File(_, size) => SizeAndContains(size, None)
    case Dir(_, _, cs) => SizeAndContains(ForestSize(cs), Some(Contains(ForestFiles(cs), ForestFolders(cs))))
  }

  /** The `contains` counter object the walk of src/index.ts and src/utils.ts updates in place. */
  class ContainsCounter {
    var files: nat
    var folders: nat

    constructor ()
      ensures files == 0 && folders == 0
    {
      files, folders := 0, 0;
    }

    /** `contains.files++`. */
    method CountFile()
      modifies this
      ensures files == old(files) + 1 && folders == old(folders)
    {
      files := files + 1;
    }

    /** `contains.folders++`. */
    method CountFolder()
      modifies this
      ensures folders == old(folders) + 1 && files == old(files)
    {
      folders := folders + 1;
    }
  }

  /** The inner `dirSizes` closure, on the directory whose listing is `cs`: every entry below
      bumps exactly one counter, so the counts grow by the files and folders below; the result
      is the flattened list of the sizes of every entry below, in pre-order, with zero sizes
      dropped by `filter(Boolean)`. */
  method DirSizes(contains: ContainsCounter, cs: seq<Entry>) returns (sizes: seq<nat>)
    modifies contains
    ensures contains.files == old(contains.files) + ForestFiles(cs)
    ensures contains.folders == old(contains.folders) + ForestFolders(cs)
    ensures sizes == NonZero(Sizes(DeepStats(cs)))
    decreases cs
  {
    ghost var files0, folders0 := contains.files, contains.folders;
    var statsList: seq<seq<nat>> := [];
    var i := 0;
    assert cs[..0] == [];
    while i < |cs|
      invariant 0 <= i <= |cs|
      invariant contains.files == files0 + ForestFiles(cs[..i])
      invariant contains.folders == folders0 + ForestFolders(cs[..i])
      invariant NonZero(Flatten(statsList)) == NonZero(Sizes(DeepStats(cs[..i])))
    {
      var chunk := SizesOfEntry(contains, cs[i]);
      WalkStep(cs, i, statsList, chunk);
      statsList := statsList + [chunk];
      i := i + 1;
    }
    assert cs[..i] == cs;
    sizes := NonZero(Flatten(statsList));
    assert sizes == NonZero(Sizes(DeepStats(cs)));
  }

  /** The callback `dirSizes` maps over the listing, for the entry `file`: a file bumps
      `files` and contributes `[size]`; a directory bumps `folders`, then is walked, and
      contributes `[size, ...dirSizes(file)]`. */
  method SizesOfEntry(contains: ContainsCounter, file: Entry) returns (chunk: seq<nat>)
    modifies contains
    ensures contains.files == old(contains.files) + Files(file)
    ensures contains.folders == old(contains.folders) + Folders(file)
    ensures NonZero(chunk) == NonZero(Sizes(Subtree(file)))
    decreases file, 0
  {
    var size := file.size;
    if file.File? {
      contains.CountFile();
      chunk := [size];
      FileChunk(file);
    } else {
      contains.CountFolder();
      var below := DirSizes(contains, file.children);
      chunk := [size] + below;
      DirChunk(file);
    }
  }

  /** The list a file contributes, `[size]`, keeps the nonzero sizes of its subtree. */
  lemma FileChunk(c: Entry)
    requires c.File?
    ensures NonZero([c.size]) == NonZero(Sizes(Subtree(c)))
  {
    assert Subtree(c) == [c];
  }

  /** The list a directory contributes, `[size, ...dirSizes(dir)]`, keeps, once zeros are
      dropped, the nonzero sizes of its subtree. */
  lemma DirChunk(c: Entry)
    requires c.Dir?
    ensures NonZero([c.size] + NonZero(Sizes(DeepStats(c.children))))
         == NonZero(Sizes(Subtree(c)))
  {
    var below := Sizes(DeepStats(c.children));
    NonZeroAppend([c.size], NonZero(below));
    NonZeroIdempotent(below);
    SizesAppend([c], DeepStats(c.children));
    NonZeroAppend([c.size], below);
  }

  /** One turn of the walk over the listing: the counts and the sizes of `cs[..i + 1]` are
      those of `cs[..i]` and those of the subtree of `cs[i]`. */
  lemma WalkStep(cs: seq<Entry>, i: nat, statsList: seq<seq<nat>>, chunk: seq<nat>)
    requires i < |cs|
    requires NonZero(Flatten(statsList)) == NonZero(Sizes(DeepStats(cs[..i])))
    requires NonZero(chunk) == NonZero(Sizes(Subtree(cs[i])))
    ensures ForestFiles(cs[..i + 1]) == ForestFiles(cs[..i]) + Files(cs[i])
    ensures ForestFolders(cs[..i + 1]) == ForestFolders(cs[..i]) + Folders(cs[i])
    ensures NonZero(Flatten(statsList + [chunk])) == NonZero(Sizes(DeepStats(cs[..i + 1])))
  {
    var before := Flatten(statsList);
    FlattenSnoc(statsList, chunk);
    DeepStatsSnoc(cs, i);
    ForestSnoc(cs, i);
    SizesAppend(DeepStats(cs[..i]), Subtree(cs[i]));
    NonZeroAppend(before, chunk);
    NonZeroAppend(Sizes(DeepStats(cs[..i])), Sizes(Subtree(cs[i])));
  }

  /** getSizeAndContainsSync (src/index.ts) and getSizeAndContains (src/utils.ts): a file
      yields its own size and no `contains`; a directory yields the sum of the stat sizes of
      every entry below it and the counts of the file and directory entries at any depth. */
  method GetSizeAndContainsSync(e: Entry) returns (r: SizeAndContains)
    ensures r == Aggregate(e)
  {
    if e.File? {
      return SizeAndContains(e.size, None);
    }
    var contains := new ContainsCounter();
    var sizes := DirSizes(contains, e.children);
    var dirSize := Sum(sizes);
    SumNonZero(Sizes(DeepStats(e.children)));
    DeepStatsSize(e.children);
    r := SizeAndContains(dirSize, Some(Contains(contains.files, contains.folders)));
  }

  /** The filter callback `stat => stat.isFile` of utils.ts: it returns the method itself
      without calling it, and a function object is always truthy. */
  function IsFileReference(stat: Entry): (keep: bool)
    ensures keep
  {
    true
  }

  /** getSizeAndContains of utils.ts: the counts are the lengths of the deep stat list filtered
      by `isFile()` and by `isDirectory()`; the size is the sum over that list filtered by the
      always-truthy `isFile` reference, so directory entries are summed too. The result is the
      same as that of the counter walk. */
  function GetSizeAndContains(e: Entry): (r: SizeAndContains)
    ensures r == Aggregate(e)
  {
    if e.File? then SizeAndContains(e.size, None)
    else
      var allStats := DeepStats(e.children);
      var contains := Contains(|Filter(allStats, IsFile)|, |Filter(allStats, IsDirectory)|);
      var folderSize := Sum(Sizes(Filter(allStats, IsFileReference)));
      DeepStatsCounts(e.children);
      DeepStatsSize(e.children);
      FilterAll(allStats, IsFileReference);
      SizeAndContains(folderSize, Some(contains))
  }
}
