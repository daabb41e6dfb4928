/**
 * The record of a path: statSync (src/index.ts) and getStats (utils.ts) derive the same fields
 * from the path string, its stat and its size-and-contains; statSync also lists the children of
 * a directory, and deepStatSync (src/index.ts) collects the records of a whole subtree.
 *
 * Node's `path.basename`, `path.extname`, `path.dirname`, `path.join` and `mime.getType` are not
 * part of this model: they are the opaque functions of a `PathLib`.
 */
module Stats {
  import opened Wrappers
  import opened JsString
  import opened FsTree
  import opened SizeAggregation
  import opened ByteFormat

  /** The path and MIME helpers the derivation calls. `basenameWithout(p, ext)` is
      `path.basename(p, ext)`; `getType` yields `None` for `null`. */
  datatype PathLib = PathLib(
    basename: string -> string,
    basenameWithout: (string, string) -> string,
    extname: string -> string,
    dirname: string -> string,
    join: (string, string) -> string,
    getType: string -> Option<string>)

  /** The fields statSync and getStats share (timestamps and the raw stat are not kept). A field
      the code sets to `undefined` is `None`. */
  datatype StatsProps = StatsProps(
    fileName: string,
    baseName: string,
    extension: Option<string>,
    directory: string,
    location: string,
    size: nat,
    sizePretty: string,
    kind: string,
    mimeType: Option<string>,
    isFile: bool,
    isDirectory: bool,
    containedFiles: Option<nat>,
    containedFolders: Option<nat>,
    contains: Option<Contains>,
    containsPretty: Option<string>)

  /** `path.basename(p, extension)`, with `extension` possibly undefined. */
  function BaseName(lib: PathLib, p: string, extension: Option<string>): string
  {
    match extension
    case None => lib.basename(p)
    case Some(ext) => lib.basenameWithout(p, ext)
  }

  /** `mime.getType(p) || '[unknown]'`: never empty. */
  function MimeType(lib: PathLib, p: string): (r: string)
    ensures r != ""
    ensures r == "[unknown]" <==> lib.getType(p) in {None, Some(""), Some("[unknown]")}
  {
    match lib.getType(p)
    case Some(t) => if t != "" then t else "[unknown]"
    case None => "[unknown]"
  }

  /** `` `${files} Files, ${folders} Folders` ``. */
  function ContainsPretty(c: Contains): (r: string)
    ensures |r| == |Decimal(c.files)| + |Decimal(c.folders)| + 16
    ensures r[..|Decimal(c.files)|] == Decimal(c.files)
    ensures r[|r| - 8..] == " Folders"
  {
    Decimal(c.files) + (" Files, " + (Decimal(c.folders) + " Folders"))
  }

  /** The summary loses nothing: two different counts never read the same. */
  lemma ContainsPrettyInjective(a: Contains, b: Contains)
    requires ContainsPretty(a) == ContainsPretty(b)
    ensures a == b
  {
    var tailA := " Files, " + (Decimal(a.folders) + " Folders");
    var tailB := " Files, " + (Decimal(b.folders) + " Folders");
    DecimalBeforeSpace(a.files, tailA, b.files, tailB);
    assert Decimal(a.folders) + " Folders" == tailA[8..];
    assert Decimal(b.folders) + " Folders" == tailB[8..];
    DecimalBeforeSpace(a.folders, " Folders", b.folders, " Folders");
  }

  /** A number rendered in front of a text that starts with a space is read back unambiguously. */
  lemma DecimalBeforeSpace(m: nat, t1: string, n: nat, t2: string)
    requires |t1| >= 1 && t1[0] == ' ' && |t2| >= 1 && t2[0] == ' '
    requires Decimal(m) + t1 == Decimal(n) + t2
    ensures m == n && t1 == t2
  {
    var d1, d2 := Decimal(m), Decimal(n);
    var s := d1 + t1;
    DigitsThenSpace(d1, t1);
    DigitsThenSpace(d2, t2);
    assert d1 == s[..|d1|] && d2 == s[..|d2|];
    DecimalInjective(m, n);
    assert t1 == s[|d1|..] && t2 == s[|d2|..];
  }

  /** The position of the first space, or the length when there is none. */
  function FirstSpace(s: string): (k: nat)
    ensures k <= |s|
  {
    if s == [] || s[0] == ' ' then 0 else 1 + FirstSpace(s[1..])
  }

  lemma {:induction false} DigitsThenSpace(d: string, t: string)
    requires AllDigits(d) && |t| >= 1 && t[0] == ' '
    ensures FirstSpace(d + t) == |d|
  {
    if d == [] {
      assert d + t == t;
    } else {
      assert (d + t)[0] == d[0];
      assert (d + t)[1..] == d[1..] + t;
      DigitsThenSpace(d[1..], t);
    }
  }

  /** The derivation shared by statSync, stat and getStats, for the path `p` whose stat is `e`
      and whose size-and-contains is `sc`. */
  function StatsOf(lib: PathLib, p: string, e: Entry, sc: SizeAndContains): (r: StatsProps)
    ensures r.isFile == e.File? && r.isDirectory == !r.isFile
    ensures r.kind == (if r.isFile then "File" else "Folder")
    ensures r.fileName == lib.basename(p) && r.baseName == BaseName(lib, p, r.extension)
    ensures r.extension == (if r.isFile then Some(lib.extname(p)) else None)
    ensures r.mimeType == (if r.isFile then Some(MimeType(lib, p)) else None)
    ensures r.mimeType.Some? ==> r.mimeType.value != ""
    ensures r.location == ReplaceBackslashes(p) && '\\' !in r.location && |r.location| == |p|
    ensures r.directory == ReplaceBackslashes(lib.dirname(p)) && '\\' !in r.directory
    ensures r.size == sc.size && r.sizePretty == ConvertBytes(sc.size, DefaultSizes, true)
    ensures r.contains == sc.contains
    ensures r.containedFiles.Some? <==> sc.contains.Some?
    ensures r.containedFolders.Some? <==> sc.contains.Some?
    ensures r.containsPretty.Some? <==> sc.contains.Some?
    ensures sc.contains.Some? ==>
              r.containedFiles == Some(sc.contains.value.files)
              && r.containedFolders == Some(sc.contains.value.folders)
              && r.containsPretty == Some(ContainsPretty(sc.contains.value))
  {
    var isFile := e.File?;
    var extension := if isFile then Some(lib.extname(p)) else None;
    StatsProps(
      fileName := lib.basename(p),
      baseName := BaseName(lib, p, extension),
      extension := extension,
      directory := ReplaceBackslashes(lib.dirname(p)),
      location := ReplaceBackslashes(p),
      size := sc.size,
      sizePretty := ConvertBytes(sc.size, DefaultSizes, true),
      kind := if isFile then "File" else "Folder",
      mimeType := if isFile then Some(MimeType(lib, p)) else None,
      isFile := isFile,
      isDirectory := !isFile,
      containedFiles := if sc.contains.Some? then Some(sc.contains.value.files) else None,
      containedFolders := if sc.contains.Some? then Some(sc.contains.value.folders) else None,
      contains := sc.contains,
      containsPretty := if sc.contains.Some? then Some(ContainsPretty(sc.contains.value)) else None)
  }

  /** What statSync returns: the derived fields and, for a directory, its listing. */
  datatype StatRecord = StatRecord(props: StatsProps, children: seq<Entry>)

  /** statSync (src/index.ts): the size and counts are those getSizeAndContainsSync computes,
      so the count fields are present exactly for a directory, where they count the file and
      directory entries at any depth and the size sums every entry below it. */
  function StatSync(lib: PathLib, p: string, e: Entry): (r: StatRecord)
    ensures r.props == StatsOf(lib, p, e, Aggregate(e))
    ensures r.props.containedFiles.Some? <==> e.Dir?
    ensures e.File? ==> r.props.size == e.size && r.children == []
    ensures e.Dir? ==>
              r.props.size == ForestSize(e.children)
              && r.props.containedFiles == Some(ForestFiles(e.children))
              && r.props.containedFolders == Some(ForestFolders(e.children))
              && r.children == e.children
  {
    StatRecord(StatsOf(lib, p, e, Aggregate(e)), if e.File? then [] else e.children)
  }

  /** getStats (utils.ts): the filter-and-count revision derives the same fields as statSync. */
  function GetStats(lib: PathLib, p: string, e: Entry): (r: StatsProps)
    ensures r == StatSync(lib, p, e).props
  {
    StatsOf(lib, p, e, GetSizeAndContains(e))
  }

  /** deepStatSync (src/index.ts): the record of the path, then, for a directory, the records of
      each child's subtree in listing order, the child's path joined onto the parent's. One
      record per entry of the subtree. */
  function DeepStatSync(lib: PathLib, p: string, e: Entry): (r: seq<StatRecord>)
    ensures |r| == Files(e) + Folders(e)
    ensures r[0] == StatSync(lib, p, e)
    ensures e.File? ==> r == [StatSync(lib, p, e)]
    decreases e, 1
  {
    var root := StatSync(lib, p, e);
    if root.props.isFile then [root]
    else [root] + DeepStatChildren(lib, p, root.children)
  }

  /** `children.map(file => deepStatSync(join(p, file.name))).flat()`. */
  function DeepStatChildren(lib: PathLib, p: string, cs: seq<Entry>): (r: seq<StatRecord>)
    ensures |r| == ForestFiles(cs) + ForestFolders(cs)
    decreases cs
  {
    if cs == [] then []
    else DeepStatSync(lib, lib.join(p, cs[0].name), cs[0]) + DeepStatChildren(lib, p, cs[1..])
  }

  // The order of the deep listing: every entry of the subtree with its path, in pre-order.

  function DeepPaths(join: (string, string) -> string, p: string, e: Entry): seq<(string, Entry)>
    decreases e, 1
  {
    [(p, e)] + (if e.Dir? then ForestPaths(join, p, e.children) else [])
  }

  function ForestPaths(join: (string, string) -> string, p: string, cs: seq<Entry>): seq<(string, Entry)>
    decreases cs
  {
    if cs == [] then [] else DeepPaths(join, join(p, cs[0].name), cs[0]) + ForestPaths(join, p, cs[1..])
  }

  function Entries(ps: seq<(string, Entry)>): (r: seq<Entry>)
    ensures |r| == |ps|
  {
    if ps == [] then [] else [ps[0].1] + Entries(ps[1..])
  }

  function StatAll(lib: PathLib, ps: seq<(string, Entry)>): (r: seq<StatRecord>)
    ensures |r| == |ps|
  {
    if ps == [] then [] else [StatSync(lib, ps[0].0, ps[0].1)] + StatAll(lib, ps[1..])
  }

  lemma {:induction false} EntriesAppend(a: seq<(string, Entry)>, b: seq<(string, Entry)>)
    ensures Entries(a + b) == Entries(a) + Entries(b)
  {
    if a == [] {
      assert a + b == b;
    } else {
      assert (a + b)[0] == a[0];
      assert (a + b)[1..] == a[1..] + b;
      EntriesAppend(a[1..], b);
    }
  }

  lemma {:induction false} StatAllAppend(lib: PathLib, a: seq<(string, Entry)>, b: seq<(string, Entry)>)
    ensures StatAll(lib, a + b) == StatAll(lib, a) + StatAll(lib, b)
  {
    if a == [] {
      assert a + b == b;
    } else {
      assert (a + b)[0] == a[0];
      assert (a + b)[1..] == a[1..] + b;
      StatAllAppend(lib, a[1..], b);
    }
  }

  /** The deep listing visits the entries in the order getDeepStats (utils.ts) lists them: the
      entry itself, then each child's subtree in listing order. */
  lemma {:induction false} DeepPathsPreorder(join: (string, string) -> string, p: string, e: Entry)
    ensures Entries(DeepPaths(join, p, e)) == Subtree(e)
    decreases e, 1
  {
    var below := if e.Dir? then ForestPaths(join, p, e.children) else [];
    EntriesAppend([(p, e)], below);
    if e.Dir? {
      ForestPathsPreorder(join, p, e.children);
    }
  }

  lemma {:induction false} ForestPathsPreorder(join: (string, string) -> string, p: string, cs: seq<Entry>)
    ensures Entries(ForestPaths(join, p, cs)) == DeepStats(cs)
    decreases cs
  {
    if cs != [] {
      DeepPathsPreorder(join, join(p, cs[0].name), cs[0]);
      ForestPathsPreorder(join, p, cs[1..]);
      EntriesAppend(DeepPaths(join, join(p, cs[0].name), cs[0]), ForestPaths(join, p, cs[1..]));
    }
  }

  /** deepStatSync is statSync applied to each path of the pre-order listing: its k-th record
      is that of the k-th entry getDeepStats would list (the root first). */
  lemma {:induction false} DeepStatSyncPreorder(lib: PathLib, p: string, e: Entry)
    ensures DeepStatSync(lib, p, e) == StatAll(lib, DeepPaths(lib.join, p, e))
    decreases e, 1
  {
    var below := if e.Dir? then ForestPaths(lib.join, p, e.children) else [];
    StatAllAppend(lib, [(p, e)], below);
    if e.Dir? {
      DeepStatChildrenPreorder(lib, p, e.children);
    }
  }

  lemma {:induction false} DeepStatChildrenPreorder(lib: PathLib, p: string, cs: seq<Entry>)
    ensures DeepStatChildren(lib, p, cs) == StatAll(lib, ForestPaths(lib.join, p, cs))
    decreases cs
  {
    if cs != [] {
      DeepStatSyncPreorder(lib, lib.join(p, cs[0].name), cs[0]);
      DeepStatChildrenPreorder(lib, p, cs[1..]);
      StatAllAppend(lib, DeepPaths(lib.join, lib.join(p, cs[0].name), cs[0]), ForestPaths(lib.join, p, cs[1..]));
    }
  }
}
