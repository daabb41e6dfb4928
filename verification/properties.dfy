/**
 * `properties` (index.ts): the record of a path merged with the details of the media kinds its
 * MIME type names. Details are asked for only when the MIME type contains "image", "audio" or
 * "video"; the records are spread in the order stats, image, audio, video, so a later one wins
 * a clash.
 *
 * getImageDetails and getVideoDetails are not part of this model: the records they would return
 * are inputs. The audio record is the one getAudioDetails shapes from the probe result.
 */
module Properties {
  import opened Wrappers
  import opened JsString
  import opened JsValue
  import opened FsTree
  import opened Stats
  import opened Audio

  function OptionalStr(o: Option<string>): Value
  {
    match o
    case Some(s) => Str(s)
    case None => Undefined
  }

  function OptionalNum(o: Option<nat>): Value
  {
    match o
    case Some(n) => Num(n)
    case None => Undefined
  }

  /** The scalar own properties of a getStats record (`contains`, `timestamps` and `stats`,
      which hold objects, are not kept). Every key is present, `undefined` or not. */
  function StatsFields(s: StatsProps): (f: Fields)
    ensures "isFile" in f && f["isFile"] == Bool(s.isFile)
    ensures "mimeType" in f && f["mimeType"] == OptionalStr(s.mimeType)
  {
    map[
      "fileName" := Str(s.fileName),
      "baseName" := Str(s.baseName),
      "extension" := OptionalStr(s.extension),
      "directory" := Str(s.directory),
      "location" := Str(s.location),
      "size" := Num(s.size),
      "sizePretty" := Str(s.sizePretty),
      "type" := Str(s.kind),
      "mimeType" := OptionalStr(s.mimeType),
      "isFile" := Bool(s.isFile),
      "isDirectory" := Bool(s.isDirectory),
      "containedFiles" := OptionalNum(s.containedFiles),
      "containedFolders" := OptionalNum(s.containedFolders),
      "containsPretty" := OptionalStr(s.containsPretty)]
  }

  /** Which detail calls `properties` makes. */
  datatype Requests = Requests(image: bool, audio: bool, video: bool)

  /** `stats.mimeType?.includes(kind)`, for each media kind: nothing for an undefined MIME type. */
  function RequestsFor(mimeType: Option<string>): (r: Requests)
    ensures mimeType.None? ==> r == Requests(false, false, false)
    ensures r.image <==> mimeType.Some? && exists k: nat :: OccursAt(mimeType.value, "image", k)
    ensures r.audio <==> mimeType.Some? && exists k: nat :: OccursAt(mimeType.value, "audio", k)
    ensures r.video <==> mimeType.Some? && exists k: nat :: OccursAt(mimeType.value, "video", k)
  {
    match mimeType
    case None => Requests(false, false, false)
    case Some(m) =>
      IncludesIff(m, "image");
      IncludesIff(m, "audio");
      IncludesIff(m, "video");
      Requests(Includes(m, "image"), Includes(m, "audio"), Includes(m, "video"))
  }

  /** A record the code asked for, or `{}`. */
  function Requested(asked: bool, details: Fields): Fields
  {
    if asked then details else map[]
  }

  /** `{ ...stats, ...image, ...audio, ...video }`, each detail record `{}` unless the MIME type
      of the stats asked for its kind. */
  function Merge(stats: StatsProps, image: Fields, audio: Fields, video: Fields): (r: Fields)
    ensures var req := RequestsFor(stats.mimeType);
            r.Keys == StatsFields(stats).Keys + Requested(req.image, image).Keys
                      + Requested(req.audio, audio).Keys + Requested(req.video, video).Keys
  {
    var req := RequestsFor(stats.mimeType);
    Spread(Spread(Spread(StatsFields(stats), Requested(req.image, image)), Requested(req.audio, audio)),
           Requested(req.video, video))
  }

  /** When the MIME type names no media kind, the merge is exactly the record of the path. */
  lemma MergeWithoutMedia(stats: StatsProps, image: Fields, audio: Fields, video: Fields)
    requires var m := stats.mimeType;
             m.None? || (!Includes(m.value, "image") && !Includes(m.value, "audio") && !Includes(m.value, "video"))
    ensures Merge(stats, image, audio, video) == StatsFields(stats)
  {
    assert RequestsFor(stats.mimeType) == Requests(false, false, false);
    var f := StatsFields(stats);
    assert Spread(Spread(Spread(f, map[]), map[]), map[]) == f;
  }

  /** On a key clash the video record wins over the audio record, which wins over the image
      record, which wins over the record of the path; a record not asked for takes no part. */
  lemma MergePrecedence(stats: StatsProps, image: Fields, audio: Fields, video: Fields, key: string)
    requires key in Merge(stats, image, audio, video)
    ensures var req := RequestsFor(stats.mimeType);
            Merge(stats, image, audio, video)[key]
            == (if req.video && key in video then video[key]
                else if req.audio && key in audio then audio[key]
                else if req.image && key in image then image[key]
                else StatsFields(stats)[key])
  {
  }

  /** `properties(fsPath)`: the stats of the path merged with the media details its MIME type
      asks for. `image` and `video` are the records the detail calls would return; `probe` is the
      media prober's answer, shaped into the audio details. */
  function GetProperties(lib: PathLib, p: string, e: Entry, image: Fields, probe: Option<ProbeData>,
                         humanize: int -> string, video: Fields): (r: Fields)
    ensures StatsFields(GetStats(lib, p, e)).Keys <= r.Keys
  {
    Merge(GetStats(lib, p, e), image, AudioFields(GetAudioDetails(probe, humanize)), video)
  }

  /** A directory has no MIME type, so it never receives media fields. */
  lemma PropertiesOfDirectory(lib: PathLib, p: string, e: Entry, image: Fields, probe: Option<ProbeData>,
                              humanize: int -> string, video: Fields)
    requires e.Dir?
    ensures GetProperties(lib, p, e, image, probe, humanize, video) == StatsFields(GetStats(lib, p, e))
  {
    MergeWithoutMedia(GetStats(lib, p, e), image, AudioFields(GetAudioDetails(probe, humanize)), video);
  }
}
