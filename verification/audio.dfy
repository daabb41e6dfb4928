/**
 * The shaping of an audio file's details in getAudioDetails (utils.ts), once the media prober
 * has answered: the first audio stream, the container's tags, duration and bit rate become the
 * fields of the record. The prober itself and the duration humaniser are outside the model:
 * the probe result is an input (`None` when the probe failed) and the humaniser a parameter.
 */
module Audio {
  import opened Wrappers
  import opened JsString
  import opened JsValue
  import opened ByteFormat

  /** The stream fields the shaping reads: `codec_type`, `channels`, `channel_layout`. */
  datatype Stream = Stream(codecType: Option<string>, channels: Option<int>, channelLayout: Option<string>)

  /** The container fields it reads: `tags`, `duration` (seconds) and `bit_rate`. */
  datatype Format = Format(tags: Option<Fields>, duration: Option<int>, bitRate: Option<nat>)

  datatype ProbeData = ProbeData(streams: seq<Stream>, format: Format)

  /** `{}` read as a stream: every field undefined. */
  const EmptyStream := Stream(None, None, None)

  /** `streams.find(st => st.codec_type === codecType) || {}`: the first stream of that type,
      or the empty stream when there is none. */
  function FindStream(streams: seq<Stream>, codecType: string): (r: Stream)
    ensures forall k :: 0 <= k < |streams| && streams[k].codecType == Some(codecType)
              && (forall j :: 0 <= j < k ==> streams[j].codecType != Some(codecType))
              ==> r == streams[k]
    ensures (forall k :: 0 <= k < |streams| ==> streams[k].codecType != Some(codecType)) ==> r == EmptyStream
  {
    if streams == [] then EmptyStream
    else if streams[0].codecType == Some(codecType) then streams[0]
    else
      var r := FindStream(streams[1..], codecType);
      assert forall k :: 1 <= k < |streams| ==> streams[1..][k - 1] == streams[k];
      r
  }

  /** The `channels` field: "N (layout)" with a nonempty layout, the number N alone without
      one, and "" when the stream reports no channel count. */
  function Channels(audio: Stream): (r: Value)
    ensures audio.channels.None? ==> r == Str("")
    ensures (audio.channels.Some? && audio.channelLayout.Some? && audio.channelLayout.value != "") ==>
              r == Str(IntToString(audio.channels.value) + " (" + audio.channelLayout.value + ")")
    ensures (audio.channels.Some? && (audio.channelLayout.None? || audio.channelLayout.value == "")) ==>
              r == Num(audio.channels.value)
  {
    match audio.channels
    case None => Str("")
    case Some(n) =>
      match audio.channelLayout
      case Some(layout) => if layout != "" then Str(IntToString(n) + " (" + layout + ")") else Num(n)
      case None => Num(n)
  }

  /** The record getAudioDetails returns; the raw probe result (`metaData`) is not kept. */
  datatype AudioProps = AudioProps(
    isAudio: bool,
    title: Value,
    album: Value,
    artist: Value,
    composer: Value,
    genre: Value,
    year: Value,
    duration: int,
    durationPretty: Option<string>,
    bitRate: nat,
    bitRatePretty: Option<string>,
    channels: Value)

  /** `tags[key]`: `undefined` for a tag the container does not carry. */
  function TagField(tags: Fields, key: string): (v: Value)
    ensures key !in tags ==> v == Undefined
    ensures key in tags ==> v == tags[key]
  {
    if key in tags then tags[key] else Undefined
  }

  /** getAudioDetails after the probe: `None` (an empty record) when the probe failed. The
      pretty duration is present exactly when the duration is nonzero, the pretty bit rate
      exactly when the bit rate is, and the latter never carries the exact count. */
  function GetAudioDetails(probe: Option<ProbeData>, humanize: int -> string): (r: Option<AudioProps>)
    ensures r.Some? <==> probe.Some?
    ensures r.Some? ==> r.value.isAudio
    ensures r.Some? ==> r.value.duration == probe.value.format.duration.GetOr(0)
                        && r.value.bitRate == probe.value.format.bitRate.GetOr(0)
    ensures r.Some? ==> var tags := probe.value.format.tags.GetOr(map[]);
                        r.value.title == TagField(tags, "title") && r.value.album == TagField(tags, "album")
                        && r.value.artist == TagField(tags, "artist") && r.value.composer == TagField(tags, "composer")
                        && r.value.genre == TagField(tags, "genre") && r.value.year == TagField(tags, "date")
    ensures r.Some? ==> (r.value.durationPretty.Some? <==> r.value.duration != 0)
    ensures r.Some? && r.value.duration != 0 ==> r.value.durationPretty == Some(humanize(r.value.duration * 1000))
    ensures r.Some? ==> (r.value.bitRatePretty.Some? <==> r.value.bitRate != 0)
    ensures r.Some? && r.value.bitRatePretty.Some? ==>
              r.value.bitRatePretty.value == ConvertBytes(r.value.bitRate, BitRateSizes, false)
    ensures r.Some? ==> r.value.channels == Channels(FindStream(probe.value.streams, "audio"))
  {
    match probe
    case None => None
    case Some(metaData) =>
      var audio := FindStream(metaData.streams, "audio");
      var tags := metaData.format.tags.GetOr(map[]);
      var duration := metaData.format.duration.GetOr(0);
      var bitRate := metaData.format.bitRate.GetOr(0);
      Some(AudioProps(
        isAudio := true,
        title := TagField(tags, "title"),
        album := TagField(tags, "album"),
        artist := TagField(tags, "artist"),
        composer := TagField(tags, "composer"),
        genre := TagField(tags, "genre"),
        year := TagField(tags, "date"),
        duration := duration,
        durationPretty := if duration != 0 then Some(humanize(duration * 1000)) else None,
        bitRate := bitRate,
        bitRatePretty := if bitRate != 0 then Some(ConvertBytes(bitRate, BitRateSizes, false)) else None,
        channels := Channels(audio)))
  }

  /** The bit rate shown never ends in the exact count: with `showBytes` off, the rendering is
      the full one with its " (<n> bytes)" suffix removed. */
  lemma BitRatePrettyNoCount(probe: ProbeData, humanize: int -> string)
    requires GetAudioDetails(Some(probe), humanize).value.bitRatePretty.Some?
    ensures var a := GetAudioDetails(Some(probe), humanize).value;
            ConvertBytes(a.bitRate, BitRateSizes, true)
            == a.bitRatePretty.value + (if a.bitRate >= 1024 then " (" + Decimal(a.bitRate) + " bytes)" else "")
  {
    var a := GetAudioDetails(Some(probe), humanize).value;
    ConvertBytesShowBytes(a.bitRate, BitRateSizes);
  }

  /** The record's own enumerable properties, for the merge of `properties`. A failed probe
      gives `{}`. */
  function AudioFields(r: Option<AudioProps>): (f: Fields)
    ensures r.None? <==> f == map[]
  {
    match r
    case None => map[]
    case Some(a) =>
      var f := map[
        "isAudio" := Bool(a.isAudio),
        "title" := a.title,
        "album" := a.album,
        "artist" := a.artist,
        "composer" := a.composer,
        "genre" := a.genre,
        "year" := a.year,
        "duration" := Num(a.duration),
        "durationPretty" := (match a.durationPretty case Some(s) => Str(s) case None => Undefined),
        "bitRate" := Num(a.bitRate),
        "bitRatePretty" := (match a.bitRatePretty case Some(s) => Str(s) case None => Undefined),
        "channels" := a.channels];
      assert "isAudio" in f;
      f
  }
}
