/**
 * getImageDimensions and getImageResolution: the fields an image's EXIF/XMP/ICC tags give its
 * details. getImageDimensions is the same in src/index.ts, utils.ts and src/utils.ts;
 * getImageResolution decides whether to render "X x Y Dpi" differently in src/index.ts
 * (`xResolution || yResolution`) and in utils.ts and src/utils.ts (`typeof ... !== "undefined"`).
 */
module Image {
  import opened Wrappers
  import opened JsString
  import opened JsValue

  /** A tag as the EXIF reader reports it: a raw `value` and a readable `description`. */
  datatype Tag = Tag(value: Value, description: Value)

  /** The tags read from the image, by name. */
  type Tags = map<string, Tag>

  /** `metaData[key]?.value`. */
  function TagValue(tags: Tags, key: string): Value
  {
    if key in tags then tags[key].value else Undefined
  }

  /** `metaData[key]?.description`. */
  function TagDescription(tags: Tags, key: string): Value
  {
    if key in tags then tags[key].description else Undefined
  }

  /** The value a chain `vs[0] ?? vs[1] ?? ...` settles on: the first candidate that is neither
      null nor undefined, or the last candidate when every one of them is. */
  function FirstDefined(vs: seq<Value>): (r: Value)
    requires |vs| >= 1
    ensures forall k :: 0 <= k < |vs| && !Nullish(vs[k]) && (forall j :: 0 <= j < k ==> Nullish(vs[j]))
              ==> r == vs[k]
    ensures (forall k :: 0 <= k < |vs| ==> Nullish(vs[k])) ==> r == vs[|vs| - 1]
  {
    if |vs| == 1 || !Nullish(vs[0]) then vs[0]
    else
      var r := FirstDefined(vs[1..]);
      assert forall k :: 1 <= k < |vs| ==> vs[1..][k - 1] == vs[k];
      r
  }

  /** `a ?? b ?? c` settles on the first defined of the three. */
  lemma NullishChain(a: Value, b: Value, c: Value)
    ensures NullishOr(NullishOr(a, b), c) == FirstDefined([a, b, c])
  {
    var vs := [a, b, c];
    if !Nullish(a) {
      assert !Nullish(vs[0]);
    } else if !Nullish(b) {
      assert Nullish(vs[0]) && !Nullish(vs[1]);
    } else if !Nullish(c) {
      assert Nullish(vs[0]) && Nullish(vs[1]) && !Nullish(vs[2]);
    } else {
      assert forall k :: 0 <= k < 3 ==> Nullish(vs[k]);
    }
  }

  /** A chain settles on something other than `undefined`: some candidate is defined, or the
      last one is `null` (`typeof null` is "object"). */
  predicate Resolved(vs: seq<Value>)
    requires |vs| >= 1
  {
    (exists k :: 0 <= k < |vs| && !Nullish(vs[k])) || vs[|vs| - 1].Null?
  }

  lemma FirstDefinedResolved(vs: seq<Value>)
    requires |vs| >= 1
    ensures !FirstDefined(vs).Undefined? <==> Resolved(vs)
  {
    var r := FirstDefined(vs);
    if exists k :: 0 <= k < |vs| && !Nullish(vs[k]) {
      var k := FirstNonNullish(vs);
      assert r == vs[k];
    }
  }

  /** The position of the first defined candidate, when there is one. */
  lemma FirstNonNullish(vs: seq<Value>) returns (k: nat)
    requires exists k :: 0 <= k < |vs| && !Nullish(vs[k])
    ensures k < |vs| && !Nullish(vs[k])
    ensures forall j :: 0 <= j < k ==> Nullish(vs[j])
  {
    k := 0;
    while Nullish(vs[k])
      invariant k < |vs|
      invariant forall j :: 0 <= j < k ==> Nullish(vs[j])
      invariant exists m :: k <= m < |vs| && !Nullish(vs[m])
      decreases |vs| - k
    {
      k := k + 1;
    }
  }

  /** The candidates for the width: `ImageWidth.value`, `"Image Width".description`,
      `PixelXDimension.value`. */
  function WidthCandidates(tags: Tags): seq<Value>
  {
    [TagValue(tags, "ImageWidth"), TagDescription(tags, "Image Width"), TagValue(tags, "PixelXDimension")]
  }

  /** The candidates for the height: `ImageLength.value`, `"Image Height".description`,
      `PixelYDimension.value`. */
  function HeightCandidates(tags: Tags): seq<Value>
  {
    [TagValue(tags, "ImageLength"), TagDescription(tags, "Image Height"), TagValue(tags, "PixelYDimension")]
  }

  /** `{ dimensions, width, height }`; `dimensions` is `undefined` when absent. */
  datatype Dimensions = Dimensions(dimensions: Option<string>, width: Value, height: Value)

  /** getImageDimensions: width and height each fall back along their chain of tags, and
      "W x H pixels" is present exactly when both chains resolved. */
  function GetImageDimensions(tags: Tags): (r: Dimensions)
    ensures r.width == FirstDefined(WidthCandidates(tags))
    ensures r.height == FirstDefined(HeightCandidates(tags))
    ensures r.dimensions.Some? <==> Resolved(WidthCandidates(tags)) && Resolved(HeightCandidates(tags))
    ensures r.dimensions.Some? ==> r.dimensions.value == Render(r.width) + " x " + Render(r.height) + " pixels"
  {
    var width := NullishOr(NullishOr(TagValue(tags, "ImageWidth"), TagDescription(tags, "Image Width")),
                           TagValue(tags, "PixelXDimension"));
    var height := NullishOr(NullishOr(TagValue(tags, "ImageLength"), TagDescription(tags, "Image Height")),
                            TagValue(tags, "PixelYDimension"));
    NullishChain(TagValue(tags, "ImageWidth"), TagDescription(tags, "Image Width"), TagValue(tags, "PixelXDimension"));
    NullishChain(TagValue(tags, "ImageLength"), TagDescription(tags, "Image Height"), TagValue(tags, "PixelYDimension"));
    FirstDefinedResolved(WidthCandidates(tags));
    FirstDefinedResolved(HeightCandidates(tags));
    Dimensions(
      if !width.Undefined? && !height.Undefined? then Some(Render(width) + " x " + Render(height) + " pixels") else None,
      width, height)
  }

  /** `parseInt(metaData[key]?.description || "0", 10)`: a number, possibly NaN. */
  function ResolutionOf(tags: Tags, key: string): (r: Value)
    ensures r.Num? || r.NaN?
  {
    FromParsed(ParseInt(Render(Or(TagDescription(tags, key), Str("0")))))
  }

  /** A missing (or empty) description counts as 0. */
  lemma ResolutionMissing(tags: Tags, key: string)
    requires !Truthy(TagDescription(tags, key))
    ensures ResolutionOf(tags, key) == Num(0)
  {
    assert Render(Or(TagDescription(tags, key), Str("0"))) == Decimal(0) + [];
    ParseIntDecimalPrefix(0, []);
  }

  /** A description that starts with a rendered number, as in "72 dpi", gives that number. */
  lemma ResolutionReadsNumber(tags: Tags, key: string, n: nat, rest: string)
    requires key in tags && tags[key].description == Str(Decimal(n) + rest)
    requires rest == [] || !IsDigit(rest[0])
    ensures ResolutionOf(tags, key) == Num(n)
  {
    assert Truthy(tags[key].description);
    ParseIntDecimalPrefix(n, rest);
  }

  /** `{ resolution, xResolution, yResolution }`; `resolution` is `undefined` when absent. */
  datatype Resolution = Resolution(resolution: Option<string>, xResolution: Value, yResolution: Value)

  function Dpi(x: Value, y: Value): string
  {
    Render(x) + " x " + Render(y) + " Dpi"
  }

  /** getImageResolution of src/index.ts: "X x Y Dpi" is present exactly when at least one of
      the two readings is a nonzero number. */
  function GetImageResolution(tags: Tags): (r: Resolution)
    ensures r.xResolution == ResolutionOf(tags, "XResolution")
    ensures r.yResolution == ResolutionOf(tags, "YResolution")
    ensures r.resolution.Some? <==> (r.xResolution.Num? && r.xResolution.n != 0)
                                    || (r.yResolution.Num? && r.yResolution.n != 0)
    ensures r.resolution.Some? ==> r.resolution.value == Dpi(r.xResolution, r.yResolution)
  {
    var x := ResolutionOf(tags, "XResolution");
    var y := ResolutionOf(tags, "YResolution");
    Resolution(if Truthy(x) || Truthy(y) then Some(Dpi(x, y)) else None, x, y)
  }

  /** getImageResolution of utils.ts and src/utils.ts: `typeof` of a number is never
      "undefined", so "X x Y Dpi" is always present. */
  function GetImageResolutionAlways(tags: Tags): (r: Resolution)
    ensures r.xResolution == ResolutionOf(tags, "XResolution")
    ensures r.yResolution == ResolutionOf(tags, "YResolution")
    ensures r.resolution == Some(Dpi(r.xResolution, r.yResolution))
  {
    var x := ResolutionOf(tags, "XResolution");
    var y := ResolutionOf(tags, "YResolution");
    Resolution(if !x.Undefined? && !y.Undefined? then Some(Dpi(x, y)) else None, x, y)
  }

  /** The two revisions differ only when neither reading is a nonzero number: an image without
      resolution tags gets no resolution from src/index.ts and "0 x 0 Dpi" from the others. */
  lemma ResolutionRevisions(tags: Tags)
    ensures GetImageResolution(tags).resolution.Some? ==> GetImageResolution(tags) == GetImageResolutionAlways(tags)
    ensures "XResolution" !in tags && "YResolution" !in tags ==>
              GetImageResolution(tags).resolution.None?
              && GetImageResolutionAlways(tags).resolution == Some("0 x 0 Dpi")
  {
    if "XResolution" !in tags && "YResolution" !in tags {
      ResolutionMissing(tags, "XResolution");
      ResolutionMissing(tags, "YResolution");
      assert DigitChar(0) == '0';
      assert Render(Num(0)) == "0";
      assert Dpi(Num(0), Num(0)) == "0 x 0 Dpi";
    }
  }
}
