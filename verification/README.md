# FS-Props in Dafny

This project models the core of FS-Props, a TypeScript library that builds a property record for
a filesystem path. The record holds names, locations, size, a pretty size, MIME type, and for a
directory the number of files and folders it contains at any depth. When the MIME type names a
media kind, the record is merged with that media's details. Several revisions of the library sit
side by side in the repository (`src/index.ts`, `src/utils.ts`, `utils.ts` with `index.ts`), and
the model covers each revision's variant of the core.

Modules:

- `FsTree` is the tree the filesystem calls read. An `Entry` is a file or a directory, with its
  stat size and name; a directory also holds its listing.
  - The module gives reference counts and sizes over the tree (`Files`, `Folders`, `TotalSize`).
  - `DeepStats` is the pre-order list of stats below a directory, as `getDeepStats` builds it.
- `SizeAggregation` holds the two ways getSizeAndContains is computed, both proved equal to
  `Aggregate`:
  - the walk of `src/index.ts` and `src/utils.ts` over a shared `contains` counter object. The
    counter is a class updated in place, and the walk is a pair of methods with a loop.
  - the filter-and-count version of `utils.ts` over the deep stat list.
- `ByteFormat` is `convertBytes`:
  - the unit index is the exact floor of the base-1024 logarithm;
  - `toFixed(2)` is the nearest hundredth, ties rounding up;
  - the count of bytes is appended only when asked for.
- `Stats` is statSync and getStats, which derive the record's fields, and deepStatSync, which
  lists the records of a whole subtree in pre-order.
- `Image` covers the EXIF fallback chains of getImageDimensions and the two revisions of
  getImageResolution.
- `Audio` shapes getAudioDetails' record once the media prober has answered.
- `Properties` is `properties`: MIME substring dispatch, then the `{ ...stats, ...image, ...audio,
  ...video }` merge.
- `JsString`, `JsValue`, `JsArray` and `Wrappers` model the JavaScript semantics used:
  - `parseInt`, `includes`, `replace(/\\/g, "/")`;
  - truthiness, `??`, `||`, template rendering, object spread;
  - `flat`, `filter`, `reduce`.

The code is followed where its documentation says otherwise:

- **Directory size.** A directory's size sums the stat size of every entry below it,
  subdirectories included.
  - The counter walk adds `[size, ...sizes]` for a directory.
  - The `utils.ts` version filters by the method reference `stat.isFile`, which is always truthy,
    so nothing is dropped.
- **Units past the table.** `convertBytes` takes no precondition on its unit table. An index
  past the end of `sizes` renders as "undefined", since the template string is given
  `sizes[i]` of an absent element; `ByteFormat.Unit` models exactly that.
- **Several media kinds.** A MIME type that contains more than one of "image", "audio" and
  "video" gets every matching record merged, not just one.

## Model

| member | source | states |
|---|---|---|
| FsTree.DeepStats | utils.ts:15-33 | the deep stat list below a directory holds one stat per file or directory entry at any depth |
| FsTree.Subtree | utils.ts:23-27 | a child contributes its own stat first, then the stats below it; one stat per entry of its subtree |
| FsTree.DeepStatsSubtree | utils.ts:18-32 | pre-order: the k-th child's subtree sits between the subtrees of the children before and after it |
| FsTree.DeepStatsCounts | utils.ts:43-46 | filtering the deep stats by `isFile()` / `isDirectory()` counts exactly the file / directory entries at any depth |
| FsTree.DeepStatsSize | utils.ts:48 | the sum of the sizes in the deep stat list is the total size of every entry below |
| FsTree.ForestSnoc | src/index.ts:56-63 | the counts over the first i+1 children are those over the first i plus those of child i |
| SizeAggregation.ContainsCounter.constructor | src/index.ts:52 | a fresh counter holds `{ files: 0, folders: 0 }` |
| SizeAggregation.ContainsCounter.CountFile | src/index.ts:59 | `contains.files++` bumps the file count and leaves the folder count |
| SizeAggregation.ContainsCounter.CountFolder | src/index.ts:60 | `contains.folders++` bumps the folder count and leaves the file count |
| SizeAggregation.DirSizes | src/index.ts:54-65 | walking a listing adds to the counter exactly the files and folders below it, and returns the nonzero sizes of every entry below in pre-order |
| SizeAggregation.SizesOfEntry | src/index.ts:56-63 | one entry bumps the counter by the files and folders of its subtree, and its chunk holds the nonzero sizes of its subtree |
| SizeAggregation.WalkStep | src/index.ts:56-64 | one loop turn keeps the walk's invariant: counts and flattened sizes match the children walked so far |
| SizeAggregation.FileChunk | src/index.ts:59 | a file's chunk `[size]` is its subtree's size list |
| SizeAggregation.DirChunk | src/index.ts:60-62 | a directory's chunk `[size, ...sizes]` keeps the nonzero sizes of its subtree |
| SizeAggregation.GetSizeAndContainsSync | src/index.ts:47-70 | a file gives its size and no contains; a directory gives the total size below it and the file and folder counts at any depth |
| SizeAggregation.GetSizeAndContains | utils.ts:35-50 | the filter-and-count revision gives the same result as the counter walk |
| SizeAggregation.IsFileReference | utils.ts:48 | the callback `stat => stat.isFile` returns the method itself, truthy for every stat |
| JsArray.FilterAll | utils.ts:48 | a filter whose callback is always truthy keeps the list unchanged |
| JsArray.SumNonZero | src/index.ts:64-67 | dropping zero sizes with `filter(Boolean)` does not change their sum |
| JsArray.NonZeroKeeps | src/index.ts:64 | `filter(Boolean)` keeps exactly the nonzero sizes and never lengthens the list |
| JsArray.SumZero | src/index.ts:67 | the `reduce` total is zero exactly when every size is |
| JsArray.NonZeroIdempotent | src/index.ts:64 | filtering the zeros out twice is the same as once |
| JsArray.FlattenSnoc | src/index.ts:64 | flattening one more chunk appends that chunk |
| ByteFormat.UnitIndex | src/index.ts:187 | the unit index i satisfies 1024^i <= bytes < 1024^(i+1) |
| ByteFormat.UnitIndexUnique | src/index.ts:187 | only one index satisfies those bounds |
| ByteFormat.Hundredths | src/index.ts:189 | the hundredths are the nearest integer to 100·bytes/1024^i, ties rounding up |
| ByteFormat.HundredthsRange | src/index.ts:189 | for i >= 1 the scaled value lies between 1.00 and 1024.00 |
| ByteFormat.Fixed2 | src/index.ts:189 | the two-decimal rendering is digits, a dot and two digits, with a leading zero only below 1.00 |
| ByteFormat.Fixed2Value | src/index.ts:189 | reading the rendered digits without the dot gives back the hundredths |
| ByteFormat.Unit | src/index.ts:188-189 | `sizes[i]` inside the table; "undefined" exactly past its end (or for a table entry spelled so) |
| ByteFormat.ConvertBytes | src/index.ts:185-190 | the rendering starts with the digit 0 exactly when the count is zero |
| ByteFormat.ConvertBytesBelowKilo | src/utils.ts:81-84 | zero is "0 bytes"; below 1024 the count is shown with the first unit of the table |
| ByteFormat.ConvertBytesScaled | utils.ts:96-101 | from 1024 up: the scaled two-decimal value, the unit, and the exact count only when showBytes is set |
| ByteFormat.ConvertBytesShowBytes | src/index.ts:189 | showBytes only appends " (n bytes)", and only from 1024 up |
| JsString.Decimal | src/index.ts:188 | a count renders as digits with no leading zero |
| JsString.DecimalValue | src/index.ts:188 | reading a rendered count gives it back |
| JsString.DecimalInjective | src/index.ts:319 | different counts render differently |
| JsString.ParseIntDecimalPrefix | src/index.ts:230-231 | `parseInt` of a rendered count followed by a non-digit gives that count |
| JsString.ParseIntReads | src/index.ts:230-231 | `parseInt` is NaN exactly when no digit follows the white space and sign; otherwise the digit run's value, negative only after a minus |
| JsString.ParseIntRoundTrip | src/index.ts:230-231 | `parseInt` of a rendered integer gives it back |
| JsString.ReplaceBackslashes | src/index.ts:294-295 | replacing every backslash by a slash keeps the length, maps each character, and leaves no backslash |
| JsString.ReplaceBackslashesIdempotent | src/index.ts:294-295 | normalising a normalised path changes nothing |
| JsString.IncludesIff | index.ts:12-14 | `includes` holds exactly when the text occurs at some position |
| JsValue.NullishOr | src/index.ts:220-221 | `a ?? b` is a unless a is null or undefined |
| JsValue.Or | src/index.ts:230 | the logical or of two values is the first when it is truthy, the second otherwise |
| JsValue.Spread | index.ts:15 | a spread has the keys of both sides, the right side winning a clash |
| Stats.MimeType | src/index.ts:297 | the MIME type is never empty, and is "[unknown]" exactly when the lookup gives nothing, "" or "[unknown]" |
| Stats.ContainsPrettyInjective | src/index.ts:319 | "N Files, M Folders" determines both counts |
| Stats.DecimalBeforeSpace | src/index.ts:319 | a count rendered before a text starting with a space is read back unambiguously |
| Stats.StatsOf | src/index.ts:287-323 | the derived fields: file xor directory; kind; file and base name from the path helpers; extension and MIME type (with its "[unknown]" fallback) only for a file; location and directory with backslashes turned into slashes; pretty size; counts exactly when contains is present |
| Stats.ContainsPretty | src/index.ts:319 | "N Files, M Folders" starts with the file count and ends with " Folders" |
| Stats.StatSync | src/index.ts:287-323 | counts only for a directory, where they count everything below; children listed only for a directory |
| Stats.GetStats | utils.ts:150-184 | getStats derives the same record as statSync |
| Stats.DeepStatSync | src/index.ts:350-362 | one record per entry of the subtree, the path's own first; a file gives only its own |
| Stats.DeepStatChildren | src/index.ts:355-361 | the children's records number the entries below the directory |
| Stats.DeepPathsPreorder | src/index.ts:350-362 | the deep listing visits entries in the order getDeepStats lists them, root first |
| Stats.DeepStatSyncPreorder | src/index.ts:350-362 | deepStatSync is statSync applied to each path of the pre-order listing |
| Image.FirstDefined | src/index.ts:220-221 | a `??` chain settles on the first candidate that is neither null nor undefined, or on the last |
| Image.NullishChain | src/index.ts:220 | `a ?? b ?? c` is the first defined of the three |
| Image.FirstDefinedResolved | src/index.ts:223 | a chain ends on something other than undefined exactly when a candidate is defined or the last is null |
| Image.GetImageDimensions | src/index.ts:219-227 | width and height follow their tag chains; "W x H pixels" is present exactly when both resolved |
| Image.ResolutionOf | src/index.ts:230 | a resolution reading is a number or NaN |
| Image.ResolutionMissing | src/index.ts:230 | a missing or empty description reads as 0 |
| Image.ResolutionReadsNumber | utils.ts:198 | a description such as "72 dpi" reads as 72 |
| Image.GetImageResolution | src/index.ts:229-237 | "X x Y Dpi" is present exactly when a reading is a nonzero number |
| Image.GetImageResolutionAlways | src/utils.ts:108-116 | the `typeof` test never fails, so "X x Y Dpi" is always present |
| Image.ResolutionRevisions | utils.ts:197-205 | the revisions agree whenever src/index.ts shows a resolution; with no tags, only the older one shows "0 x 0 Dpi" |
| Audio.FindStream | utils.ts:277 | the first audio stream is chosen, or the empty stream when there is none |
| Audio.Channels | utils.ts:294 | "N (layout)" with a layout, N alone without one, "" without a channel count |
| Audio.GetAudioDetails | utils.ts:274-300 | a failed probe gives an empty record; duration and bitRate are the probe's `format.duration` and `bit_rate`, 0 when absent; the tags are title, album, artist, composer, genre and date; the pretty duration is the humanised milliseconds and the pretty bit rate uses the bit-rate units without the exact count, each present exactly when nonzero |
| Audio.TagField | utils.ts:284-289 | a tag the container does not carry is undefined |
| Audio.BitRatePrettyNoCount | utils.ts:293 | the pretty bit rate is the full rendering with the exact count removed |
| Audio.AudioFields | utils.ts:274-300 | the record is empty exactly when the probe failed |
| Properties.StatsFields | utils.ts:165-183 | the stats record carries isFile and mimeType as derived |
| Properties.RequestsFor | index.ts:12-14 | a kind's details are requested exactly when the MIME type is defined and contains the kind's name |
| Properties.Merge | index.ts:15 | the merged keys are those of the stats and of the requested detail records |
| Properties.MergeWithoutMedia | index.ts:11-15 | with no media kind in the MIME type, the result is the stats record |
| Properties.MergePrecedence | index.ts:15 | on a clash video wins over audio, audio over image, image over stats; unrequested records take no part |
| Properties.GetProperties | index.ts:10-16 | every key of the stats record is in the result |
| Properties.PropertiesOfDirectory | index.ts:10-16 | a directory never receives media fields |

## Left out

- File system access is not modelled. `stat`, `readdir` and the media probers are inputs: a
  tree of `Entry` values, a tag map and a probe result.
  - Unreadable paths, broken symlinks and errors thrown by `fs` are out of scope.
  - Only regular files and directories are modelled.
- `path.basename`, `path.extname`, `path.dirname`, `path.join` and `mime.getType` are opaque
  functions of a `PathLib`.
- The async twins are not modelled separately: getSizeAndContains and stat in `src/index.ts`,
  the async getSizeAndContains in `src/utils.ts`, and deepStat. They share the sync code's
  logic.
  - Interleaving under `Promise.all` is not modelled.
  - The counter's final counts do not depend on the order of the increments, but their order
    is not stated.
- Timestamps are not modelled: timeStamp, timeStampSync and getTimeStamps depend on the clock,
  locale and `moment`. The records therefore carry no timestamp fields, no `stats` field and
  no `metaData` field.
- `Properties.StatsFields` leaves out the object-valued `contains`, `timestamps` and `stats`
  keys of the getStats record.
- getVideoDetails and getImageDetails are not modelled beyond the two getters they call.
  - `eval` of the frame rate, `parseFloat`, and orientation/bit-depth/colour fields are left out.
  - Their records are inputs of `Properties.GetProperties`.
  - So are imageProps, audioProps and videoProps of `src/index.ts`.
- humanize-duration is a parameter of `Audio.GetAudioDetails`.
- Numbers are unbounded integers: no floating point, no 2^53 limit, no `-0`, no fractional
  durations.
- `ByteFormat.UnitIndex` is the exact floor of the logarithm. The source computes it as
  `Math.log(bytes) / Math.log(1024)` in floating point, whose rounding is not modelled.
  - Byte counts are natural numbers, so negative sizes are not modelled.
  - The division by a power of 1024 is exact in binary floating point, so the `toFixed(2)`
    rounding is modelled exactly.
- `JsString.ParseInt` skips tab, line feed, vertical tab, form feed, carriage return, space,
  U+00A0, U+FEFF, U+2028 and U+2029. The other Unicode space separators are not modelled.
- `Image.GetImageDimensions` treats EXIF values as scalars. Array-valued tags, and their
  rendering by template strings, are not modelled.
- The `!fsStats` branch of deepStatSync can never be taken, since statSync returns an object.
  The `filter(Boolean)` over the records removes nothing. Neither is modelled.
- Key order of the merged records is not kept (fields are maps).
- The command-line front ends (`bin.ts`, `src/bin.ts`) are not part of this model.
