# Upload widget: image compressor and upload store

A Dafny model of the decision logic of the Upload Widget web client:

- **Output name** (`WebpName`): `convertToWebp` replaces what follows the last
  dot of a file name with `.webp`, or appends `.webp` when there is no dot.
- **Target size** (`TargetSize`): the clamp `compressImage` applies to the
  decoded image before drawing it. When the image is wider than tall and its
  width exceeds `maxWidth`, the width becomes `maxWidth`. The height is then
  multiplied by `maxWidth / width`, but `width` already equals `maxWidth`, so
  the factor is exactly 1 and the height never changes. The height-dominant
  case (square images included) is the mirror image. The model keeps this
  behaviour and proves it: only the dominant side is clamped, and the aspect
  ratio is not kept.
- **Compression pipeline** (`CompressImage`): the allowlist of four media
  types is checked synchronously, before any promise exists. After that come
  the file read, the image decode, the canvas context request, the draw at
  the target size and the WebP encode. The file it resolves with has type
  `image/webp`, the converted name and the encoder's bytes. The browser
  collaborators are inputs (`Platform`). The read, decode, context, draw and
  encode requests are recorded in order as `Step`s, so "fails before any
  read" is a statement about an empty step list. Creating the canvas and
  reading the clock are not recorded.
- **Upload store** (`Uploads`): `addUploads` stores `{name, file}` under a
  fresh id for each file, in order, into a map that starts empty. The ids
  that `crypto.randomUUID()` would draw are passed in by the caller, one per
  file.

`Wrappers` holds `Option`, and `Files` holds the browser `File` reduced to a
name, a media type, a modification time and its bytes.

Behaviour of the code that the model keeps:

- The store holds only `name` and `file` per upload. It has no status, no
  byte progress and no cancellation.
- The side that is not clamped is never rescaled, as described above.
- The reader and the image have no error handler, so a failed read or decode
  leaves the promise pending for ever. This is `Settlement.Pending`.
- A missing 2d context or an empty blob rejects the promise with a bare
  string. This is `Settlement.Rejected`.
- An unsupported media type throws an `Error` synchronously, before any
  promise is returned. This is `Settlement.Threw`.

## Model

| member | source | states |
|---|---|---|
| WebpName.LastIndexOf | web/src/utils/compress-image.ts:9 | the position found holds a dot and no dot follows it; -1 exactly when the name has no dot |
| WebpName.ConvertToWebp | web/src/utils/compress-image.ts:8-16 | the result ends in `.webp`; a dot-free name gets `.webp` appended; otherwise the result keeps the name verbatim up to a dot after which the name has no further dot, and replaces the rest |
| WebpName.ReplacesLastExtension | web/src/utils/compress-image.ts:9-15 | for any stem (dots allowed) and a dot-free extension, `stem.extension` becomes `stem.webp` |
| WebpName.ConvertToWebpIdempotent | web/src/utils/compress-image.ts:8-16 | converting a converted name gives the same name |
| TargetSize.Rescale | web/src/utils/compress-image.ts:55 | multiplying the other side by `bound / side`, once `side` equals `bound`, leaves it unchanged |
| TargetSize.TargetDims | web/src/utils/compress-image.ts:48-62 | wider than tall: the width is clamped to `maxWidth` and the height kept; otherwise the height is clamped to `maxHeight` and the width kept; an infinite bound clamps nothing |
| TargetSize.TargetDimsNoLarger | web/src/utils/compress-image.ts:48-62 | neither output side exceeds the decoded side |
| TargetSize.DominantSideWithinBound | web/src/utils/compress-image.ts:52-62 | the dominant side of the output never exceeds its bound |
| TargetSize.WithinBoundUnchanged | web/src/utils/compress-image.ts:52-62 | when the dominant side is within its bound the size is unchanged |
| TargetSize.NonDominantSideMayExceedBound | web/src/utils/compress-image.ts:52-56 | 2000x1500 with both bounds 1000 gives 1000x1500, so the other side may stay above its bound |
| TargetSize.AspectRatioNotPreserved | web/src/utils/compress-image.ts:52-56 | 2000x1000 with both bounds 1000 gives 1000x1000: the height is not scaled down with the width |
| TargetSize.ShrinkingChangesAspectRatio | web/src/utils/compress-image.ts:52-62 | whenever the rule changes a picture of non-zero size, the output's width-to-height ratio differs from the source's |
| TargetSize.SecondPassMayShrinkAgain | web/src/utils/compress-image.ts:48-62 | applying the rule again to its own output with the same bounds can change it |
| CompressImage.Compress | web/src/utils/compress-image.ts:18-103 | throws exactly for a media type outside the allowlist, and then with no step taken; stays pending exactly when an allowed file fails to read or decode, with the steps taken so far; rejects exactly when the context is missing (after the context request, with no draw or encode) or the blob is empty (after context, draw and encode), with the matching message; resolves exactly when every step succeeds, with the file named by `convertToWebp`, typed `image/webp`, stamped with the clock and holding the encoder's bytes, after read, decode, context request, draw at the target size and encode at the given quality or 1 |
| CompressImage.GateAdmitsExactly | web/src/utils/compress-image.ts:24-31 | the gate admits `image/jpg`, `image/jpeg`, `image/png` and `image/webp` and nothing else |
| CompressImage.UnsupportedTypeFailsBeforeAnyStep | web/src/utils/compress-image.ts:31-33 | any other media type throws the unsupported-format error without reading, decoding or encoding, whatever the browser would do |
| CompressImage.AllowedTypeIsRead | web/src/utils/compress-image.ts:31-102 | an allowed type never throws and the first step is reading the file |
| CompressImage.DrawnSizeBounded | web/src/utils/compress-image.ts:48-74 | on success the canvas draw is no larger than the decoded image and its dominant side is within its bound |
| CompressImage.RecompressKeepsName | web/src/utils/compress-image.ts:24-90 | a compressed file passes the gate again, and compressing it again keeps its name |
| Uploads.AddUploadsKeys | web/src/store/uploads.ts:16-29 | after `addUploads` the keys are the previous keys plus the ids drawn |
| Uploads.AddUploadsKeepsOthers | web/src/store/uploads.ts:26-27 | entries whose key is not among the ids drawn are unchanged |
| Uploads.AddUploadsStoresFiles | web/src/store/uploads.ts:17-27 | each file is stored under its id as its own name and itself, unless a later file of the call drew the same id |
| Uploads.EveryFileRegistered | web/src/store/uploads.ts:17-27 | with pairwise distinct ids every file has its entry `{name: file.name, file}` |
| Uploads.AddUploadsGrowsByFileCount | web/src/store/uploads.ts:17-29 | with fresh, pairwise distinct ids the map grows by exactly the number of files |
| Uploads.AddNoUploads | web/src/store/uploads.ts:17 | an empty file list leaves the store as it is |
| Uploads.AddUploadsToInitialState | web/src/store/uploads.ts:16-33 | from the initial empty map, the keys are exactly the ids drawn, one per file |
| Uploads.AddUploadsConcat | web/src/store/uploads.ts:16-30 | two calls in a row store the same as one call with both file lists |

## Left out

- web/src/http/upload-file-to-storage.ts is not part of this model. It is a multipart POST with an abort signal and a progress pass-through, and has no logic of its own.
- The reader, the image decoder, the canvas and the encoder are not modelled. Their results are inputs of `Compress` (`Platform`): whether the read succeeds, the decoded size, whether a 2d context exists, and the blob. Pixels, drawing and the effect of `quality` on the bytes are not modelled.
- The asynchrony of the promise is not modelled. A call is reduced to how it settles and which steps it took.
- `Date.now()` is the `Platform.now` input. `crypto.randomUUID()` is the caller's id sequence, and the UUID format is not modelled.
- zustand's `create`/`set` and the change notifications to subscribers are not modelled. The store is a value, and `AddUploads` returns the next one.
- TargetSize.TargetDims: requires each bound to be infinite or a positive whole number. A zero bound makes the code divide zero by zero (NaN). Negative, fractional and NaN bounds are outside the model.
- CompressImage.Compress: inherits the same requirement on `maxWidth` and `maxHeight` through `ValidParams`. The quality, or 1 by default, is passed to the encode step, but its range and its effect on the bytes are not modelled.
- TargetSize.Rescale: computes on exact rationals and truncates toward zero, as the canvas does with a fractional size. Floating-point rounding is not modelled. With the factor identically 1, nothing depends on it.
- Statuses, byte progress, cancellation and aggregate progress are not modelled because the store code has none of them (see above).
- WebpName.LastIndexOf: counts positions in Unicode scalar values, while JavaScript counts UTF-16 code units. The index differs for names with characters outside the Basic Multilingual Plane, although `ConvertToWebp`'s result does not. Names holding lone surrogates, which JavaScript strings allow, cannot be represented.
- The insertion order of the JavaScript `Map` is not modelled. The source's map lists uploads in file order, and a reused key keeps its first position; `map<UploadId, Upload>` has no order.
- `state.uploads.set(...)` mutates the existing `Map` in place and returns the same object, so the store before and after a call share one map. The model's separate before and after values have no counterpart in the program; only the contents after the call are modelled.
