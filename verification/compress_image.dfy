/** `compressImage`: the media-type gate, the steps it asks of the browser,
    and the file it resolves with. The browser's reader, image decoder,
    canvas, encoder and clock are not modelled; what they return is an
    input (`Platform`). The read, decode, context, draw and encode requests
    are recorded in order as steps, so "fails before any read" can be
    stated; creating the canvas and reading the clock are not recorded. */
module CompressImage {
  import opened Wrappers
  import opened Files
  import opened WebpName
  import opened TargetSize

  /** The media types accepted, in the order the allowlist gives them. */
  const AllowedFileTypes: seq<string> := ["image/jpg", "image/jpeg", "image/png", "image/webp"]

  /** The media type every compressed file is given. */
  const OutputType: string := "image/webp"

  /** The quality passed to the encoder when the caller gives none. */
  const DefaultQuality: real := 1.0

  datatype CompressError =
    | UnsupportedFormat   // thrown synchronously, before a promise exists
    | NoCanvasContext     // the canvas has no 2d context
    | EmptyBlob           // the encoder produced no blob

  /** The text each failure carries: the message of the `Error` thrown for
      an unsupported format, and the bare string the promise is rejected
      with otherwise. */
  function Message(e: CompressError): (text: string) {
    match e
    case UnsupportedFormat => "Image format not supported"
    case NoCanvasContext => "Failed to get canva context"
    case EmptyBlob => "Failed to compress image"
  }

  /** The caller's arguments; `None` bounds and quality take the defaults. */
  datatype Params = Params(file: File, maxWidth: Option<nat>, maxHeight: Option<nat>, quality: Option<real>)

  /** What the browser does for this file: whether the reader delivers a
      data URL, the decoded image's size (`None` if it does not decode),
      whether a 2d context is available, what `toBlob` hands back, and the
      clock reading used for `lastModified`. */
  datatype Platform = Platform(
    readSucceeds: bool,
    decoded: Option<Dims>,
    hasContext: bool,
    blob: Option<seq<byte>>,
    now: int)

  /** A recorded request the compressor makes of the browser. */
  datatype Step =
    | ReadAsDataUrl
    | DecodeImage
    | GetContext
    | DrawImage(size: Dims)
    | EncodeWebp(quality: real)

  /** How a call ends. The reader and the image have no error handler, so a
      failed read or decode leaves the promise pending for ever. */
  datatype Settlement =
    | Threw(error: CompressError)
    | Rejected(error: CompressError)
    | Resolved(file: File)
    | Pending

  datatype Run = Run(settlement: Settlement, steps: seq<Step>)

  predicate IsAllowedFileType(mediaType: string) {
    mediaType in AllowedFileTypes
  }

  /** Bounds the model can divide by (see `TargetSize.ValidBound`). */
  predicate ValidParams(p: Params) {
    ValidBound(p.maxWidth) && ValidBound(p.maxHeight)
  }

  /** One call of `compressImage` against the given browser behaviour. */
  function Compress(p: Params, platform: Platform): (r: Run)
    requires ValidParams(p)
    ensures r.settlement.Threw? <==> !IsAllowedFileType(p.file.mediaType)
    ensures r.settlement.Threw? ==> r.settlement.error == UnsupportedFormat && r.steps == []
    ensures r.settlement.Resolved? ==>
      && r.settlement.file.name == ConvertToWebp(p.file.name)
      && r.settlement.file.mediaType == OutputType
      && r.settlement.file.lastModified == platform.now
      && platform.blob == Some(r.settlement.file.data)
    ensures r.settlement.Resolved? <==>
      && IsAllowedFileType(p.file.mediaType)
      && platform.readSucceeds
      && platform.decoded.Some?
      && platform.hasContext
      && platform.blob.Some?
    ensures r.settlement.Resolved? ==>
      r.steps == [ReadAsDataUrl, DecodeImage, GetContext,
                  DrawImage(TargetDims(platform.decoded.value, p.maxWidth, p.maxHeight)),
                  EncodeWebp(p.quality.GetOr(DefaultQuality))]
    ensures r.settlement.Pending? <==>
      IsAllowedFileType(p.file.mediaType) && (!platform.readSucceeds || platform.decoded.None?)
    ensures r.settlement.Pending? ==>
      r.steps == if platform.readSucceeds then [ReadAsDataUrl, DecodeImage] else [ReadAsDataUrl]
    ensures r.settlement.Rejected? <==>
      && IsAllowedFileType(p.file.mediaType)
      && platform.readSucceeds
      && platform.decoded.Some?
      && (!platform.hasContext || platform.blob.None?)
    ensures r.settlement.Rejected? ==>
      && (r.settlement.error == NoCanvasContext <==> !platform.hasContext)
      && (r.settlement.error == NoCanvasContext || r.settlement.error == EmptyBlob)
    ensures r.settlement.Rejected? && !platform.hasContext ==>
      r.steps == [ReadAsDataUrl, DecodeImage, GetContext]
    ensures r.settlement.Rejected? && platform.hasContext ==>
      r.steps == [ReadAsDataUrl, DecodeImage, GetContext,
                  DrawImage(TargetDims(platform.decoded.value, p.maxWidth, p.maxHeight)),
                  EncodeWebp(p.quality.GetOr(DefaultQuality))]
    ensures r.settlement.Threw? || r.settlement.Rejected? ==>
      Message(r.settlement.error) ==
        if r.settlement.Threw? then "Image format not supported"
        else if platform.hasContext then "Failed to compress image"
        else "Failed to get canva context"
  {
    if !IsAllowedFileType(p.file.mediaType) then
      Run(Threw(UnsupportedFormat), [])
    else if !platform.readSucceeds then
      Run(Pending, [ReadAsDataUrl])
    else if platform.decoded.None? then
      Run(Pending, [ReadAsDataUrl, DecodeImage])
    else
      var size := TargetDims(platform.decoded.value, p.maxWidth, p.maxHeight);
      if !platform.hasContext then
        Run(Rejected(NoCanvasContext), [ReadAsDataUrl, DecodeImage, GetContext])
      else
        var quality := p.quality.GetOr(DefaultQuality);
        var steps := [ReadAsDataUrl, DecodeImage, GetContext, DrawImage(size), EncodeWebp(quality)];
        match platform.blob
        case None => Run(Rejected(EmptyBlob), steps)
        case Some(blob) => Run(Resolved(File(ConvertToWebp(p.file.name), OutputType, platform.now, blob)), steps)
  }

  /** The gate admits exactly the four listed media types. */
  lemma GateAdmitsExactly(mediaType: string)
    ensures IsAllowedFileType(mediaType) <==>
      mediaType == "image/jpg" || mediaType == "image/jpeg" ||
      mediaType == "image/png" || mediaType == "image/webp"
  {
  }

  /** Any other media type throws before the file is read, decoded or
      encoded, whatever the browser would have done. */
  lemma UnsupportedTypeFailsBeforeAnyStep(p: Params, platform: Platform)
    requires ValidParams(p)
    requires !IsAllowedFileType(p.file.mediaType)
    ensures Compress(p, platform) == Run(Threw(UnsupportedFormat), [])
  {
  }

  /** An accepted media type never throws: the first thing done is to read
      the file. */
  lemma AllowedTypeIsRead(p: Params, platform: Platform)
    requires ValidParams(p)
    requires IsAllowedFileType(p.file.mediaType)
    ensures !Compress(p, platform).settlement.Threw?
    ensures |Compress(p, platform).steps| > 0 && Compress(p, platform).steps[0] == ReadAsDataUrl
  {
  }

  /** The picture is drawn no larger than decoded, with its dominant side
      within its bound. */
  lemma DrawnSizeBounded(p: Params, platform: Platform)
    requires ValidParams(p)
    requires Compress(p, platform).settlement.Resolved?
    ensures var size := Compress(p, platform).steps[3].size;
            var source := platform.decoded.value;
            && size.width <= source.width && size.height <= source.height
            && (source.width > source.height && p.maxWidth.Some? ==> size.width <= p.maxWidth.value)
            && (source.width <= source.height && p.maxHeight.Some? ==> size.height <= p.maxHeight.value)
  {
  }

  /** Compressing a compressed file again is never refused by the gate, and
      when it resolves it keeps the name the first pass gave. */
  lemma RecompressKeepsName(p: Params, first: Platform, second: Platform)
    requires ValidParams(p)
    requires Compress(p, first).settlement.Resolved?
    ensures var out := Compress(p, first).settlement.file;
            var again := Compress(p.(file := out), second);
            && !again.settlement.Threw?
            && (again.settlement.Resolved? ==> again.settlement.file.name == out.name)
  {
    ConvertToWebpIdempotent(p.file.name);
  }
}
