/** The first half of `upscale_image`, shared by the four image generators:
    decode the thumbnail and resize it to fit the 800x800 box, keeping the
    aspect ratio. Two generators then save one PNG with no size limit; the other
    two search for an encoding under 1 MiB (see `Recent` and `Simple`). */
module Upscaling {
  import opened Basics
  import opened Paths
  import opened Storage
  import opened Imaging
  import opened Pipeline

  const Box := Size(800, 800)

  /** The box-fitted size of the decoded thumbnail, or None when it does not
      decode or the aspect ratio divides by zero. */
  function UpscaledSize(c: Codec, data: Bytes): Option<Size> {
    match c.size(data)
    case None => None
    case Some(original) => FitBox(original, Box)
  }

  /** `upscale_image` of `generate_missing_images.py` and
      `generate_missing_images_limited.py`: one PNG at compression level 6 at
      the fitted size, returned whatever its size. */
  function UpscalePng(c: Codec, data: Bytes): Option<Bytes> {
    match UpscaledSize(c, data)
    case None => None
    case Some(size) => Encode(c, data, Attempt(Png(Some(6)), size.width, size.height))
  }

  /** The upscaled PNG is the level-6 encoding at a size inside the box whose
      longer side is exactly 800 pixels; no byte ceiling applies, so any size
      the encoder produces is returned. */
  lemma UpscalePngShape(c: Codec, data: Bytes)
    requires UpscalePng(c, data).Some?
    ensures c.size(data).Some?
    ensures var original := c.size(data).value;
      var size := UpscaledSize(c, data).value;
      && original.width > 0 && original.height > 0
      && Encode(c, data, Attempt(Png(Some(6)), size.width, size.height)) == UpscalePng(c, data)
      && size.width <= 800 && size.height <= 800
      && (original.width >= original.height ==> size.width == 800)
      && (original.width < original.height ==> size.height == 800)
  {
    var original := c.size(data).value;
    FitBoxBounds(original, Box);
    FitBoxSquare(original, 800);
  }

  /** A codec that reports a fixed size and turns every attempt into `n` bytes. */
  function Constant(side: nat, n: nat): Codec {
    Codec(_ => Some(Size(side, side)), (_, _) => Some(seq(n, _ => 0)))
  }

  /** Without a ceiling, the upscaled PNG can be of any size: here 2 MiB. */
  lemma UpscalePngUnbounded()
    ensures UpscalePng(Constant(100, 2 * 1024 * 1024), []) == Some(seq(2 * 1024 * 1024, _ => 0))
  {
    FitBoxSquare(Size(100, 100), 800);
  }

  // ---- Writing the event image ----

  /** Fetch the thumbnail (PNG before JPG) and write `event_image.png`, labelled
      `image/png` whatever the bytes are. */
  function ImageJob(collection: string, eventId: string): Job {
    Job(AssetPaths(collection, eventId, "event_thumbnail"), ObjectPath(collection, eventId, ImagePng), false)
  }

  /** `process_event` of the two generators that save one PNG. */
  function ProcessPng(b: Bucket, c: Codec, collection: string, eventId: string): Outcome<Bucket> {
    Run(b, ImageJob(collection, eventId), d => UpscalePng(c, d))
  }

  /** After a successful run `event_image.png` holds the level-6 PNG of the
      thumbnail that was fetched, labelled `image/png`, and the event image
      probe then succeeds. */
  lemma ProcessPngWritesImage(b: Bucket, c: Codec, collection: string, eventId: string)
    requires ProcessPng(b, c, collection, eventId).Ok?
    ensures var job := ImageJob(collection, eventId);
      var b' := ProcessPng(b, c, collection, eventId).value;
      && FetchFirst(b, job.sources).Some?
      && UpscalePng(c, FetchFirst(b, job.sources).value).Some?
      && var out := UpscalePng(c, FetchFirst(b, job.sources).value).value;
      && Download(b', job.target) == Ok(out)
      && b'.contentTypes[job.target] == "image/png"
      && HasEventImage(b', collection, eventId)
  {
    var job := ImageJob(collection, eventId);
    RunWrites(b, job, d => UpscalePng(c, d));
    var out := UpscalePng(c, FetchFirst(b, job.sources).value).value;
    assert ProcessPng(b, c, collection, eventId) == Upload(b, job.target, out, "image/png");
    UploadedImageIsFound(b, collection, eventId, out, "image/png");
  }

  /** The events processed one after another: the final bucket and how many succeeded. */
  function RunAllPng(b: Bucket, c: Codec, collection: string, events: seq<string>): (r: (Bucket, nat))
    ensures r.1 <= |events|
  {
    if events == [] then (b, 0)
    else
      var (b', n) := RunAllPng(b, c, collection, Front(events));
      match ProcessPng(b', c, collection, Last(events))
      case Ok(b'') => (b'', n + 1)
      case Raised => (b', n)
  }
}
