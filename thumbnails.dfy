/** `generate_thumbnails.py`: find events that have an event image but no
    thumbnail, make a thumbnail of at most 400 pixels on its longer side that
    aims at 63 KiB, and upload it as `event_thumbnail.png`. */
module Thumbnails {
  import opened Basics
  import opened Paths
  import opened Storage
  import opened Classifier
  import opened Imaging
  import opened Pipeline

  const MaxDimension: nat := 400
  const MinSide: nat := 100
  const TargetSize: nat := 63 * 1024

  // ---- Which events need a thumbnail ----

  /** `get_events_needing_thumbnails`: the events with an image and no
      thumbnail, in first-seen order; a listing that raises gives no events. */
  function EventsNeedingThumbnails(listing: Outcome<seq<Blob>>): seq<string> {
    match listing
    case Raised => []
    case Ok(blobs) =>
      var t := Classify(blobs);
      SelectIds(t.ids, t.entries, OnlyImage)
  }

  /** An event is selected exactly when the listing names an event image for it
      and no thumbnail; each event once, in the order the listing first names it. */
  lemma EventsNeedingThumbnailsExact(blobs: seq<Blob>)
    ensures var r := EventsNeedingThumbnails(Ok(blobs));
      && Distinct(r)
      && Subsequence(r, EventIds(blobs))
      && forall e :: e in r <==> HasImageBlob(blobs, e) && !HasThumbnailBlob(blobs, e)
  {
    var t := Classify(blobs);
    ClassifyExact(blobs);
    SelectIdsDistinct(t.ids, t.entries, OnlyImage);
    SelectIdsOrder(t.ids, t.entries, OnlyImage);
    forall e | HasImageBlob(blobs, e) ensures Mentions(blobs, e) {
      var k :| 0 <= k < |blobs| && ImageBlobOf(blobs[k], e);
      assert EventOf(blobs[k]) == Some(e);
    }
  }

  /** The scan loop of `get_events_needing_thumbnails`. */
  method GetEventsNeedingThumbnails(listing: Outcome<seq<Blob>>) returns (needing: seq<string>)
    ensures needing == EventsNeedingThumbnails(listing)
  {
    if listing.Raised? {
      return [];
    }
    var ids, events := GroupEvents(listing.value);
    needing := [];
    for i := 0 to |ids|
      invariant needing == SelectIds(ids[..i], events, OnlyImage)
    {
      assert Front(ids[..i + 1]) == ids[..i] && Last(ids[..i + 1]) == ids[i];
      var e := ids[i];
      if e in events && events[e].hasImage && !events[e].hasThumbnail {
        needing := needing + [e];
      }
    }
    assert ids[..|ids|] == ids;
  }

  // ---- Thumbnail size ----

  /** The resize before the search: the longer side is capped at 400 pixels and
      the other side follows the aspect ratio, truncated. A zero height divides
      by zero. */
  function ThumbnailSize(s: Size): Option<Size> {
    if s.height == 0 then None
    else if s.width >= s.height then
      var w := Min(MaxDimension, s.width);
      Some(Size(w, Ratio(w, s.height, s.width)))
    else
      var h := Min(MaxDimension, s.height);
      Some(Size(Ratio(h, s.width, s.height), h))
  }

  /** Scaling a side `w <= b` by `a / b` with `a <= b`, truncated: the result is
      at most `a` and at most `w`, it is the floor of the exact ratio, and a
      full-size side keeps its partner unchanged. */
  lemma ScaleDown(w: nat, a: nat, b: nat)
    requires a <= b && 0 < b && w <= b
    ensures var h := Ratio(w, a, b);
      && h <= a && h <= w
      && h * b <= w * a < (h + 1) * b
      && (w == b ==> h == a)
  {
    var h := Ratio(w, a, b);
    FloorBound(h, w, a, b);
    FloorBound(h + 1, w, a, b);
    MulMonotone(w, b, a);
    assert (a + 1) * b == a * b + b;
    FloorBound(a + 1, w, a, b);
    MulMonotone(a, b, w);
    assert (w + 1) * b == w * b + b;
    FloorBound(w + 1, w, a, b);
    if w == b {
      FloorBound(a, w, a, b);
    }
  }

  lemma ThumbnailSizeLandscape(s: Size)
    requires s.width >= s.height > 0
    ensures ThumbnailSize(s).Some?
    ensures var r := ThumbnailSize(s).value;
      && r.width == Min(MaxDimension, s.width) && r.height <= s.height && r.height <= r.width
      && r.height * s.width <= r.width * s.height < (r.height + 1) * s.width
      && (s.width <= MaxDimension ==> r == s)
  {
    ScaleDown(Min(MaxDimension, s.width), s.height, s.width);
  }

  lemma ThumbnailSizePortrait(s: Size)
    requires s.height > s.width
    ensures ThumbnailSize(s).Some?
    ensures var r := ThumbnailSize(s).value;
      && r.height == Min(MaxDimension, s.height) && r.width <= s.width && r.width <= r.height
      && r.width * s.height <= r.height * s.width < (r.width + 1) * s.height
      && (s.height <= MaxDimension ==> r == s)
  {
    ScaleDown(Min(MaxDimension, s.height), s.width, s.height);
  }

  /** The thumbnail never exceeds 400 pixels a side nor the original; its longer
      side is the original's capped at 400; the aspect ratio is kept up to the
      truncation of the shorter side; images within 400 pixels keep their size. */
  lemma ThumbnailSizeBounds(s: Size)
    ensures ThumbnailSize(s).Some? <==> s.height > 0
    ensures ThumbnailSize(s).Some? ==>
      var r := ThumbnailSize(s).value;
      && r.width <= MaxDimension && r.height <= MaxDimension
      && r.width <= s.width && r.height <= s.height
      && (s.width >= s.height ==> (r.width == Min(MaxDimension, s.width)
            && r.height * s.width <= r.width * s.height < (r.height + 1) * s.width))
      && (s.width < s.height ==> (r.height == Min(MaxDimension, s.height)
            && r.width * s.height <= r.height * s.width < (r.width + 1) * s.height))
      && (s.width <= MaxDimension && s.height <= MaxDimension ==> r == s)
  {
    if s.width >= s.height > 0 {
      ThumbnailSizeLandscape(s);
    } else if s.height > s.width {
      ThumbnailSizePortrait(s);
    }
  }

  // ---- The search schedule ----

  /** The qualities the loop passes through within one scale. */
  predicate OnLadder(q: nat) {
    q == 85 || q == 75 || q == 65 || q == 55 || q == 45 || q == 40 || q == 35 || q == 30 || q == 25
  }

  /** The attempts still to be made from quality `q` at a scale of `tenths`
      tenths, in order: a PNG and then a JPEG at each step, the quality dropping
      by 10 above 50 and by 5 above 25, and the scale dropping by a tenth (the
      quality back at 85) after 25. The loop stops when a scaled side falls
      under 100 pixels. The scale is a float decremented by 0.1, and after
      seven steps it is 0.30000000000000016, still above 0.3: the scales tried
      are 1.0 down to 0.3, which is `tenths > 2` here. */
  function Attempts(base: Size, q: nat, tenths: nat): seq<Attempt>
    decreases tenths, q
  {
    if !(q > 15 && tenths > 2) then []
    else
      var w := Scaled(base.width, tenths);
      var h := Scaled(base.height, tenths);
      if w < MinSide || h < MinSide then []
      else
        var rest := if q > 50 then Attempts(base, q - 10, tenths)
                    else if q > 25 then Attempts(base, q - 5, tenths)
                    else Attempts(base, 85, tenths - 1);
        [Attempt(Png(None), w, h), Attempt(Jpeg(q), w, h)] + rest
  }

  /** How many attempts are left at the current scale from quality `q`. */
  function LadderRank(q: nat): nat
    requires OnLadder(q)
  {
    if q > 50 then (q - 55) / 10 + 6 else (q - 25) / 5 + 1
  }

  /** Every attempt is a default PNG or a JPEG of quality 25 to 85, at a size of
      at least 100 pixels a side and no larger than the resized image, and
      there are at most two per quality step: 144 in all from the start. */
  lemma {:induction false} AttemptsShape(base: Size, q: nat, tenths: nat)
    requires OnLadder(q) && tenths <= 10
    ensures var a := Attempts(base, q, tenths);
      && |a| <= 2 * (LadderRank(q) + 9 * (if tenths >= 3 then tenths - 3 else 0))
      && forall i :: 0 <= i < |a| ==>
        && MinSide <= a[i].width <= base.width && MinSide <= a[i].height <= base.height
        && (a[i].format == Png(None) || (a[i].format.Jpeg? && 25 <= a[i].format.quality <= 85))
    decreases tenths, q
  {
    if q > 15 && tenths > 2 {
      var w := Scaled(base.width, tenths);
      var h := Scaled(base.height, tenths);
      ScaledAtMost(base, tenths);
      LadderStep(q);
      if w >= MinSide && h >= MinSide {
        if q > 50 {
          AttemptsShape(base, q - 10, tenths);
        } else if q > 25 {
          AttemptsShape(base, q - 5, tenths);
        } else {
          AttemptsShape(base, 85, tenths - 1);
        }
      }
    }
  }

  /** When even the 0.3 scale keeps both sides at 100 pixels or more, no scale
      breaks the loop early: every quality step of every scale down to 0.3 is
      tried, two attempts each. */
  lemma {:induction false} AttemptsFull(base: Size, q: nat, tenths: nat)
    requires OnLadder(q) && tenths >= 3
    requires Scaled(base.width, 3) >= MinSide && Scaled(base.height, 3) >= MinSide
    ensures |Attempts(base, q, tenths)| == 2 * (LadderRank(q) + 9 * (tenths - 3))
    decreases tenths, q
  {
    ScaledMonotone(base.width, 3, tenths);
    ScaledMonotone(base.height, 3, tenths);
    LadderStep(q);
    var n := 9 * (tenths - 3);
    if q > 50 {
      AttemptsFull(base, q - 10, tenths);
      assert |Attempts(base, q, tenths)| == 2 + |Attempts(base, q - 10, tenths)|;
    } else if q > 25 {
      AttemptsFull(base, q - 5, tenths);
      assert |Attempts(base, q, tenths)| == 2 + |Attempts(base, q - 5, tenths)|;
    } else if tenths > 3 {
      AttemptsFull(base, 85, tenths - 1);
      assert |Attempts(base, q, tenths)| == 2 + |Attempts(base, 85, tenths - 1)|;
      assert 9 * (tenths - 1 - 3) == n - 9;
    } else {
      assert Attempts(base, 85, tenths - 1) == [];
    }
  }

  /** One quality step down the ladder leaves one step fewer at this scale. */
  lemma LadderStep(q: nat)
    requires OnLadder(q)
    ensures q > 50 ==> OnLadder(q - 10) && LadderRank(q - 10) + 1 == LadderRank(q)
    ensures 25 < q <= 50 ==> OnLadder(q - 5) && LadderRank(q - 5) + 1 == LadderRank(q)
    ensures q <= 25 ==> q == 25 && LadderRank(q) == 1 && LadderRank(85) == 9
  {
  }

  /** The loop ends only at the 0.3 floor or at a side under 100 pixels, so
      from the start there are at most 144 attempts, and exactly 144 when the
      0.3 scale is still large enough. */
  lemma AttemptCount(base: Size)
    ensures |Attempts(base, 85, 10)| <= 144
    ensures Scaled(base.width, 3) >= MinSide && Scaled(base.height, 3) >= MinSide ==> |Attempts(base, 85, 10)| == 144
  {
    AttemptsShape(base, 85, 10);
    if Scaled(base.width, 3) >= MinSide && Scaled(base.height, 3) >= MinSide {
      AttemptsFull(base, 85, 10);
    }
  }

  /** At even positions a PNG with default settings, and right after it a JPEG
      of the same size. */
  ghost predicate Paired(a: seq<Attempt>) {
    && |a| % 2 == 0
    && (forall i :: 0 <= i < |a| ==> (a[i].format == Png(None) <==> i % 2 == 0))
    && (forall i :: 0 <= i < |a| && i % 2 == 0 ==>
          i + 1 < |a| && a[i + 1].format.Jpeg? && a[i + 1].width == a[i].width && a[i + 1].height == a[i].height)
  }

  lemma PairedCons(w: nat, h: nat, q: nat, rest: seq<Attempt>)
    requires Paired(rest)
    ensures Paired([Attempt(Png(None), w, h), Attempt(Jpeg(q), w, h)] + rest)
  {
    var a := [Attempt(Png(None), w, h), Attempt(Jpeg(q), w, h)] + rest;
    forall i | 0 <= i < |a|
      ensures a[i].format == Png(None) <==> i % 2 == 0
    {
      if i >= 2 {
        assert a[i] == rest[i - 2];
        ParityShift(i);
      }
    }
    forall i | 0 <= i < |a| && i % 2 == 0
      ensures i + 1 < |a| && a[i + 1].format.Jpeg? && a[i + 1].width == a[i].width && a[i + 1].height == a[i].height
    {
      if i >= 2 {
        ParityShift(i);
        assert a[i] == rest[i - 2] && a[i + 1] == rest[i - 1];
      }
    }
  }

  lemma ParityShift(i: nat)
    requires i >= 2
    ensures i % 2 == (i - 2) % 2
  {
  }

  /** Attempts come in pairs: a PNG and then a JPEG of the same size. */
  lemma {:induction false} AttemptsPaired(base: Size, q: nat, tenths: nat)
    ensures Paired(Attempts(base, q, tenths))
    decreases tenths, q
  {
    if q > 15 && tenths > 2 && Scaled(base.width, tenths) >= MinSide && Scaled(base.height, tenths) >= MinSide {
      var rest := if q > 50 then Attempts(base, q - 10, tenths)
                  else if q > 25 then Attempts(base, q - 5, tenths)
                  else Attempts(base, 85, tenths - 1);
      if q > 50 {
        AttemptsPaired(base, q - 10, tenths);
      } else if q > 25 {
        AttemptsPaired(base, q - 5, tenths);
      } else {
        AttemptsPaired(base, 85, tenths - 1);
      }
      PairedCons(Scaled(base.width, tenths), Scaled(base.height, tenths), q, rest);
    }
  }

  /** A resized image with a side under 100 pixels skips the search entirely. */
  lemma SmallSkipsSearch(base: Size)
    requires base.width < MinSide || base.height < MinSide
    ensures Attempts(base, 85, 10) == []
  {
    assert Scaled(base.width, 10) == base.width && Scaled(base.height, 10) == base.height;
  }

  /** The last resort: half the resized size, but at least 100 pixels a side,
      as JPEG of quality 15. */
  function Fallback(base: Size): Attempt {
    Attempt(Jpeg(15), Max(MinSide, base.width / 2), Max(MinSide, base.height / 2))
  }

  function Max(a: nat, b: nat): nat {
    if a >= b then a else b
  }

  /** `create_thumbnail`: None when the image does not decode, has a zero
      height, or resizes to a zero side, or when an encode raises; otherwise the
      first attempt within `target` bytes, or the fallback, whose size is not
      checked. */
  function Thumbnail(c: Codec, data: Bytes, target: nat): Option<Bytes> {
    match c.size(data)
    case None => None
    case Some(original) =>
      match ThumbnailSize(original)
      case None => None
      case Some(base) =>
        if base.width == 0 || base.height == 0 then None
        else SearchThenFallback(c, data, base, target)
  }

  /** The search over the schedule, then the fallback when nothing fitted. */
  function SearchThenFallback(c: Codec, data: Bytes, base: Size, target: nat): Option<Bytes> {
    match FirstFit(c, data, Attempts(base, 85, 10), target)
    case Fits(out) => Some(out)
    case Failed => None
    case NoneFit => Encode(c, data, Fallback(base))
  }

  lemma SearchThenFallbackOutcome(c: Codec, data: Bytes, base: Size, target: nat)
    requires SearchThenFallback(c, data, base, target).Some?
    ensures var out := SearchThenFallback(c, data, base, target).value;
      var a := Attempts(base, 85, 10);
      || (|out| <= target && exists i :: 0 <= i < |a| && Encode(c, data, a[i]) == Some(out))
      || (AllTooLarge(c, data, a, |a|, target) && Encode(c, data, Fallback(base)) == Some(out))
  {
    var a := Attempts(base, 85, 10);
    var s := FirstFit(c, data, a, target);
    if s.Fits? {
      FitsWithinCeiling(c, data, a, target);
    } else {
      FirstFitExact(c, data, a, target);
    }
  }

  /** A thumbnail is either within the target or it is the fallback encoding,
      made only after every attempt of the search came out too large. */
  lemma ThumbnailOutcome(c: Codec, data: Bytes, target: nat)
    requires Thumbnail(c, data, target).Some?
    ensures c.size(data).Some? && ThumbnailSize(c.size(data).value).Some?
    ensures var base := ThumbnailSize(c.size(data).value).value;
      var out := Thumbnail(c, data, target).value;
      || (|out| <= target && exists i :: 0 <= i < |Attempts(base, 85, 10)| && Encode(c, data, Attempts(base, 85, 10)[i]) == Some(out))
      || (AllTooLarge(c, data, Attempts(base, 85, 10), |Attempts(base, 85, 10)|, target) && Encode(c, data, Fallback(base)) == Some(out))
  {
    SearchThenFallbackOutcome(c, data, ThumbnailSize(c.size(data).value).value, target);
  }

  /** A codec whose every output is one byte over the target. */
  function Oversized(side: nat, target: nat): Codec {
    Codec(_ => Some(Size(side, side)), (_, _) => Some(seq(target + 1, _ => 0)))
  }

  /** The fallback can exceed the 63 KiB aim: a 50-pixel square image never
      enters the search, and its fallback is stored whatever its size. */
  lemma FallbackCanExceedTarget()
    ensures Thumbnail(Oversized(50, TargetSize), [], TargetSize).Some?
    ensures |Thumbnail(Oversized(50, TargetSize), [], TargetSize).value| > TargetSize
  {
    var c := Oversized(50, TargetSize);
    assert ThumbnailSize(Size(50, 50)) == Some(Size(50, 50));
    SmallSkipsSearch(Size(50, 50));
  }

  /** The fallback size can enlarge the thumbnail and change its aspect ratio:
      a 50x50 thumbnail falls back to 100x100, a 400x120 one to 200x100. */
  lemma FallbackReshapes()
    ensures Fallback(Size(50, 50)).width == 100 && Fallback(Size(50, 50)).height == 100
    ensures Fallback(Size(400, 120)).width == 200 && Fallback(Size(400, 120)).height == 100
  {
  }

  /** The search loop of `create_thumbnail`. */
  method CreateThumbnail(c: Codec, data: Bytes, target: nat) returns (r: Option<Bytes>)
    ensures r == Thumbnail(c, data, target)
  {
    var original := c.size(data);
    if original.None? {
      return None;
    }
    var size := ThumbnailSize(original.value);
    if size.None? {
      return None;
    }
    var base := size.value;
    if base.width == 0 || base.height == 0 {
      return None;
    }
    ghost var goal := FirstFit(c, data, Attempts(base, 85, 10), target);
    var quality, tenths := 85, 10;
    while quality > 15 && tenths > 2
      invariant goal == FirstFit(c, data, Attempts(base, quality, tenths), target)
      decreases tenths, quality
    {
      var w, h := Scaled(base.width, tenths), Scaled(base.height, tenths);
      if w < MinSide || h < MinSide {
        break;
      }
      var png := Encode(c, data, Attempt(Png(None), w, h));
      if png.None? {
        return None;
      }
      if |png.value| <= target {
        return png;
      }
      var jpeg := Encode(c, data, Attempt(Jpeg(quality), w, h));
      if jpeg.None? {
        return None;
      }
      if |jpeg.value| <= target {
        return jpeg;
      }
      if quality > 50 {
        quality := quality - 10;
      } else if quality > 25 {
        quality := quality - 5;
      } else {
        tenths := tenths - 1;
        quality := 85;
      }
    }
    r := Encode(c, data, Fallback(base));
  }

  // ---- Processing and the run ----

  /** The object names `process_event` reads and writes for one event. */
  function ThumbnailJob(collection: string, eventId: string): Job {
    Job(AssetPaths(collection, eventId, "event_image"), ObjectPath(collection, eventId, ThumbnailPng), true)
  }

  /** `process_event`: download the event image (PNG before JPG), make the
      thumbnail, upload it with the sniffed content type. */
  function Process(b: Bucket, c: Codec, collection: string, eventId: string): Outcome<Bucket> {
    Run(b, ThumbnailJob(collection, eventId), d => Thumbnail(c, d, TargetSize))
  }

  /** After a successful run the event's `event_thumbnail.png` holds a
      thumbnail of the image that was fetched, labelled by its first bytes, and
      no other object changed. */
  lemma ProcessWritesThumbnail(b: Bucket, c: Codec, collection: string, eventId: string)
    requires Process(b, c, collection, eventId).Ok?
    ensures var job := ThumbnailJob(collection, eventId);
      var b' := Process(b, c, collection, eventId).value;
      && FetchFirst(b, job.sources).Some?
      && Thumbnail(c, FetchFirst(b, job.sources).value, TargetSize).Some?
      && var out := Thumbnail(c, FetchFirst(b, job.sources).value, TargetSize).value;
      && Download(b', job.target) == Ok(out)
      && b'.contentTypes[job.target] == ContentTypeOf(out)
      && (forall p :: p != job.target ==> Download(b', p) == Download(b, p))
  {
    RunWrites(b, ThumbnailJob(collection, eventId), d => Thumbnail(c, d, TargetSize));
  }

  /** The events of one collection processed one after the other: the final
      bucket and how many succeeded. */
  function RunAll(b: Bucket, c: Codec, collection: string, events: seq<string>): (r: (Bucket, nat))
    ensures r.1 <= |events|
  {
    if events == [] then (b, 0)
    else
      var (b', n) := RunAll(b, c, collection, Front(events));
      match Process(b', c, collection, Last(events))
      case Ok(b'') => (b'', n + 1)
      case Raised => (b', n)
  }

  class ThumbnailGenerator {
    var bucket: Bucket
    const codec: Codec
    var processedCount: nat
    var skippedCount: nat
    var errorCount: nat

    constructor (bucket: Bucket, codec: Codec)
      ensures this.bucket == bucket && this.codec == codec
      ensures processedCount == 0 && skippedCount == 0 && errorCount == 0
    {
      this.bucket := bucket;
      this.codec := codec;
      processedCount, skippedCount, errorCount := 0, 0, 0;
    }

    /** Exactly one of the processed and error counters moves; the bucket
        changes only on success. */
    method ProcessEvent(collection: string, eventId: string) returns (ok: bool)
      modifies this
      ensures ok <==> Process(old(bucket), codec, collection, eventId).Ok?
      ensures bucket == (if ok then Process(old(bucket), codec, collection, eventId).value else old(bucket))
      ensures processedCount == old(processedCount) + (if ok then 1 else 0)
      ensures errorCount == old(errorCount) + (if ok then 0 else 1)
      ensures skippedCount == old(skippedCount)
    {
      var job := ThumbnailJob(collection, eventId);
      var image := FetchFirst(bucket, job.sources);
      if image.None? || image.value == [] {
        errorCount := errorCount + 1;
        return false;
      }
      var thumbnail := CreateThumbnail(codec, image.value, TargetSize);
      if thumbnail.None? || thumbnail.value == [] {
        errorCount := errorCount + 1;
        return false;
      }
      var uploaded := Upload(bucket, job.target, thumbnail.value, ContentTypeOf(thumbnail.value));
      if uploaded.Raised? {
        errorCount := errorCount + 1;
        return false;
      }
      bucket := uploaded.value;
      processedCount := processedCount + 1;
      return true;
    }

    /** `generate_thumbnails` for the `events` collection, with the events
        processed one after the other in the order they were found. */
    method GenerateThumbnails(listing: Outcome<seq<Blob>>) returns (events: seq<string>)
      modifies this
      ensures events == EventsNeedingThumbnails(listing)
      ensures bucket == RunAll(old(bucket), codec, "events", events).0
      ensures processedCount == old(processedCount) + RunAll(old(bucket), codec, "events", events).1
      ensures processedCount + errorCount == old(processedCount) + old(errorCount) + |events|
      ensures processedCount >= old(processedCount) && skippedCount == old(skippedCount)
    {
      events := GetEventsNeedingThumbnails(listing);
      ghost var b0, p0, e0 := bucket, processedCount, errorCount;
      for i := 0 to |events|
        invariant processedCount >= p0
        invariant bucket == RunAll(b0, codec, "events", events[..i]).0
        invariant processedCount == p0 + RunAll(b0, codec, "events", events[..i]).1
        invariant processedCount + errorCount == p0 + e0 + i
        invariant skippedCount == old(skippedCount)
      {
        assert Front(events[..i + 1]) == events[..i] && Last(events[..i + 1]) == events[i];
        var _ := ProcessEvent("events", events[i]);
      }
      assert events[..|events|] == events;
    }
  }
}
