/** `generate_missing_images_recent.py`: walk the listing from the end, probe
    each event that has a thumbnail once for an existing event image, collect
    at most `max_events` events without one, and give each an `event_image.png`
    upscaled from its thumbnail and kept under 1 MiB. */
module Recent {
  import opened Basics
  import opened Paths
  import opened Storage
  import opened Classifier
  import opened Imaging
  import opened Upscaling
  import opened Pipeline

  const MaxEvents: nat := 100
  const MaxFileSize: nat := 1024 * 1024

  // ---- The reverse scan ----

  /** The scan's variables: the events found so far and the events already
      probed (`found_count` is always the number found). */
  datatype ScanState = ScanState(needing: seq<string>, checked: set<string>)

  /** One iteration over a blob. Once `max_events` are found the loop breaks,
      which is the same as ignoring every later blob. */
  function ScanStep(b: Bucket, collection: string, st: ScanState, blob: Blob, maxEvents: nat): ScanState {
    if |st.needing| >= maxEvents then st
    else match Parse(blob.name)
      case None => st
      case Some(Entry(e, f)) =>
        if e in st.checked || !IsThumbnailFile(f) then st
        else ScanState(if HasEventImage(b, collection, e) then st.needing else st.needing + [e], st.checked + {e})
  }

  /** The state after the blobs of `order`, visited in that order. */
  function Scan(b: Bucket, collection: string, order: seq<Blob>, maxEvents: nat): ScanState {
    if order == [] then ScanState([], {})
    else ScanStep(b, collection, Scan(b, collection, Front(order), maxEvents), Last(order), maxEvents)
  }

  /** `get_recent_events_needing_images`: the listing walked last to first; a
      listing that raises gives no events. */
  function RecentNeeding(b: Bucket, collection: string, listing: Outcome<seq<Blob>>, maxEvents: nat): seq<string> {
    match listing
    case Raised => []
    case Ok(blobs) => Scan(b, collection, Reversed(blobs), maxEvents).needing
  }

  /** What the scan keeps true: at most `max_events` found, none twice, every
      found event was probed, has a listed thumbnail and no image; every probed
      event without an image was found; and while the limit is not reached,
      every event with a listed thumbnail has been probed. */
  lemma {:induction false} ScanFacts(b: Bucket, collection: string, order: seq<Blob>, maxEvents: nat)
    ensures var st := Scan(b, collection, order, maxEvents);
      && |st.needing| <= maxEvents
      && Distinct(st.needing)
      && (forall e :: e in st.needing ==> e in st.checked && !HasEventImage(b, collection, e) && HasThumbnailBlob(order, e))
      && (forall e :: e in st.checked ==> HasThumbnailBlob(order, e))
      && (forall e :: e in st.checked && !HasEventImage(b, collection, e) ==> e in st.needing)
      && (|st.needing| < maxEvents ==> forall e :: HasThumbnailBlob(order, e) ==> e in st.checked)
  {
    if order != [] {
      ScanFacts(b, collection, Front(order), maxEvents);
      forall e ensures HasThumbnailBlob(order, e) <==> HasThumbnailBlob(Front(order), e) || ThumbnailBlobOf(Last(order), e) {
        HasBlobFront(order, e);
      }
    }
  }

  /** The reference list, without the limit: in visiting order, each event at
      its first thumbnail blob, kept when the image probe finds nothing. */
  ghost function Candidates(b: Bucket, collection: string, order: seq<Blob>): seq<string> {
    if order == [] then []
    else
      var earlier := Candidates(b, collection, Front(order));
      match Parse(Last(order).name)
      case Some(Entry(e, f)) =>
        if IsThumbnailFile(f) && !HasThumbnailBlob(Front(order), e) && !HasEventImage(b, collection, e) then earlier + [e] else earlier
      case None => earlier
  }

  /** Below the limit, one more blob adds exactly the candidate it contributes. */
  lemma StepNeeding(b: Bucket, collection: string, order: seq<Blob>, maxEvents: nat)
    requires order != []
    requires var prev := Scan(b, collection, Front(order), maxEvents);
      && |prev.needing| < maxEvents
      && prev.needing == Candidates(b, collection, Front(order))
    ensures Scan(b, collection, order, maxEvents).needing == Candidates(b, collection, order)
  {
    var front := Front(order);
    ScanFacts(b, collection, front, maxEvents);
    match Parse(Last(order).name)
    case None =>
    case Some(Entry(e, f)) =>
      assert e in Scan(b, collection, front, maxEvents).checked <==> HasThumbnailBlob(front, e);
  }

  /** The scan collects exactly the first `max_events` candidates of the order
      it visits the blobs in. */
  lemma {:induction false} ScanExact(b: Bucket, collection: string, order: seq<Blob>, maxEvents: nat)
    ensures Scan(b, collection, order, maxEvents).needing == Take(Candidates(b, collection, order), maxEvents)
  {
    if order != [] {
      var front := Front(order);
      ScanExact(b, collection, front, maxEvents);
      var prev := Scan(b, collection, front, maxEvents);
      var cands := Candidates(b, collection, front);
      if |prev.needing| < maxEvents {
        assert prev.needing == cands;
        StepNeeding(b, collection, order, maxEvents);
      } else {
        assert |cands| >= maxEvents;
        assert Take(Candidates(b, collection, order), maxEvents) == Take(cands, maxEvents);
      }
    }
  }

  lemma ReversedThumbnails(blobs: seq<Blob>, e: string)
    ensures HasThumbnailBlob(Reversed(blobs), e) <==> HasThumbnailBlob(blobs, e)
  {
    ReversedAt(blobs);
    var r := Reversed(blobs);
    if HasThumbnailBlob(r, e) {
      var k :| 0 <= k < |r| && ThumbnailBlobOf(r[k], e);
      assert ThumbnailBlobOf(blobs[|blobs| - 1 - k], e);
    }
    if HasThumbnailBlob(blobs, e) {
      var k :| 0 <= k < |blobs| && ThumbnailBlobOf(blobs[k], e);
      assert r[|blobs| - 1 - k] == blobs[k];
    }
  }

  /** The selection: at most `max_events` events, each once; each has a listed
      thumbnail and no image found by the probe (a probe that raises counts as
      no image); when fewer than `max_events` are returned, every event with a
      listed thumbnail and no image is among them; and the events kept are the
      first `max_events` candidates met walking from the end of the listing,
      latest-listed thumbnail first. */
  lemma RecentNeedingExact(b: Bucket, collection: string, blobs: seq<Blob>, maxEvents: nat)
    ensures var r := RecentNeeding(b, collection, Ok(blobs), maxEvents);
      && |r| <= maxEvents
      && Distinct(r)
      && (forall e :: e in r ==> HasThumbnailBlob(blobs, e) && !HasEventImage(b, collection, e))
      && (|r| < maxEvents ==> forall e :: HasThumbnailBlob(blobs, e) && !HasEventImage(b, collection, e) ==> e in r)
      && r == Take(Candidates(b, collection, Reversed(blobs)), maxEvents)
  {
    ScanFacts(b, collection, Reversed(blobs), maxEvents);
    ScanExact(b, collection, Reversed(blobs), maxEvents);
    forall e ensures HasThumbnailBlob(Reversed(blobs), e) <==> HasThumbnailBlob(blobs, e) {
      ReversedThumbnails(blobs, e);
    }
  }

  /** Once the limit is reached, later blobs change nothing: breaking out of the
      loop gives the state the whole walk would. */
  lemma {:induction false} ScanSaturated(b: Bucket, collection: string, order: seq<Blob>, i: nat, maxEvents: nat)
    requires i <= |order|
    requires |Scan(b, collection, order[..i], maxEvents).needing| >= maxEvents
    ensures Scan(b, collection, order, maxEvents) == Scan(b, collection, order[..i], maxEvents)
    decreases |order| - i
  {
    if i < |order| {
      assert Front(order[..i + 1]) == order[..i];
      ScanSaturated(b, collection, order, i + 1, maxEvents);
    } else {
      assert order[..i] == order;
    }
  }

  /** Two events with only thumbnails, listed as e1 then e2: the walk from the
      end finds e2 first, and a limit of one keeps only e2. */
  lemma ScanFromTheEnd()
    ensures var blobs := [Blob(ObjectPath("events", "e1", ThumbnailPng), 0, Ok(None)), Blob(ObjectPath("events", "e2", ThumbnailPng), 0, Ok(None))];
      var empty := Bucket(map[], map[], {});
      && RecentNeeding(empty, "events", Ok(blobs), 100) == ["e2", "e1"]
      && RecentNeeding(empty, "events", Ok(blobs), 1) == ["e2"]
  {
    var b1, b2 := Blob(ObjectPath("events", "e1", ThumbnailPng), 0, Ok(None)), Blob(ObjectPath("events", "e2", ThumbnailPng), 0, Ok(None));
    var blobs := [b1, b2];
    var empty := Bucket(map[], map[], {});
    ParseObjectPath("events", "e1", ThumbnailPng);
    ParseObjectPath("events", "e2", ThumbnailPng);
    assert !HasEventImage(empty, "events", "e1") && !HasEventImage(empty, "events", "e2");
    ReversedAt(blobs);
    assert Reversed(blobs) == [b2, b1];
    assert Front([b2, b1]) == [b2] && Front([b2]) == [];
    assert Scan(empty, "events", [b2], 100) == ScanState(["e2"], {"e2"});
    assert Scan(empty, "events", [b2], 1) == ScanState(["e2"], {"e2"});
  }

  /** The loop of `get_recent_events_needing_images`. */
  method GetRecentEventsNeedingImages(b: Bucket, collection: string, listing: Outcome<seq<Blob>>, maxEvents: nat)
    returns (needing: seq<string>)
    ensures needing == RecentNeeding(b, collection, listing, maxEvents)
  {
    if listing.Raised? {
      return [];
    }
    var order := Reversed(listing.value);
    needing := [];
    var checked: set<string> := {};
    var found := 0;
    var i := 0;
    while i < |order|
      invariant 0 <= i <= |order|
      invariant found == |needing|
      invariant Scan(b, collection, order[..i], maxEvents) == ScanState(needing, checked)
    {
      if found >= maxEvents {
        ScanSaturated(b, collection, order, i, maxEvents);
        break;
      }
      assert Front(order[..i + 1]) == order[..i] && Last(order[..i + 1]) == order[i];
      var parts := Split(order[i].name);
      if |parts| >= 3 {
        var eventId, filename := parts[1], parts[2];
        if eventId !in checked && IsThumbnailFile(filename) {
          var hasImage := HasEventImage(b, collection, eventId);
          if !hasImage {
            needing := needing + [eventId];
            found := found + 1;
          }
          checked := checked + {eventId};
        }
      }
      i := i + 1;
    }
    if i == |order| {
      assert order[..i] == order;
    }
  }

  // ---- The size-constrained encode ----

  /** The JPEG qualities of the first search, from the top of one scale. */
  predicate OnLadder(q: nat) {
    q == 95 || q == 85 || q == 80 || q == 75 || q == 70 || q == 65 || q == 60 || q == 55 || q == 50
  }

  /** How many qualities are left at the current scale from `q`. */
  function LadderRank(q: nat): nat
    requires OnLadder(q)
  {
    if q == 95 then 7 else if q >= 80 then 6 else if q >= 70 then 5 else (q - 45) / 5
  }

  /** The first search from quality `q` at `tenths` tenths: quality down by 10
      above 70 and by 5 above 50, then back to 80 at the next smaller scale.
      The float scale is 0.5000000000000001 after five decrements, still above
      0.5, so the scales tried are 1.0 down to 0.5: `tenths > 4` here. */
  function Ladder(size: Size, q: nat, tenths: nat): seq<Attempt>
    decreases tenths, q
  {
    if !(q > 30 && tenths > 4) then []
    else
      var rest := if q > 70 then Ladder(size, q - 10, tenths)
                  else if q > 50 then Ladder(size, q - 5, tenths)
                  else Ladder(size, 80, tenths - 1);
      [Attempt(Jpeg(q), Scaled(size.width, tenths), Scaled(size.height, tenths))] + rest
  }

  /** The last search: quality 60 from scale 0.7 down. The float reaches
      0.30000000000000004 after four decrements, still above 0.3, so the scales
      are 0.7 down to 0.3: `tenths > 2` here. */
  function Shrink(size: Size, tenths: nat): seq<Attempt>
    decreases tenths
  {
    if tenths > 2 then [Attempt(Jpeg(60), Scaled(size.width, tenths), Scaled(size.height, tenths))] + Shrink(size, tenths - 1)
    else []
  }

  /** Everything `_optimize_image_size` tries, in order: PNG at compression
      level 9, the quality-and-scale search, quality 30 at full size, then the
      shrinking quality-60 search. */
  function Schedule(size: Size): seq<Attempt> {
    [Attempt(Png(Some(9)), size.width, size.height)] + Ladder(size, 95, 10)
      + [Attempt(Jpeg(30), size.width, size.height)] + Shrink(size, 7)
  }

  /** The quality search always makes `rank + 6 per smaller scale` attempts, all
      JPEG of quality 50 to 95 and no larger than the image: the quality guard
      never ends it, only the scale does. */
  lemma {:induction false} LadderShape(size: Size, q: nat, tenths: nat)
    requires OnLadder(q) && 5 <= tenths <= 10
    ensures var a := Ladder(size, q, tenths);
      && |a| == LadderRank(q) + 6 * (tenths - 5)
      && forall i :: 0 <= i < |a| ==>
        && a[i].format.Jpeg? && 50 <= a[i].format.quality <= 95
        && a[i].width <= size.width && a[i].height <= size.height
    decreases tenths, q
  {
    ScaledAtMost(size, tenths);
    if q > 70 {
      LadderShape(size, q - 10, tenths);
    } else if q > 50 {
      LadderShape(size, q - 5, tenths);
    } else if tenths > 5 {
      LadderShape(size, 80, tenths - 1);
    }
  }

  lemma {:induction false} ShrinkShape(size: Size, tenths: nat)
    requires tenths <= 10
    ensures var a := Shrink(size, tenths);
      && |a| == (if tenths > 2 then tenths - 2 else 0)
      && forall i :: 0 <= i < |a| ==> a[i].format == Jpeg(60) && a[i].width <= size.width && a[i].height <= size.height
  {
    if tenths > 2 {
      ScaledAtMost(size, tenths);
      ShrinkShape(size, tenths - 1);
    }
  }

  /** 44 attempts in all: one PNG, 37 in the quality search, one at quality 30,
      five in the shrinking search. */
  lemma ScheduleLength(size: Size)
    ensures |Schedule(size)| == 44
  {
    LadderShape(size, 95, 10);
    ShrinkShape(size, 7);
  }

  /** `_optimize_image_size`: the first attempt within `maxSize` bytes, or None. */
  function Optimize(c: Codec, data: Bytes, size: Size, maxSize: nat): Option<Bytes> {
    match FirstFit(c, data, Schedule(size), maxSize)
    case Fits(out) => Some(out)
    case Failed => None
    case NoneFit => None
  }

  /** Every bytes-returning exit is guarded: the result is never over `maxSize`,
      it is one of the scheduled encodings, and a PNG that fits is taken first. */
  lemma OptimizeWithinLimit(c: Codec, data: Bytes, size: Size, maxSize: nat)
    ensures Optimize(c, data, size, maxSize).Some? ==>
      |Optimize(c, data, size, maxSize).value| <= maxSize
      && exists i :: 0 <= i < |Schedule(size)| && Encode(c, data, Schedule(size)[i]) == Optimize(c, data, size, maxSize)
    ensures var png := Encode(c, data, Attempt(Png(Some(9)), size.width, size.height));
      png.Some? && |png.value| <= maxSize ==> Optimize(c, data, size, maxSize) == png
  {
    if Optimize(c, data, size, maxSize).Some? {
      FitsWithinCeiling(c, data, Schedule(size), maxSize);
    }
  }

  /** `upscale_image`: fit the box, optimise under 1 MiB, and treat empty bytes as failure. */
  function Upscale(c: Codec, data: Bytes): Option<Bytes> {
    match UpscaledSize(c, data)
    case None => None
    case Some(size) =>
      match Optimize(c, data, size, MaxFileSize)
      case None => None
      case Some(out) => if out == [] then None else Some(out)
  }

  /** The upscaled image is never over 1 MiB. */
  lemma UpscaleWithinLimit(c: Codec, data: Bytes)
    ensures Upscale(c, data).Some? ==> 0 < |Upscale(c, data).value| <= MaxFileSize
  {
    if Upscale(c, data).Some? {
      OptimizeWithinLimit(c, data, UpscaledSize(c, data).value, MaxFileSize);
    }
  }

  /** The quality-and-scale loop of `_optimize_image_size`. */
  method SearchLadder(c: Codec, data: Bytes, size: Size, maxSize: nat) returns (r: Search)
    ensures r == FirstFit(c, data, Ladder(size, 95, 10), maxSize)
  {
    ghost var goal := FirstFit(c, data, Ladder(size, 95, 10), maxSize);
    var quality, tenths := 95, 10;
    while quality > 30 && tenths > 4
      invariant goal == FirstFit(c, data, Ladder(size, quality, tenths), maxSize)
      decreases tenths, quality
    {
      var jpeg := Encode(c, data, Attempt(Jpeg(quality), Scaled(size.width, tenths), Scaled(size.height, tenths)));
      if jpeg.None? {
        return Failed;
      }
      if |jpeg.value| <= maxSize {
        return Fits(jpeg.value);
      }
      if quality > 70 {
        quality := quality - 10;
      } else if quality > 50 {
        quality := quality - 5;
      } else {
        quality := 80;
        tenths := tenths - 1;
      }
    }
    return NoneFit;
  }

  /** The shrinking loop at quality 60. */
  method SearchShrink(c: Codec, data: Bytes, size: Size, maxSize: nat) returns (r: Search)
    ensures r == FirstFit(c, data, Shrink(size, 7), maxSize)
  {
    ghost var goal := FirstFit(c, data, Shrink(size, 7), maxSize);
    var tenths := 7;
    while tenths > 2
      invariant goal == FirstFit(c, data, Shrink(size, tenths), maxSize)
    {
      var scaled := Encode(c, data, Attempt(Jpeg(60), Scaled(size.width, tenths), Scaled(size.height, tenths)));
      if scaled.None? {
        return Failed;
      }
      if |scaled.value| <= maxSize {
        return Fits(scaled.value);
      }
      tenths := tenths - 1;
    }
    return NoneFit;
  }

  /** `_optimize_image_size`: the PNG, the two loops and the quality-30 attempt between them. */
  method OptimizeImageSize(c: Codec, data: Bytes, size: Size, maxSize: nat) returns (r: Option<Bytes>)
    ensures r == Optimize(c, data, size, maxSize)
  {
    var full := [Attempt(Png(Some(9)), size.width, size.height)];
    var low := [Attempt(Jpeg(30), size.width, size.height)];
    FirstFitAppend(c, data, full + Ladder(size, 95, 10) + low, Shrink(size, 7), maxSize);
    FirstFitAppend(c, data, full + Ladder(size, 95, 10), low, maxSize);
    FirstFitAppend(c, data, full, Ladder(size, 95, 10), maxSize);
    var png := Encode(c, data, full[0]);
    if png.None? {
      return None;
    }
    if |png.value| <= maxSize {
      return png;
    }
    var found := SearchLadder(c, data, size, maxSize);
    if found.Failed? {
      return None;
    }
    if found.Fits? {
      return Some(found.data);
    }
    var last := Encode(c, data, low[0]);
    if last.None? {
      return None;
    }
    if |last.value| <= maxSize {
      return last;
    }
    found := SearchShrink(c, data, size, maxSize);
    if found.Fits? {
      return Some(found.data);
    }
    return None;
  }

  /** `upscale_image` with the optimiser loop. */
  method UpscaleImage(c: Codec, data: Bytes) returns (r: Option<Bytes>)
    ensures r == Upscale(c, data)
  {
    var size := UpscaledSize(c, data);
    if size.None? {
      return None;
    }
    var result := OptimizeImageSize(c, data, size.value, MaxFileSize);
    if result.Some? && result.value != [] {
      return result;
    }
    return None;
  }

  // ---- Processing and the run ----

  /** The upload is labelled `image/png` even when the optimiser produced JPEG bytes. */
  function Process(b: Bucket, c: Codec, collection: string, eventId: string): Outcome<Bucket> {
    Run(b, ImageJob(collection, eventId), d => Upscale(c, d))
  }

  /** After a successful run `event_image.png` holds the upscaled thumbnail,
      under 1 MiB and labelled `image/png`; the event image probe then succeeds. */
  lemma ProcessWritesImage(b: Bucket, c: Codec, collection: string, eventId: string)
    requires Process(b, c, collection, eventId).Ok?
    ensures var job := ImageJob(collection, eventId);
      var b' := Process(b, c, collection, eventId).value;
      && FetchFirst(b, job.sources).Some?
      && Upscale(c, FetchFirst(b, job.sources).value).Some?
      && var out := Upscale(c, FetchFirst(b, job.sources).value).value;
      && Download(b', job.target) == Ok(out)
      && |out| <= MaxFileSize
      && b'.contentTypes[job.target] == "image/png"
      && HasEventImage(b', collection, eventId)
  {
    var job := ImageJob(collection, eventId);
    RunWrites(b, job, d => Upscale(c, d));
    var out := Upscale(c, FetchFirst(b, job.sources).value).value;
    UpscaleWithinLimit(c, FetchFirst(b, job.sources).value);
    assert Process(b, c, collection, eventId) == Upload(b, job.target, out, "image/png");
    UploadedImageIsFound(b, collection, eventId, out, "image/png");
  }

  function RunAll(b: Bucket, c: Codec, collection: string, events: seq<string>): (r: (Bucket, nat))
    ensures r.1 <= |events|
  {
    if events == [] then (b, 0)
    else
      var (b', n) := RunAll(b, c, collection, Front(events));
      match Process(b', c, collection, Last(events))
      case Ok(b'') => (b'', n + 1)
      case Raised => (b', n)
  }

  class RecentImageGenerator {
    var bucket: Bucket
    const codec: Codec
    var processedCount: nat
    var skippedCount: nat
    var errorCount: nat

    constructor (bucket: Bucket, codec: Codec)
      ensures this.bucket == bucket && this.codec == codec
      ensures processedCount == 0 && skippedCount == 0 && errorCount == 0
    {
      this.bucket := bucket;
      this.codec := codec;
      processedCount, skippedCount, errorCount := 0, 0, 0;
    }

    method ProcessEvent(collection: string, eventId: string) returns (ok: bool)
      modifies this
      ensures ok <==> Process(old(bucket), codec, collection, eventId).Ok?
      ensures bucket == (if ok then Process(old(bucket), codec, collection, eventId).value else old(bucket))
      ensures processedCount == old(processedCount) + (if ok then 1 else 0)
      ensures errorCount == old(errorCount) + (if ok then 0 else 1)
      ensures skippedCount == old(skippedCount)
    {
      var job := ImageJob(collection, eventId);
      var thumbnail := FetchFirst(bucket, job.sources);
      if thumbnail.None? || thumbnail.value == [] {
        errorCount := errorCount + 1;
        return false;
      }
      var image := UpscaleImage(codec, thumbnail.value);
      if image.None? || image.value == [] {
        errorCount := errorCount + 1;
        return false;
      }
      var uploaded := Upload(bucket, job.target, image.value, "image/png");
      if uploaded.Raised? {
        errorCount := errorCount + 1;
        return false;
      }
      bucket := uploaded.value;
      processedCount := processedCount + 1;
      return true;
    }

    /** `generate_missing_images` for the `events` collection, the events
        processed one after the other in the order found. */
    method GenerateMissingImages(listing: Outcome<seq<Blob>>, maxEvents: nat) returns (events: seq<string>)
      modifies this
      ensures events == RecentNeeding(old(bucket), "events", listing, maxEvents)
      ensures bucket == RunAll(old(bucket), codec, "events", events).0
      ensures processedCount == old(processedCount) + RunAll(old(bucket), codec, "events", events).1
      ensures processedCount + errorCount == old(processedCount) + old(errorCount) + |events|
      ensures skippedCount == old(skippedCount)
    {
      events := GetRecentEventsNeedingImages(bucket, "events", listing, maxEvents);
      ghost var b0, p0, e0 := bucket, processedCount, errorCount;
      for i := 0 to |events|
        invariant bucket == RunAll(b0, codec, "events", events[..i]).0
        invariant processedCount == p0 + RunAll(b0, codec, "events", events[..i]).1
        invariant processedCount + errorCount == p0 + e0 + i
        invariant skippedCount == old(skippedCount)
      {
        assert Front(events[..i + 1]) == events[..i] && Last(events[..i + 1]) == events[i];
        var _ := ProcessEvent("events", events[i]);
      }
      assert events[..|events|] == events;
    }
  }
}
