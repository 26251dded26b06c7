/** `generate_missing_images_simple.py`: walk the listing forward, grouping as
    it goes; at each thumbnail blob of an event with no image seen so far, probe
    the bucket and collect the event if it has no image; stop once `max_events`
    are collected; upscale each thumbnail under 1 MiB and upload it as
    `event_image.png` with a sniffed content type. */
module Simple {
  import opened Basics
  import opened Paths
  import opened Storage
  import opened Classifier
  import opened Imaging
  import opened Upscaling
  import opened Pipeline

  const MaxEvents: nat := 500
  const MaxFileSize: nat := 1024 * 1024

  // ---- The forward scan ----

  /** The scan's variables: the `events` dict and the list of events found. */
  datatype ScanState = ScanState(ids: seq<string>, entries: map<string, Flags>, needing: seq<string>)

  /** One iteration over a blob; once `max_events` are found the loop breaks. */
  function ScanStep(b: Bucket, collection: string, st: ScanState, blob: Blob, maxEvents: nat): ScanState {
    if |st.needing| >= maxEvents then st
    else match Parse(blob.name)
      case None => st
      case Some(Entry(e, f)) =>
        var cur := if e in st.entries then st.entries[e] else Unmarked;
        var ids := if e in st.entries then st.ids else st.ids + [e];
        if IsImageFile(f) then ScanState(ids, st.entries[e := cur.(hasImage := true)], st.needing)
        else if IsThumbnailFile(f) then
          var found := !cur.hasImage && !HasEventImage(b, collection, e);
          ScanState(ids, st.entries[e := cur.(hasThumbnail := true)], if found then st.needing + [e] else st.needing)
        else ScanState(ids, st.entries[e := cur], st.needing)
  }

  function Scan(b: Bucket, collection: string, order: seq<Blob>, maxEvents: nat): ScanState {
    if order == [] then ScanState([], map[], [])
    else ScanStep(b, collection, Scan(b, collection, Front(order), maxEvents), Last(order), maxEvents)
  }

  /** `get_events_needing_images`; a listing that raises gives no events. */
  function SimpleNeeding(b: Bucket, collection: string, listing: Outcome<seq<Blob>>, maxEvents: nat): seq<string> {
    match listing
    case Raised => []
    case Ok(blobs) => Scan(b, collection, blobs, maxEvents).needing
  }

  /** The reference list, without the limit: one entry per thumbnail blob of an
      event that no earlier blob gave an image and whose image probe fails,
      duplicates included. */
  ghost function Candidates(b: Bucket, collection: string, order: seq<Blob>): seq<string> {
    if order == [] then []
    else
      var earlier := Candidates(b, collection, Front(order));
      match Parse(Last(order).name)
      case Some(Entry(e, f)) =>
        if IsThumbnailFile(f) && !HasImageBlob(Front(order), e) && !HasEventImage(b, collection, e) then earlier + [e] else earlier
      case None => earlier
  }

  /** Until the scan stops early, its dict is the classifier's. */
  lemma {:induction false} ScanTable(b: Bucket, collection: string, order: seq<Blob>, maxEvents: nat)
    ensures var st := Scan(b, collection, order, maxEvents);
      |st.needing| < maxEvents ==> Table(st.ids, st.entries) == Classify(order)
  {
    if order != [] {
      var prev := Scan(b, collection, Front(order), maxEvents);
      ScanTable(b, collection, Front(order), maxEvents);
      if |prev.needing| >= maxEvents {
        assert Scan(b, collection, order, maxEvents) == prev;
      }
    }
  }

  /** Below the limit, one more blob adds exactly the candidate it contributes. */
  lemma StepNeeding(b: Bucket, collection: string, order: seq<Blob>, maxEvents: nat)
    requires order != []
    requires var prev := Scan(b, collection, Front(order), maxEvents);
      && |prev.needing| < maxEvents
      && prev.needing == Candidates(b, collection, Front(order))
      && Table(prev.ids, prev.entries) == Classify(Front(order))
    ensures Scan(b, collection, order, maxEvents).needing == Candidates(b, collection, order)
  {
    var front := Front(order);
    var prev := Scan(b, collection, front, maxEvents);
    ClassifyExact(front);
    match Parse(Last(order).name)
    case None =>
    case Some(Entry(e, f)) =>
      if e in prev.entries {
        assert prev.entries[e].hasImage <==> HasImageBlob(front, e);
      } else {
        assert !Mentions(front, e);
      }
  }

  /** The scan collects exactly the first `max_events` candidates; until it
      stops early, its dict is the classifier's. */
  lemma {:induction false} ScanExact(b: Bucket, collection: string, order: seq<Blob>, maxEvents: nat)
    ensures var st := Scan(b, collection, order, maxEvents);
      && st.needing == Take(Candidates(b, collection, order), maxEvents)
      && (|st.needing| < maxEvents ==> Table(st.ids, st.entries) == Classify(order))
  {
    ScanTable(b, collection, order, maxEvents);
    if order != [] {
      var front := Front(order);
      ScanExact(b, collection, front, maxEvents);
      var prev := Scan(b, collection, front, maxEvents);
      var cands := Candidates(b, collection, front);
      if |prev.needing| < maxEvents {
        assert prev.needing == cands;
        StepNeeding(b, collection, order, maxEvents);
      } else {
        assert |cands| >= maxEvents;
        assert Take(Candidates(b, collection, order), maxEvents) == Take(cands, maxEvents);
      }
    }
  }

  /** The selection: at most `max_events` entries; each comes from a listed
      thumbnail blob of an event with no earlier image blob and no image found
      by the probe; and below the limit nothing that qualifies is missed. */
  lemma SimpleNeedingBounds(b: Bucket, collection: string, blobs: seq<Blob>, maxEvents: nat)
    ensures var r := SimpleNeeding(b, collection, Ok(blobs), maxEvents);
      && |r| <= maxEvents
      && r <= Candidates(b, collection, blobs)
      && (|r| < maxEvents ==> r == Candidates(b, collection, blobs))
  {
    ScanExact(b, collection, blobs, maxEvents);
  }

  /** There is no de-duplication: an event listed with both thumbnail files
      and no image is collected twice. */
  lemma CollectedTwice()
    ensures var blobs := [Blob(ObjectPath("events", "e", ThumbnailPng), 0, Ok(None)), Blob(ObjectPath("events", "e", ThumbnailJpg), 0, Ok(None))];
      SimpleNeeding(Bucket(map[], map[], {}), "events", Ok(blobs), MaxEvents) == ["e", "e"]
  {
    var b1, b2 := Blob(ObjectPath("events", "e", ThumbnailPng), 0, Ok(None)), Blob(ObjectPath("events", "e", ThumbnailJpg), 0, Ok(None));
    var empty := Bucket(map[], map[], {});
    ParseObjectPath("events", "e", ThumbnailPng);
    ParseObjectPath("events", "e", ThumbnailJpg);
    assert !HasEventImage(empty, "events", "e");
    assert Front([b1, b2]) == [b1] && Front([b1]) == [];
    assert Scan(empty, "events", [b1], MaxEvents).needing == ["e"];
  }

  lemma {:induction false} ScanSaturated(b: Bucket, collection: string, order: seq<Blob>, i: nat, maxEvents: nat)
    requires i <= |order|
    requires |Scan(b, collection, order[..i], maxEvents).needing| >= maxEvents
    ensures Scan(b, collection, order, maxEvents) == Scan(b, collection, order[..i], maxEvents)
    decreases |order| - i
  {
    if i < |order| {
      assert Front(order[..i + 1]) == order[..i];
      ScanSaturated(b, collection, order, i + 1, maxEvents);
    } else {
      assert order[..i] == order;
    }
  }

  /** The loop of `get_events_needing_images`. */
  method GetEventsNeedingImages(b: Bucket, collection: string, listing: Outcome<seq<Blob>>, maxEvents: nat)
    returns (needing: seq<string>)
    ensures needing == SimpleNeeding(b, collection, listing, maxEvents)
  {
    if listing.Raised? {
      return [];
    }
    var blobs := listing.value;
    needing := [];
    var ids: seq<string> := [];
    var events: map<string, Flags> := map[];
    var i := 0;
    while i < |blobs|
      invariant 0 <= i <= |blobs|
      invariant Scan(b, collection, blobs[..i], maxEvents) == ScanState(ids, events, needing)
    {
      if |needing| >= maxEvents {
        ScanSaturated(b, collection, blobs, i, maxEvents);
        break;
      }
      assert Front(blobs[..i + 1]) == blobs[..i] && Last(blobs[..i + 1]) == blobs[i];
      var parts := Split(blobs[i].name);
      if |parts| >= 3 {
        var eventId, filename := parts[1], parts[2];
        if eventId !in events {
          events := events[eventId := Unmarked];
          ids := ids + [eventId];
        }
        if IsImageFile(filename) {
          events := events[eventId := events[eventId].(hasImage := true)];
        } else if IsThumbnailFile(filename) {
          events := events[eventId := events[eventId].(hasThumbnail := true)];
          if !events[eventId].hasImage {
            var hasImage := HasEventImage(b, collection, eventId);
            if !hasImage {
              needing := needing + [eventId];
            }
          }
        }
      }
      i := i + 1;
    }
    if i == |blobs| {
      assert blobs[..i] == blobs;
    }
  }

  // ---- The size-constrained encode ----

  predicate OnLadder(q: nat) {
    q == 85 || q == 75 || q == 65 || q == 55 || q == 50 || q == 45
  }

  function LadderRank(q: nat): nat
    requires OnLadder(q)
  {
    if q == 85 then 6 else if q >= 55 then (q - 45) / 10 + 2 else (q - 40) / 5
  }

  /** The first search from quality `q` at `tenths` tenths: quality down by 10
      above 60 and by 5 above 45, then back to 75 at the next smaller scale.
      As in the other generators the float scale stays above 0.5 at its fifth
      decrement, so the scales are 1.0 down to 0.5: `tenths > 4`. */
  function Ladder(size: Size, q: nat, tenths: nat): seq<Attempt>
    decreases tenths, q
  {
    if !(q > 30 && tenths > 4) then []
    else
      var rest := if q > 60 then Ladder(size, q - 10, tenths)
                  else if q > 45 then Ladder(size, q - 5, tenths)
                  else Ladder(size, 75, tenths - 1);
      [Attempt(Jpeg(q), Scaled(size.width, tenths), Scaled(size.height, tenths))] + rest
  }

  /** The second search: quality 70 from scale 0.6 down; the float stays above
      0.3 at 0.30000000000000004, so the scales are 0.6 down to 0.3. */
  function Shrink(size: Size, tenths: nat): seq<Attempt>
    decreases tenths
  {
    if tenths > 2 then [Attempt(Jpeg(70), Scaled(size.width, tenths), Scaled(size.height, tenths))] + Shrink(size, tenths - 1)
    else []
  }

  function Schedule(size: Size): seq<Attempt> {
    [Attempt(Png(Some(9)), size.width, size.height)] + Ladder(size, 85, 10) + Shrink(size, 6)
  }

  /** The quality search makes `rank + 5 per smaller scale` attempts, all JPEG of
      quality 45 to 85, none larger than the image: the quality guard of 30 is
      never what ends it. */
  lemma {:induction false} LadderShape(size: Size, q: nat, tenths: nat)
    requires OnLadder(q) && 5 <= tenths <= 10
    ensures var a := Ladder(size, q, tenths);
      && |a| == LadderRank(q) + 5 * (tenths - 5)
      && forall i :: 0 <= i < |a| ==>
        && a[i].format.Jpeg? && 45 <= a[i].format.quality <= 85
        && a[i].width <= size.width && a[i].height <= size.height
    decreases tenths, q
  {
    ScaledAtMost(size, tenths);
    if q > 60 {
      LadderShape(size, q - 10, tenths);
    } else if q > 45 {
      LadderShape(size, q - 5, tenths);
    } else if tenths > 5 {
      LadderShape(size, 75, tenths - 1);
    }
  }

  lemma {:induction false} ShrinkShape(size: Size, tenths: nat)
    requires tenths <= 10
    ensures var a := Shrink(size, tenths);
      && |a| == (if tenths > 2 then tenths - 2 else 0)
      && forall i :: 0 <= i < |a| ==> a[i].format == Jpeg(70) && a[i].width <= size.width && a[i].height <= size.height
  {
    if tenths > 2 {
      ScaledAtMost(size, tenths);
      ShrinkShape(size, tenths - 1);
    }
  }

  /** 36 attempts in all: one PNG, 31 in the quality search, four in the second. */
  lemma ScheduleLength(size: Size)
    ensures |Schedule(size)| == 36
  {
    LadderShape(size, 85, 10);
    ShrinkShape(size, 6);
  }

  /** `_optimize_image_size`: the first attempt within `maxSize` bytes, or None. */
  function Optimize(c: Codec, data: Bytes, size: Size, maxSize: nat): Option<Bytes> {
    match FirstFit(c, data, Schedule(size), maxSize)
    case Fits(out) => Some(out)
    case Failed => None
    case NoneFit => None
  }

  /** Every bytes-returning exit is guarded by the size check. */
  lemma OptimizeWithinLimit(c: Codec, data: Bytes, size: Size, maxSize: nat)
    ensures Optimize(c, data, size, maxSize).Some? ==>
      |Optimize(c, data, size, maxSize).value| <= maxSize
      && exists i :: 0 <= i < |Schedule(size)| && Encode(c, data, Schedule(size)[i]) == Optimize(c, data, size, maxSize)
    ensures var png := Encode(c, data, Attempt(Png(Some(9)), size.width, size.height));
      png.Some? && |png.value| <= maxSize ==> Optimize(c, data, size, maxSize) == png
  {
    if Optimize(c, data, size, maxSize).Some? {
      FitsWithinCeiling(c, data, Schedule(size), maxSize);
    }
  }

  function Upscale(c: Codec, data: Bytes): Option<Bytes> {
    match UpscaledSize(c, data)
    case None => None
    case Some(size) =>
      match Optimize(c, data, size, MaxFileSize)
      case None => None
      case Some(out) => if out == [] then None else Some(out)
  }

  lemma UpscaleWithinLimit(c: Codec, data: Bytes)
    ensures Upscale(c, data).Some? ==> 0 < |Upscale(c, data).value| <= MaxFileSize
  {
    if Upscale(c, data).Some? {
      OptimizeWithinLimit(c, data, UpscaledSize(c, data).value, MaxFileSize);
    }
  }

  method SearchLadder(c: Codec, data: Bytes, size: Size, maxSize: nat) returns (r: Search)
    ensures r == FirstFit(c, data, Ladder(size, 85, 10), maxSize)
  {
    ghost var goal := FirstFit(c, data, Ladder(size, 85, 10), maxSize);
    var quality, tenths := 85, 10;
    while quality > 30 && tenths > 4
      invariant goal == FirstFit(c, data, Ladder(size, quality, tenths), maxSize)
      decreases tenths, quality
    {
      var jpeg := Encode(c, data, Attempt(Jpeg(quality), Scaled(size.width, tenths), Scaled(size.height, tenths)));
      if jpeg.None? {
        return Failed;
      }
      if |jpeg.value| <= maxSize {
        return Fits(jpeg.value);
      }
      if quality > 60 {
        quality := quality - 10;
      } else if quality > 45 {
        quality := quality - 5;
      } else {
        quality := 75;
        tenths := tenths - 1;
      }
    }
    return NoneFit;
  }

  method SearchShrink(c: Codec, data: Bytes, size: Size, maxSize: nat) returns (r: Search)
    ensures r == FirstFit(c, data, Shrink(size, 6), maxSize)
  {
    ghost var goal := FirstFit(c, data, Shrink(size, 6), maxSize);
    var tenths := 6;
    while tenths > 2
      invariant goal == FirstFit(c, data, Shrink(size, tenths), maxSize)
    {
      var scaled := Encode(c, data, Attempt(Jpeg(70), Scaled(size.width, tenths), Scaled(size.height, tenths)));
      if scaled.None? {
        return Failed;
      }
      if |scaled.value| <= maxSize {
        return Fits(scaled.value);
      }
      tenths := tenths - 1;
    }
    return NoneFit;
  }

  /** `_optimize_image_size`: the PNG, then the two loops. */
  method OptimizeImageSize(c: Codec, data: Bytes, size: Size, maxSize: nat) returns (r: Option<Bytes>)
    ensures r == Optimize(c, data, size, maxSize)
  {
    var full := [Attempt(Png(Some(9)), size.width, size.height)];
    FirstFitAppend(c, data, full + Ladder(size, 85, 10), Shrink(size, 6), maxSize);
    FirstFitAppend(c, data, full, Ladder(size, 85, 10), maxSize);
    var png := Encode(c, data, full[0]);
    if png.None? {
      return None;
    }
    if |png.value| <= maxSize {
      return png;
    }
    var found := SearchLadder(c, data, size, maxSize);
    if found.Failed? {
      return None;
    }
    if found.Fits? {
      return Some(found.data);
    }
    found := SearchShrink(c, data, size, maxSize);
    if found.Fits? {
      return Some(found.data);
    }
    return None;
  }

  method UpscaleImage(c: Codec, data: Bytes) returns (r: Option<Bytes>)
    ensures r == Upscale(c, data)
  {
    var size := UpscaledSize(c, data);
    if size.None? {
      return None;
    }
    var result := OptimizeImageSize(c, data, size.value, MaxFileSize);
    if result.Some? && result.value != [] {
      return result;
    }
    return None;
  }

  // ---- Processing and the run ----

  /** Fetch the thumbnail (PNG before JPG) and write `event_image.png`,
      labelled by sniffing the bytes. */
  function SniffedImageJob(collection: string, eventId: string): Job {
    Job(AssetPaths(collection, eventId, "event_thumbnail"), ObjectPath(collection, eventId, ImagePng), true)
  }

  function Process(b: Bucket, c: Codec, collection: string, eventId: string): Outcome<Bucket> {
    Run(b, SniffedImageJob(collection, eventId), d => Upscale(c, d))
  }

  /** After a successful run `event_image.png` holds the upscaled thumbnail,
      under 1 MiB, labelled `image/jpeg` exactly when it starts with FF D8 FF. */
  lemma ProcessWritesImage(b: Bucket, c: Codec, collection: string, eventId: string)
    requires Process(b, c, collection, eventId).Ok?
    ensures var job := SniffedImageJob(collection, eventId);
      var b' := Process(b, c, collection, eventId).value;
      && FetchFirst(b, job.sources).Some?
      && Upscale(c, FetchFirst(b, job.sources).value).Some?
      && var out := Upscale(c, FetchFirst(b, job.sources).value).value;
      && Download(b', job.target) == Ok(out)
      && |out| <= MaxFileSize
      && (b'.contentTypes[job.target] == "image/jpeg" <==> |out| >= 3 && out[..3] == JpegMarker)
      && HasEventImage(b', collection, eventId)
  {
    var job := SniffedImageJob(collection, eventId);
    RunWrites(b, job, d => Upscale(c, d));
    var out := Upscale(c, FetchFirst(b, job.sources).value).value;
    UpscaleWithinLimit(c, FetchFirst(b, job.sources).value);
    SniffMatchesMarker(out);
    assert Process(b, c, collection, eventId) == Upload(b, job.target, out, ContentTypeOf(out));
    UploadedImageIsFound(b, collection, eventId, out, ContentTypeOf(out));
  }

  function RunAll(b: Bucket, c: Codec, collection: string, events: seq<string>): (r: (Bucket, nat))
    ensures r.1 <= |events|
  {
    if events == [] then (b, 0)
    else
      var (b', n) := RunAll(b, c, collection, Front(events));
      match Process(b', c, collection, Last(events))
      case Ok(b'') => (b'', n + 1)
      case Raised => (b', n)
  }

  class SimpleImageGenerator {
    var bucket: Bucket
    const codec: Codec
    var processedCount: nat
    var skippedCount: nat
    var errorCount: nat

    constructor (bucket: Bucket, codec: Codec)
      ensures this.bucket == bucket && this.codec == codec
      ensures processedCount == 0 && skippedCount == 0 && errorCount == 0
    {
      this.bucket := bucket;
      this.codec := codec;
      processedCount, skippedCount, errorCount := 0, 0, 0;
    }

    method ProcessEvent(collection: string, eventId: string) returns (ok: bool)
      modifies this
      ensures ok <==> Process(old(bucket), codec, collection, eventId).Ok?
      ensures bucket == (if ok then Process(old(bucket), codec, collection, eventId).value else old(bucket))
      ensures processedCount == old(processedCount) + (if ok then 1 else 0)
      ensures errorCount == old(errorCount) + (if ok then 0 else 1)
      ensures skippedCount == old(skippedCount)
    {
      var job := SniffedImageJob(collection, eventId);
      var thumbnail := FetchFirst(bucket, job.sources);
      if thumbnail.None? || thumbnail.value == [] {
        errorCount := errorCount + 1;
        return false;
      }
      var image := UpscaleImage(codec, thumbnail.value);
      if image.None? || image.value == [] {
        errorCount := errorCount + 1;
        return false;
      }
      var uploaded := Upload(bucket, job.target, image.value, ContentTypeOf(image.value));
      if uploaded.Raised? {
        errorCount := errorCount + 1;
        return false;
      }
      bucket := uploaded.value;
      processedCount := processedCount + 1;
      return true;
    }

    method GenerateMissingImages(listing: Outcome<seq<Blob>>, maxEvents: nat) returns (events: seq<string>)
      modifies this
      ensures events == SimpleNeeding(old(bucket), "events", listing, maxEvents)
      ensures bucket == RunAll(old(bucket), codec, "events", events).0
      ensures processedCount == old(processedCount) + RunAll(old(bucket), codec, "events", events).1
      ensures processedCount + errorCount == old(processedCount) + old(errorCount) + |events|
      ensures skippedCount == old(skippedCount)
    {
      events := GetEventsNeedingImages(bucket, "events", listing, maxEvents);
      ghost var b0, p0, e0 := bucket, processedCount, errorCount;
      for i := 0 to |events|
        invariant bucket == RunAll(b0, codec, "events", events[..i]).0
        invariant processedCount == p0 + RunAll(b0, codec, "events", events[..i]).1
        invariant processedCount + errorCount == p0 + e0 + i
        invariant skippedCount == old(skippedCount)
      {
        assert Front(events[..i + 1]) == events[..i] && Last(events[..i + 1]) == events[i];
        var _ := ProcessEvent("events", events[i]);
      }
      assert events[..|events|] == events;
    }
  }
}
