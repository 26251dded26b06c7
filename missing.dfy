/** `generate_missing_images.py`: group the listing, mark an event recent when
    one of its thumbnails was created within the last `months_back` 30-day
    months, keep the recent events with a thumbnail and no image, and give each
    an `event_image.png` upscaled from its thumbnail. */
module Missing {
  import opened Basics
  import opened Paths
  import opened Storage
  import opened Classifier
  import opened Imaging
  import opened Upscaling
  import opened Pipeline

  const MonthsBack: nat := 3
  const SecondsPerDay: nat := 86400

  /** `datetime.now() - timedelta(days=months_back * 30)`, in seconds; `now` is
      the local wall-clock reading, as the script takes it. */
  function Cutoff(now: int, monthsBack: nat): (cutoff: int)
    ensures cutoff <= now
  {
    now - monthsBack * 30 * SecondsPerDay
  }

  // ---- The scan ----

  /** `recent_events` after the loop: the events with a thumbnail created at or
      after the cutoff; the first thumbnail whose `reload()` raises ends the scan. */
  function RecentSet(blobs: seq<Blob>, cutoff: int): Outcome<set<string>> {
    if blobs == [] then Ok({})
    else match RecentSet(Front(blobs), cutoff)
      case Raised => Raised
      case Ok(recent) =>
        match Parse(Last(blobs).name)
        case None => Ok(recent)
        case Some(Entry(e, f)) =>
          if !IsThumbnailFile(f) then Ok(recent)
          else match Last(blobs).meta
            case Raised => Raised
            case Ok(None) => Ok(recent)
            case Ok(Some(t)) => Ok(if t >= cutoff then recent + {e} else recent)
  }

  /** The selection loop: recent keys with a thumbnail and no image, in key order. */
  function Choose(ids: seq<string>, entries: map<string, Flags>, recent: set<string>): (r: seq<string>)
    ensures forall e :: e in r <==> e in ids && e in recent && e in entries && entries[e].hasThumbnail && !entries[e].hasImage
  {
    if ids == [] then []
    else
      var e := Last(ids);
      assert ids == Front(ids) + [e];
      Choose(Front(ids), entries, recent) + if e in recent && e in entries && entries[e].hasThumbnail && !entries[e].hasImage then [e] else []
  }

  /** `get_events_needing_images(collection, months_back)`; a listing or a
      reload that raises gives no events. */
  function MissingNeeding(listing: Outcome<seq<Blob>>, now: int, monthsBack: nat): seq<string> {
    match listing
    case Raised => []
    case Ok(blobs) =>
      match RecentSet(blobs, Cutoff(now, monthsBack))
      case Raised => []
      case Ok(recent) =>
        var t := Classify(blobs);
        Choose(t.ids, t.entries, recent)
  }

  ghost predicate ReloadRaises(blobs: seq<Blob>) {
    exists k :: 0 <= k < |blobs| && IsThumbnailName(blobs[k].name) && blobs[k].meta.Raised?
  }

  predicate IsThumbnailName(name: string) {
    match Parse(name)
    case Some(en) => IsThumbnailFile(en.filename)
    case None => false
  }

  /** A thumbnail blob of `e` that reports a creation time at or after `cutoff`. */
  predicate RecentBlob(b: Blob, e: string, cutoff: int) {
    ThumbnailBlobOf(b, e) && b.meta.Ok? && b.meta.value.Some? && b.meta.value.value >= cutoff
  }

  ghost predicate RecentThumbnail(blobs: seq<Blob>, e: string, cutoff: int) {
    exists k :: 0 <= k < |blobs| && RecentBlob(blobs[k], e, cutoff)
  }

  lemma RecentFront(blobs: seq<Blob>, e: string, cutoff: int)
    requires blobs != []
    ensures ReloadRaises(blobs) <==> ReloadRaises(Front(blobs)) || (IsThumbnailName(Last(blobs).name) && Last(blobs).meta.Raised?)
    ensures RecentThumbnail(blobs, e, cutoff) <==> RecentThumbnail(Front(blobs), e, cutoff) || RecentBlob(Last(blobs), e, cutoff)
  {
    var front := Front(blobs);
    assert forall k :: 0 <= k < |front| ==> front[k] == blobs[k];
    if ReloadRaises(front) {
      var k :| 0 <= k < |front| && IsThumbnailName(front[k].name) && front[k].meta.Raised?;
      assert IsThumbnailName(blobs[k].name);
    }
    if RecentThumbnail(front, e, cutoff) {
      var k :| 0 <= k < |front| && RecentBlob(front[k], e, cutoff);
      assert RecentBlob(blobs[k], e, cutoff);
    }
  }

  /** The scan ends in an exception exactly when some thumbnail's reload
      raises; otherwise an event is recent exactly when one of its thumbnails
      was created at or after the cutoff. */
  lemma {:induction false} RecentSetExact(blobs: seq<Blob>, cutoff: int)
    ensures RecentSet(blobs, cutoff).Raised? <==> ReloadRaises(blobs)
    ensures RecentSet(blobs, cutoff).Ok? ==> forall e :: e in RecentSet(blobs, cutoff).value <==> RecentThumbnail(blobs, e, cutoff)
  {
    if blobs != [] {
      RecentSetExact(Front(blobs), cutoff);
      forall e ensures RecentThumbnail(blobs, e, cutoff) <==> RecentThumbnail(Front(blobs), e, cutoff) || RecentBlob(Last(blobs), e, cutoff) {
        RecentFront(blobs, e, cutoff);
      }
      RecentFront(blobs, "", cutoff);
    }
  }

  lemma {:induction false} ChooseOrder(ids: seq<string>, entries: map<string, Flags>, recent: set<string>)
    ensures Subsequence(Choose(ids, entries, recent), ids)
    ensures Distinct(ids) ==> Distinct(Choose(ids, entries, recent))
  {
    ChooseSubsequence(ids, entries, recent);
    if Distinct(ids) {
      ChooseDistinct(ids, entries, recent);
    }
  }

  lemma {:induction false} ChooseSubsequence(ids: seq<string>, entries: map<string, Flags>, recent: set<string>)
    ensures Subsequence(Choose(ids, entries, recent), ids)
  {
    if ids != [] {
      var e := Last(ids);
      var r := Choose(Front(ids), entries, recent);
      ChooseSubsequence(Front(ids), entries, recent);
      assert ids == Front(ids) + [e];
      SubsequenceExtend(r, Front(ids), e);
      assert r + [] == r;
    }
  }

  lemma {:induction false} ChooseDistinct(ids: seq<string>, entries: map<string, Flags>, recent: set<string>)
    requires Distinct(ids)
    ensures Distinct(Choose(ids, entries, recent))
  {
    if ids != [] {
      var e := Last(ids);
      var r := Choose(Front(ids), entries, recent);
      ChooseDistinct(Front(ids), entries, recent);
      assert ids == Front(ids) + [e];
      assert e !in Front(ids);
      assert e !in r;
      assert r + [] == r;
    }
  }

  /** When no reload raises, the selection lists, once each and in first-seen
      order, exactly the events with a thumbnail created at or after the cutoff
      and no image; when one raises, it is empty. */
  lemma MissingNeedingExact(blobs: seq<Blob>, now: int, monthsBack: nat)
    ensures var r := MissingNeeding(Ok(blobs), now, monthsBack);
      && (ReloadRaises(blobs) ==> r == [])
      && (!ReloadRaises(blobs) ==>
            && Distinct(r)
            && Subsequence(r, EventIds(blobs))
            && forall e :: e in r <==> RecentThumbnail(blobs, e, Cutoff(now, monthsBack)) && !HasImageBlob(blobs, e))
  {
    var cutoff := Cutoff(now, monthsBack);
    RecentSetExact(blobs, cutoff);
    ClassifyExact(blobs);
    var t := Classify(blobs);
    ChooseOrder(t.ids, t.entries, if RecentSet(blobs, cutoff).Ok? then RecentSet(blobs, cutoff).value else {});
    forall e | RecentThumbnail(blobs, e, cutoff)
      ensures Mentions(blobs, e) && HasThumbnailBlob(blobs, e)
    {
      var k :| 0 <= k < |blobs| && RecentBlob(blobs[k], e, cutoff);
      assert EventOf(blobs[k]) == Some(e);
    }
  }

  /** Looking further back never drops an event: with the same listing and
      clock, everything selected for `m1` months is selected for `m2 >= m1`. */
  lemma LongerLookBackWidens(blobs: seq<Blob>, now: int, m1: nat, m2: nat)
    requires m1 <= m2
    ensures forall e :: e in MissingNeeding(Ok(blobs), now, m1) ==> e in MissingNeeding(Ok(blobs), now, m2)
  {
    MissingNeedingExact(blobs, now, m1);
    MissingNeedingExact(blobs, now, m2);
    assert Cutoff(now, m2) <= Cutoff(now, m1);
    forall e | RecentThumbnail(blobs, e, Cutoff(now, m1))
      ensures RecentThumbnail(blobs, e, Cutoff(now, m2))
    {
      var k :| 0 <= k < |blobs| && RecentBlob(blobs[k], e, Cutoff(now, m1));
      assert RecentBlob(blobs[k], e, Cutoff(now, m2));
    }
  }

  lemma {:induction false} RecentSetRaisedSticks(blobs: seq<Blob>, cutoff: int, i: nat)
    requires i <= |blobs|
    requires RecentSet(blobs[..i], cutoff).Raised?
    ensures RecentSet(blobs, cutoff).Raised?
    decreases |blobs| - i
  {
    if i < |blobs| {
      assert Front(blobs[..i + 1]) == blobs[..i];
      RecentSetRaisedSticks(blobs, cutoff, i + 1);
    } else {
      assert blobs[..i] == blobs;
    }
  }

  /** The grouping loop of `get_events_needing_images`, which also collects the
      events with a recent thumbnail; a failing `reload` ends it. */
  method GroupRecent(blobs: seq<Blob>, cutoff: int) returns (r: Outcome<set<string>>, ids: seq<string>, events: map<string, Flags>)
    ensures r == RecentSet(blobs, cutoff)
    ensures r.Ok? ==> Table(ids, events) == Classify(blobs)
  {
    ids, events := [], map[];
    var recent: set<string> := {};
    for i := 0 to |blobs|
      invariant Table(ids, events) == Classify(blobs[..i])
      invariant RecentSet(blobs[..i], cutoff) == Ok(recent)
    {
      assert Front(blobs[..i + 1]) == blobs[..i] && Last(blobs[..i + 1]) == blobs[i];
      var parts := Split(blobs[i].name);
      if |parts| >= 3 {
        var eventId, filename := parts[1], parts[2];
        if IsThumbnailFile(filename) {
          match blobs[i].meta
          case Raised =>
            RecentSetRaisedSticks(blobs, cutoff, i + 1);
            return Raised, ids, events;
          case Ok(created) =>
            if created.Some? && created.value >= cutoff {
              recent := recent + {eventId};
            }
        }
        if eventId !in events {
          events := events[eventId := Unmarked];
          ids := ids + [eventId];
        }
        if IsImageFile(filename) {
          events := events[eventId := events[eventId].(hasImage := true)];
        } else if IsThumbnailFile(filename) {
          events := events[eventId := events[eventId].(hasThumbnail := true)];
        }
      }
    }
    assert blobs[..|blobs|] == blobs;
    r := Ok(recent);
  }

  /** The selection loop of `get_events_needing_images`. */
  method SelectRecent(ids: seq<string>, events: map<string, Flags>, recent: set<string>) returns (needing: seq<string>)
    ensures needing == Choose(ids, events, recent)
  {
    needing := [];
    for j := 0 to |ids|
      invariant needing == Choose(ids[..j], events, recent)
    {
      assert Front(ids[..j + 1]) == ids[..j] && Last(ids[..j + 1]) == ids[j];
      var e := ids[j];
      if e in recent && e in events && events[e].hasThumbnail && !events[e].hasImage {
        needing := needing + [e];
      }
    }
    assert ids[..|ids|] == ids;
  }

  /** `get_events_needing_images`: any exception returns the empty list. */
  method GetEventsNeedingImages(listing: Outcome<seq<Blob>>, now: int, monthsBack: nat) returns (needing: seq<string>)
    ensures needing == MissingNeeding(listing, now, monthsBack)
  {
    if listing.Raised? {
      return [];
    }
    var recent, ids, events := GroupRecent(listing.value, Cutoff(now, monthsBack));
    if recent.Raised? {
      return [];
    }
    needing := SelectRecent(ids, events, recent.value);
  }

  // ---- Processing and the run ----

  class MissingImageGenerator {
    var bucket: Bucket
    const codec: Codec
    var processedCount: nat
    var skippedCount: nat
    var errorCount: nat

    constructor (bucket: Bucket, codec: Codec)
      ensures this.bucket == bucket && this.codec == codec
      ensures processedCount == 0 && skippedCount == 0 && errorCount == 0
    {
      this.bucket := bucket;
      this.codec := codec;
      processedCount, skippedCount, errorCount := 0, 0, 0;
    }

    method ProcessEvent(collection: string, eventId: string) returns (ok: bool)
      modifies this
      ensures ok <==> ProcessPng(old(bucket), codec, collection, eventId).Ok?
      ensures bucket == (if ok then ProcessPng(old(bucket), codec, collection, eventId).value else old(bucket))
      ensures processedCount == old(processedCount) + (if ok then 1 else 0)
      ensures errorCount == old(errorCount) + (if ok then 0 else 1)
      ensures skippedCount == old(skippedCount)
    {
      var job := ImageJob(collection, eventId);
      var thumbnail := FetchFirst(bucket, job.sources);
      if thumbnail.None? || thumbnail.value == [] {
        errorCount := errorCount + 1;
        return false;
      }
      var image := UpscalePng(codec, thumbnail.value);
      if image.None? || image.value == [] {
        errorCount := errorCount + 1;
        return false;
      }
      var uploaded := Upload(bucket, job.target, image.value, "image/png");
      if uploaded.Raised? {
        errorCount := errorCount + 1;
        return false;
      }
      bucket := uploaded.value;
      processedCount := processedCount + 1;
      return true;
    }

    /** `generate_missing_images`, with the clock read passed in. */
    method GenerateMissingImages(listing: Outcome<seq<Blob>>, now: int) returns (events: seq<string>)
      modifies this
      ensures events == MissingNeeding(listing, now, MonthsBack)
      ensures bucket == RunAllPng(old(bucket), codec, "events", events).0
      ensures processedCount == old(processedCount) + RunAllPng(old(bucket), codec, "events", events).1
      ensures processedCount + errorCount == old(processedCount) + old(errorCount) + |events|
      ensures skippedCount == old(skippedCount)
    {
      events := GetEventsNeedingImages(listing, now, MonthsBack);
      ghost var b0, p0, e0 := bucket, processedCount, errorCount;
      for i := 0 to |events|
        invariant bucket == RunAllPng(b0, codec, "events", events[..i]).0
        invariant processedCount == p0 + RunAllPng(b0, codec, "events", events[..i]).1
        invariant processedCount + errorCount == p0 + e0 + i
        invariant skippedCount == old(skippedCount)
      {
        assert Front(events[..i + 1]) == events[..i] && Last(events[..i + 1]) == events[i];
        var _ := ProcessEvent("events", events[i]);
      }
      assert events[..|events|] == events;
    }
  }
}
