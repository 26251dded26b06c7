/** The statistics the three diagnostic scripts (`check_thumbnail.py`,
    `full_scan.py`, `scan_events.py`) print for one grouped listing: how many
    events there are, how many have an image, how many have a thumbnail, the
    events with an image and no thumbnail, and the events with both. */
module Coverage {
  import opened Basics
  import opened Storage
  import opened Classifier
  import opened Counting

  predicate WithImage(f: Flags) { f.hasImage }
  predicate WithThumbnail(f: Flags) { f.hasThumbnail }

  datatype Coverage = Coverage(total: nat, withImages: nat, withThumbnails: nat, need: seq<string>, withBoth: seq<string>)

  /** `len(events)`, the two `len([e for e in events.values() if ...])` counts,
      and the two `[event_id for event_id, data in events.items() if ...]` lists. */
  function CoverageOf(t: Table<Flags>): Coverage {
    Coverage(|t.ids|,
      CountWhere(t.ids, t.entries, WithImage), CountWhere(t.ids, t.entries, WithThumbnail),
      SelectIds(t.ids, t.entries, OnlyImage), SelectIds(t.ids, t.entries, Both))
  }

  /** An event with an image either lacks a thumbnail or has both; an event with
      a thumbnail either lacks an image or has both. */
  lemma {:induction false} CountsSplit(ids: seq<string>, entries: map<string, Flags>)
    ensures CountWhere(ids, entries, WithImage) == CountWhere(ids, entries, OnlyImage) + CountWhere(ids, entries, Both)
    ensures CountWhere(ids, entries, WithThumbnail) == CountWhere(ids, entries, OnlyThumbnail) + CountWhere(ids, entries, Both)
  {
    if ids != [] {
      CountsSplit(Front(ids), entries);
    }
  }

  /** What the printed statistics mean for the listing: the total is the number
      of distinct events named; the image count splits into the events needing a
      thumbnail and the events with both, which are disjoint, each listed once in
      first-seen order; the thumbnail count is at least the events with both. */
  lemma CoverageExact(blobs: seq<Blob>)
    ensures var c := CoverageOf(Classify(blobs));
      && c.total == |EventIds(blobs)|
      && c.withImages == |c.need| + |c.withBoth|
      && c.withThumbnails >= |c.withBoth|
      && Distinct(c.need) && Subsequence(c.need, EventIds(blobs))
      && Distinct(c.withBoth) && Subsequence(c.withBoth, EventIds(blobs))
      && (forall e :: e in c.need <==> HasImageBlob(blobs, e) && !HasThumbnailBlob(blobs, e))
      && (forall e :: e in c.withBoth <==> HasImageBlob(blobs, e) && HasThumbnailBlob(blobs, e))
  {
    var t := Classify(blobs);
    ClassifyExact(blobs);
    CountsSplit(t.ids, t.entries);
    CountIsSelection(t.ids, t.entries, OnlyImage);
    CountIsSelection(t.ids, t.entries, Both);
    SelectIdsDistinct(t.ids, t.entries, OnlyImage);
    SelectIdsDistinct(t.ids, t.entries, Both);
    SelectIdsOrder(t.ids, t.entries, OnlyImage);
    SelectIdsOrder(t.ids, t.entries, Both);
    forall e | HasImageBlob(blobs, e) ensures Mentions(blobs, e) {
      var k :| 0 <= k < |blobs| && ImageBlobOf(blobs[k], e);
      assert EventOf(blobs[k]) == Some(e);
    }
  }

  /** The statistics loops, fused into one pass over the keys. */
  method Summarize(ids: seq<string>, events: map<string, Flags>) returns (c: Coverage)
    ensures c == CoverageOf(Table(ids, events))
  {
    var withImages, withThumbnails := 0, 0;
    var need, withBoth := [], [];
    for i := 0 to |ids|
      invariant withImages == CountWhere(ids[..i], events, WithImage)
      invariant withThumbnails == CountWhere(ids[..i], events, WithThumbnail)
      invariant need == SelectIds(ids[..i], events, OnlyImage)
      invariant withBoth == SelectIds(ids[..i], events, Both)
    {
      assert Front(ids[..i + 1]) == ids[..i] && Last(ids[..i + 1]) == ids[i];
      var e := ids[i];
      if e in events {
        var f := events[e];
        if f.hasImage {
          withImages := withImages + 1;
        }
        if f.hasThumbnail {
          withThumbnails := withThumbnails + 1;
        }
        if f.hasImage && !f.hasThumbnail {
          need := need + [e];
        }
        if f.hasImage && f.hasThumbnail {
          withBoth := withBoth + [e];
        }
      }
    }
    assert ids[..|ids|] == ids;
    c := Coverage(|ids|, withImages, withThumbnails, need, withBoth);
  }
}
