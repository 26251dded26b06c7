/** `count_events_needing_images.py`: one pass over the listing that counts the
    blobs and groups them, then four counts over the grouped events, and the
    number of events with a thumbnail and no image as the answer. */
module Counting {
  import opened Basics
  import opened Storage
  import opened Paths
  import opened Classifier

  const BatchSize: nat := 500

  /** `sum(1 for e in events.values() if keep(e))`. */
  function CountWhere(ids: seq<string>, entries: map<string, Flags>, keep: Flags -> bool): nat {
    if ids == [] then 0
    else CountWhere(Front(ids), entries, keep) + if Last(ids) in entries && keep(entries[Last(ids)]) then 1 else 0
  }

  /** What the script logs. */
  datatype Report = Report(totalBlobs: nat, totalEvents: nat, both: nat, onlyImage: nat, onlyThumbnail: nat, neither: nat)

  function Tally(blobs: seq<Blob>): Report {
    var t := Classify(blobs);
    Report(|blobs|, |t.ids|,
      CountWhere(t.ids, t.entries, Both), CountWhere(t.ids, t.entries, OnlyImage),
      CountWhere(t.ids, t.entries, OnlyThumbnail), CountWhere(t.ids, t.entries, Neither))
  }

  /** The return value: the only-thumbnail count, or 0 when the scan raised. */
  function CountNeeding(listing: Outcome<seq<Blob>>): nat {
    match listing
    case Raised => 0
    case Ok(blobs) => Tally(blobs).onlyThumbnail
  }

  /** `(n + 499) // 500`, logged only when `n > 0`. */
  function Batches(n: nat): nat {
    (n + BatchSize - 1) / BatchSize
  }

  /** The batch count is the ceiling of `n / 500`: enough batches of 500 for
      `n` events, and one fewer would not be. */
  lemma BatchesCeiling(n: nat)
    requires n > 0
    ensures Batches(n) * BatchSize >= n
    ensures (Batches(n) - 1) * BatchSize < n
    ensures Batches(n) >= 1
  {
  }

  /** Counting is the length of the matching selection. */
  lemma {:induction false} CountIsSelection(ids: seq<string>, entries: map<string, Flags>, keep: Flags -> bool)
    ensures CountWhere(ids, entries, keep) == |SelectIds(ids, entries, keep)|
  {
    if ids != [] {
      CountIsSelection(Front(ids), entries, keep);
    }
  }

  /** Over keys that all have a record, the four categories split the keys. */
  lemma {:induction false} CategoriesPartition(ids: seq<string>, entries: map<string, Flags>)
    requires forall e :: e in ids ==> e in entries
    ensures CountWhere(ids, entries, Both) + CountWhere(ids, entries, OnlyImage)
      + CountWhere(ids, entries, OnlyThumbnail) + CountWhere(ids, entries, Neither) == |ids|
  {
    if ids != [] {
      assert Last(ids) in ids;
      assert forall e :: e in Front(ids) ==> e in ids;
      CategoriesPartition(Front(ids), entries);
    }
  }

  /** The report: every blob is counted, every event falls into exactly one
      category, and the answer counts, once each, exactly the events with a
      thumbnail blob and no image blob. */
  lemma TallyExact(blobs: seq<Blob>)
    ensures var r := Tally(blobs);
      && r.totalBlobs == |blobs|
      && r.totalEvents == |EventIds(blobs)| <= |blobs|
      && r.both + r.onlyImage + r.onlyThumbnail + r.neither == r.totalEvents
      && var t := Classify(blobs);
      && r.onlyThumbnail == |SelectIds(t.ids, t.entries, OnlyThumbnail)|
      && forall e :: e in SelectIds(t.ids, t.entries, OnlyThumbnail) <==> HasThumbnailBlob(blobs, e) && !HasImageBlob(blobs, e)
  {
    var t := Classify(blobs);
    ClassifyExact(blobs);
    CategoriesPartition(t.ids, t.entries);
    CountIsSelection(t.ids, t.entries, OnlyThumbnail);
    EventsAtMostBlobs(blobs);
    forall e | HasThumbnailBlob(blobs, e)
      ensures Mentions(blobs, e)
    {
      var k :| 0 <= k < |blobs| && ThumbnailBlobOf(blobs[k], e);
      assert EventOf(blobs[k]) == Some(e);
    }
  }

  lemma {:induction false} EventsAtMostBlobs(blobs: seq<Blob>)
    ensures |EventIds(blobs)| <= |blobs|
  {
    if blobs != [] {
      EventsAtMostBlobs(Front(blobs));
    }
  }

  /** `count_events_needing_images`: the answer, and the report it logs (None
      when the scan raised). */
  method CountEventsNeedingImages(listing: Outcome<seq<Blob>>) returns (count: nat, report: Option<Report>)
    ensures count == CountNeeding(listing)
    ensures report == if listing.Raised? then None else Some(Tally(listing.value))
  {
    if listing.Raised? {
      return 0, None;
    }
    var blobs := listing.value;
    var ids: seq<string> := [];
    var events: map<string, Flags> := map[];
    var totalBlobs := 0;
    for i := 0 to |blobs|
      invariant totalBlobs == i
      invariant Table(ids, events) == Classify(blobs[..i])
    {
      totalBlobs := totalBlobs + 1;
      assert Front(blobs[..i + 1]) == blobs[..i] && Last(blobs[..i + 1]) == blobs[i];
      var parts := Split(blobs[i].name);
      if |parts| >= 3 {
        var eventId, filename := parts[1], parts[2];
        if eventId !in events {
          events := events[eventId := Unmarked];
          ids := ids + [eventId];
        }
        if IsImageFile(filename) {
          events := events[eventId := events[eventId].(hasImage := true)];
        } else if IsThumbnailFile(filename) {
          events := events[eventId := events[eventId].(hasThumbnail := true)];
        }
      }
    }
    assert blobs[..|blobs|] == blobs;
    var r := Report(totalBlobs, |ids|,
      CountWhere(ids, events, Both), CountWhere(ids, events, OnlyImage),
      CountWhere(ids, events, OnlyThumbnail), CountWhere(ids, events, Neither));
    return r.onlyThumbnail, Some(r);
  }
}
