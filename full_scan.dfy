/** `full_scan.py`: for each of the two collections in turn, group the listing
    into events that also remember the size of their image and thumbnail blob,
    then print the coverage statistics, up to five events needing a thumbnail
    with their image size, and up to three events that have both. One `try`
    covers both collections: an exception while scanning the second one ends the
    run after the first one's report. */
module FullScan {
  import opened Basics
  import opened Paths
  import opened Storage
  import opened Classifier
  import opened Coverage

  const Collections: seq<string> := ["bayAreaEvents", "austinEvents"]
  const NeedSampleSize: nat := 5
  const BothSampleSize: nat := 3

  /** The record of one event: the flags and the sizes, 0 until a blob of that role is seen. */
  datatype Sized = Sized(flags: Flags, imageSize: nat, thumbnailSize: nat)

  const Blank := Sized(Unmarked, 0, 0)

  /** The `if filename in [...image...]: ... elif ...` update, which also records `blob.size`. */
  function SizedTouch(s: Sized, b: Blob, filename: string): Sized {
    if IsImageFile(filename) then s.(flags := s.flags.(hasImage := true), imageSize := b.size)
    else if IsThumbnailFile(filename) then s.(flags := s.flags.(hasThumbnail := true), thumbnailSize := b.size)
    else s
  }

  function SizedTable(blobs: seq<Blob>): Table<Sized> {
    Group(blobs, Blank, SizedTouch)
  }

  /** The flags part of the dict, which is all the statistics read. */
  function FlagsOf(t: Table<Sized>): Table<Flags> {
    Table(t.ids, map e | e in t.entries :: t.entries[e].flags)
  }

  /** The size of the last image blob of `e` in the listing, 0 when there is none. */
  function LastImageSize(blobs: seq<Blob>, e: string): nat {
    if blobs == [] then 0
    else if ImageBlobOf(Last(blobs), e) then Last(blobs).size
    else LastImageSize(Front(blobs), e)
  }

  function LastThumbnailSize(blobs: seq<Blob>, e: string): nat {
    if blobs == [] then 0
    else if ThumbnailBlobOf(Last(blobs), e) then Last(blobs).size
    else LastThumbnailSize(Front(blobs), e)
  }

  lemma {:induction false} ReplaySized(blobs: seq<Blob>, e: string)
    ensures var s := Replay(blobs, e, Blank, SizedTouch);
      && s.flags == Replay(blobs, e, Unmarked, MarkBlob)
      && s.imageSize == LastImageSize(blobs, e)
      && s.thumbnailSize == LastThumbnailSize(blobs, e)
  {
    if blobs != [] {
      ReplaySized(Front(blobs), e);
    }
  }

  /** The sized dict has the same keys and flags as the plain classifier, and
      each event remembers the size of the last image and the last thumbnail
      blob the listing names for it (a later `.jpg` overwrites an earlier
      `.png`). */
  lemma SizedTableExact(blobs: seq<Blob>)
    ensures FlagsOf(SizedTable(blobs)) == Classify(blobs)
    ensures var t := SizedTable(blobs);
      forall e :: e in t.entries ==>
        t.entries[e].imageSize == LastImageSize(blobs, e) && t.entries[e].thumbnailSize == LastThumbnailSize(blobs, e)
  {
    var t := SizedTable(blobs);
    var c := Classify(blobs);
    GroupShape(blobs, Blank, SizedTouch);
    GroupShape(blobs, Unmarked, MarkBlob);
    forall e | e in t.entries
      ensures t.entries[e].flags == c.entries[e]
      ensures t.entries[e].imageSize == LastImageSize(blobs, e) && t.entries[e].thumbnailSize == LastThumbnailSize(blobs, e)
    {
      ReplaySized(blobs, e);
    }
    assert FlagsOf(t).entries == c.entries;
  }

  /** An event with no blob of a role reports size 0 for that role. */
  lemma {:induction false} AbsentSizeIsZero(blobs: seq<Blob>, e: string)
    ensures !HasImageBlob(blobs, e) ==> LastImageSize(blobs, e) == 0
    ensures !HasThumbnailBlob(blobs, e) ==> LastThumbnailSize(blobs, e) == 0
  {
    if blobs != [] {
      HasBlobFront(blobs, e);
      AbsentSizeIsZero(Front(blobs), e);
    }
  }

  /** One printed sample line: the event and its recorded sizes in bytes. */
  datatype SizeLine = SizeLine(eventId: string, imageSize: nat, thumbnailSize: nat)

  function Lines(ids: seq<string>, entries: map<string, Sized>): (lines: seq<SizeLine>)
    requires forall e :: e in ids ==> e in entries
    ensures |lines| == |ids|
    ensures forall i :: 0 <= i < |ids| ==>
      lines[i] == SizeLine(ids[i], entries[ids[i]].imageSize, entries[ids[i]].thumbnailSize)
  {
    if ids == [] then []
    else
      assert forall e :: e in Front(ids) ==> e in ids;
      Lines(Front(ids), entries) + [SizeLine(Last(ids), entries[Last(ids)].imageSize, entries[Last(ids)].thumbnailSize)]
  }

  datatype CollectionReport = CollectionReport(collection: string, coverage: Coverage, needSample: Preview<SizeLine>, bothSample: seq<SizeLine>)

  function ReportOf(collection: string, blobs: seq<Blob>): CollectionReport {
    var t := SizedTable(blobs);
    var c := CoverageOf(FlagsOf(t));
    CollectionReport(collection, c,
      Truncate(Lines(c.need, t.entries), NeedSampleSize),
      Take(Lines(c.withBoth, t.entries), BothSampleSize))
  }

  /** Each sample line carries the sizes of the last image and last thumbnail
      blob of its event. */
  lemma SampleLines(blobs: seq<Blob>, ids: seq<string>)
    requires forall e :: e in ids ==> e in SizedTable(blobs).entries
    ensures var lines := Lines(ids, SizedTable(blobs).entries);
      forall i :: 0 <= i < |ids| ==> lines[i] == SizeLine(ids[i], LastImageSize(blobs, ids[i]), LastThumbnailSize(blobs, ids[i]))
  {
    SizedTableExact(blobs);
  }

  /** The first sample: up to five events needing a thumbnail, in order, each
      with the size of its last image blob and no thumbnail size. */
  lemma NeedSample(collection: string, blobs: seq<Blob>)
    ensures var r := ReportOf(collection, blobs);
      forall i :: 0 <= i < |r.needSample.shown| ==>
        && r.needSample.shown[i].eventId == r.coverage.need[i]
        && r.needSample.shown[i].imageSize == LastImageSize(blobs, r.coverage.need[i])
        && r.needSample.shown[i].thumbnailSize == 0
  {
    SizedTableExact(blobs);
    var t := SizedTable(blobs);
    var c := CoverageOf(FlagsOf(t));
    SampleLines(blobs, c.need);
    var needLines := Lines(c.need, t.entries);
    var r := ReportOf(collection, blobs);
    assert r.needSample.shown <= needLines;
    forall i | 0 <= i < |r.needSample.shown|
      ensures r.needSample.shown[i] == SizeLine(c.need[i], LastImageSize(blobs, c.need[i]), 0)
    {
      assert r.needSample.shown[i] == needLines[i];
      NeedHasNoThumbnail(blobs, c.need[i]);
    }
  }

  /** The second sample: up to three events with both, in order, each with the
      sizes of its last image and last thumbnail blob. */
  lemma BothSample(collection: string, blobs: seq<Blob>)
    ensures var r := ReportOf(collection, blobs);
      forall i :: 0 <= i < |r.bothSample| ==>
        r.bothSample[i] == SizeLine(r.coverage.withBoth[i], LastImageSize(blobs, r.coverage.withBoth[i]), LastThumbnailSize(blobs, r.coverage.withBoth[i]))
  {
    SizedTableExact(blobs);
    var t := SizedTable(blobs);
    var c := CoverageOf(FlagsOf(t));
    SampleLines(blobs, c.withBoth);
    var bothLines := Lines(c.withBoth, t.entries);
    var r := ReportOf(collection, blobs);
    assert r.bothSample <= bothLines;
    forall i | 0 <= i < |r.bothSample|
      ensures r.bothSample[i] == bothLines[i]
    {
    }
  }

  /** The report of one collection: the statistics are those of the plain
      classifier; the first sample shows up to five events needing a thumbnail,
      in order, each with the size of its last image blob and saying how many
      more there are; the second shows up to three events with both, each with
      the sizes of its last image and last thumbnail blob. */
  lemma ReportExact(collection: string, blobs: seq<Blob>)
    ensures var r := ReportOf(collection, blobs);
      && r.coverage == CoverageOf(Classify(blobs))
      && |r.needSample.shown| <= NeedSampleSize
      && (r.needSample.more.Some? <==> |r.coverage.need| > NeedSampleSize)
      && (forall i :: 0 <= i < |r.needSample.shown| ==>
            && r.needSample.shown[i].eventId == r.coverage.need[i]
            && r.needSample.shown[i].imageSize == LastImageSize(blobs, r.coverage.need[i])
            && r.needSample.shown[i].thumbnailSize == 0)
      && |r.bothSample| == (if |r.coverage.withBoth| <= BothSampleSize then |r.coverage.withBoth| else BothSampleSize)
      && (forall i :: 0 <= i < |r.bothSample| ==>
            r.bothSample[i] == SizeLine(r.coverage.withBoth[i], LastImageSize(blobs, r.coverage.withBoth[i]), LastThumbnailSize(blobs, r.coverage.withBoth[i])))
  {
    SizedTableExact(blobs);
    NeedSample(collection, blobs);
    BothSample(collection, blobs);
  }

  lemma NeedHasNoThumbnail(blobs: seq<Blob>, e: string)
    requires e in CoverageOf(Classify(blobs)).need
    ensures LastThumbnailSize(blobs, e) == 0
  {
    CoverageExact(blobs);
    AbsentSizeIsZero(blobs, e);
  }

  /** What the run printed: the reports of the collections scanned, in order,
      and whether an exception ended it. */
  datatype ScanResult = ScanResult(reports: seq<CollectionReport>, failed: bool)

  /** The `for collection in collections` loop inside the one `try`. */
  function ScanCollections(cols: seq<string>, listing: string -> Outcome<seq<Blob>>): ScanResult {
    if cols == [] then ScanResult([], false)
    else
      var p := ScanCollections(Front(cols), listing);
      if p.failed then p
      else match listing(Last(cols))
        case Raised => ScanResult(p.reports, true)
        case Ok(blobs) => ScanResult(p.reports + [ReportOf(Last(cols), blobs)], false)
  }

  function Scan(listing: string -> Outcome<seq<Blob>>): ScanResult {
    ScanCollections(Collections, listing)
  }

  /** The collections are reported in order, each from its own listing; the run
      fails exactly when some listing raises, and then it stops at the first
      such collection, having reported every collection before it. */
  lemma {:induction false} ScanCollectionsExact(cols: seq<string>, listing: string -> Outcome<seq<Blob>>)
    ensures var r := ScanCollections(cols, listing);
      && |r.reports| <= |cols|
      && (forall i :: 0 <= i < |r.reports| ==>
            listing(cols[i]).Ok? && r.reports[i] == ReportOf(cols[i], listing(cols[i]).value))
      && (r.failed <==> exists i :: 0 <= i < |cols| && listing(cols[i]).Raised?)
      && (r.failed ==> listing(cols[|r.reports|]).Raised?)
      && (!r.failed ==> |r.reports| == |cols|)
  {
    ScanCollectionsPrefix(cols, listing);
    var r := ScanCollections(cols, listing);
    if !r.failed {
      assert forall i :: 0 <= i < |cols| ==> listing(cols[i]).Ok?;
    }
  }

  lemma {:induction false} ScanCollectionsPrefix(cols: seq<string>, listing: string -> Outcome<seq<Blob>>)
    ensures var r := ScanCollections(cols, listing);
      && |r.reports| <= |cols|
      && (forall i :: 0 <= i < |r.reports| ==>
            listing(cols[i]).Ok? && r.reports[i] == ReportOf(cols[i], listing(cols[i]).value))
      && (r.failed ==> |r.reports| < |cols| && listing(cols[|r.reports|]).Raised?)
      && (!r.failed ==> |r.reports| == |cols|)
  {
    if cols != [] {
      ScanCollectionsPrefix(Front(cols), listing);
      var p := ScanCollections(Front(cols), listing);
      var r := ScanCollections(cols, listing);
      assert forall i :: 0 <= i < |Front(cols)| ==> Front(cols)[i] == cols[i];
      if p.failed {
        assert r == p;
      } else if listing(Last(cols)).Raised? {
        assert r == ScanResult(p.reports, true) && |p.reports| == |cols| - 1;
      } else {
        var last := ReportOf(Last(cols), listing(Last(cols)).value);
        assert r.reports == p.reports + [last] && !r.failed;
      }
    }
  }

  /** A failure in a prefix of the collections is the run's outcome. */
  lemma {:induction false} ScanFailureSticks(cols: seq<string>, n: nat, listing: string -> Outcome<seq<Blob>>)
    requires n <= |cols|
    requires ScanCollections(cols[..n], listing).failed
    ensures ScanCollections(cols, listing) == ScanCollections(cols[..n], listing)
    decreases |cols|
  {
    if n < |cols| {
      assert Front(cols)[..n] == cols[..n];
      ScanFailureSticks(Front(cols), n, listing);
    } else {
      assert cols[..n] == cols;
    }
  }

  /** The body of the collection loop: the grouping loop, then the statistics. */
  method ScanCollection(collection: string, blobs: seq<Blob>) returns (r: CollectionReport)
    ensures r == ReportOf(collection, blobs)
  {
    var ids: seq<string> := [];
    var events: map<string, Sized> := map[];
    for i := 0 to |blobs|
      invariant Table(ids, events) == SizedTable(blobs[..i])
    {
      assert Front(blobs[..i + 1]) == blobs[..i] && Last(blobs[..i + 1]) == blobs[i];
      var parts := Split(blobs[i].name);
      if |parts| >= 3 {
        var eventId, filename := parts[1], parts[2];
        if eventId !in events {
          events := events[eventId := Blank];
          ids := ids + [eventId];
        }
        var s := events[eventId];
        if IsImageFile(filename) {
          events := events[eventId := s.(flags := s.flags.(hasImage := true), imageSize := blobs[i].size)];
        } else if IsThumbnailFile(filename) {
          events := events[eventId := s.(flags := s.flags.(hasThumbnail := true), thumbnailSize := blobs[i].size)];
        }
      }
    }
    assert blobs[..|blobs|] == blobs;
    var c := Summarize(ids, map e | e in events :: events[e].flags);
    r := CollectionReport(collection, c, Truncate(Lines(c.need, events), NeedSampleSize), Take(Lines(c.withBoth, events), BothSampleSize));
  }

  /** `full_scan`. */
  method FullScan(listing: string -> Outcome<seq<Blob>>) returns (reports: seq<CollectionReport>, failed: bool)
    ensures ScanResult(reports, failed) == Scan(listing)
  {
    reports := [];
    for i := 0 to |Collections|
      invariant ScanCollections(Collections[..i], listing) == ScanResult(reports, false)
    {
      assert Front(Collections[..i + 1]) == Collections[..i] && Last(Collections[..i + 1]) == Collections[i];
      var collection := Collections[i];
      var found := listing(collection);
      if found.Raised? {
        ScanFailureSticks(Collections, i + 1, listing);
        return reports, true;
      }
      var r := ScanCollection(collection, found.value);
      reports := reports + [r];
    }
    assert Collections[..|Collections|] == Collections;
    failed := false;
  }
}
