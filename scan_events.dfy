/** `scan_events.py`: read at most 50 blobs under the `events/` prefix, group
    them into events that also keep the list of their filenames, and print
    the first ten names read, the coverage statistics, up to ten events needing
    a thumbnail and up to five events with both, each with its filenames. */
module ScanEvents {
  import opened Basics
  import opened Paths
  import opened Storage
  import opened Classifier
  import Counting
  import opened Coverage

  const Prefix := "events/"
  const MaxResults: nat := 50
  const SampleSize: nat := 10
  const NeedSampleSize: nat := 10
  const BothSampleSize: nat := 5

  /** The record of one event: the flags and every filename seen for it, in order. */
  datatype Listed = Listed(flags: Flags, files: seq<string>)

  const Empty := Listed(Unmarked, [])

  /** `events[event_id]['files'].append(filename)`, then the flag update. */
  function ListedTouch(l: Listed, b: Blob, filename: string): Listed {
    Listed(Mark(l.flags, filename), l.files + [filename])
  }

  function ListedTable(blobs: seq<Blob>): Table<Listed> {
    Group(blobs, Empty, ListedTouch)
  }

  function FlagsOf(t: Table<Listed>): Table<Flags> {
    Table(t.ids, map e | e in t.entries :: t.entries[e].flags)
  }

  /** The filenames (third pieces) of the listed names of event `e`, in listing order. */
  function FilesOf(blobs: seq<Blob>, e: string): seq<string> {
    if blobs == [] then []
    else match Parse(Last(blobs).name)
      case Some(en) => if en.eventId == e then FilesOf(Front(blobs), e) + [en.filename] else FilesOf(Front(blobs), e)
      case None => FilesOf(Front(blobs), e)
  }

  lemma {:induction false} ReplayListed(blobs: seq<Blob>, e: string)
    ensures var l := Replay(blobs, e, Empty, ListedTouch);
      l.flags == Replay(blobs, e, Unmarked, MarkBlob) && l.files == FilesOf(blobs, e)
  {
    if blobs != [] {
      ReplayListed(Front(blobs), e);
    }
  }

  /** An event's filenames include an image (thumbnail) name exactly when the
      listing names an image (thumbnail) blob for it: the flags agree with the
      file list they are printed next to. */
  lemma {:induction false} FilesAgreeWithFlags(blobs: seq<Blob>, e: string)
    ensures (exists f :: f in FilesOf(blobs, e) && IsImageFile(f)) <==> HasImageBlob(blobs, e)
    ensures (exists f :: f in FilesOf(blobs, e) && IsThumbnailFile(f)) <==> HasThumbnailBlob(blobs, e)
  {
    if blobs != [] {
      FilesAgreeWithFlags(Front(blobs), e);
      HasBlobFront(blobs, e);
    }
  }

  /** The listed dict has the keys and flags of the plain classifier, and each
      event keeps the filenames of its own blobs in listing order. */
  lemma ListedTableExact(blobs: seq<Blob>)
    ensures FlagsOf(ListedTable(blobs)) == Classify(blobs)
    ensures var t := ListedTable(blobs);
      forall e :: e in t.entries ==> t.entries[e].files == FilesOf(blobs, e)
  {
    var t := ListedTable(blobs);
    var c := Classify(blobs);
    GroupShape(blobs, Empty, ListedTouch);
    GroupShape(blobs, Unmarked, MarkBlob);
    forall e | e in t.entries
      ensures t.entries[e].flags == c.entries[e] && t.entries[e].files == FilesOf(blobs, e)
    {
      ReplayListed(blobs, e);
    }
    assert FlagsOf(t).entries == c.entries;
  }

  /** One printed sample line: the event and its filenames. */
  datatype FilesLine = FilesLine(eventId: string, files: seq<string>)

  function Lines(ids: seq<string>, entries: map<string, Listed>): (lines: seq<FilesLine>)
    requires forall e :: e in ids ==> e in entries
    ensures |lines| == |ids|
    ensures forall i :: 0 <= i < |ids| ==> lines[i] == FilesLine(ids[i], entries[ids[i]].files)
  {
    if ids == [] then []
    else
      assert forall e :: e in Front(ids) ==> e in ids;
      Lines(Front(ids), entries) + [FilesLine(Last(ids), entries[Last(ids)].files)]
  }

  function Names(blobs: seq<Blob>): (names: seq<string>)
    ensures |names| == |blobs|
    ensures forall i :: 0 <= i < |blobs| ==> names[i] == blobs[i].name
  {
    if blobs == [] then [] else Names(Front(blobs)) + [Last(blobs).name]
  }

  datatype FolderReport = FolderReport(sample: Preview<string>, coverage: Coverage, needSample: Preview<FilesLine>, bothSample: seq<FilesLine>)

  /** The blobs the script reads: `max_results=50` stops the listing after 50. */
  function Seen(blobs: seq<Blob>): seq<Blob> {
    Take(blobs, MaxResults)
  }

  function ReportOf(seen: seq<Blob>): FolderReport {
    var t := ListedTable(seen);
    var c := CoverageOf(FlagsOf(t));
    FolderReport(Truncate(Names(seen), SampleSize), c,
      Truncate(Lines(c.need, t.entries), NeedSampleSize),
      Take(Lines(c.withBoth, t.entries), BothSampleSize))
  }

  /** The run over the listing under `events/`; an exception prints an error and nothing else. */
  function Scan(listing: Outcome<seq<Blob>>): Outcome<FolderReport> {
    match listing
    case Raised => Raised
    case Ok(blobs) => Ok(ReportOf(Seen(blobs)))
  }

  /** Each sample line lists the filenames of its event's blobs. */
  lemma SampleLines(seen: seq<Blob>, ids: seq<string>)
    requires forall e :: e in ids ==> e in ListedTable(seen).entries
    ensures var lines := Lines(ids, ListedTable(seen).entries);
      forall i :: 0 <= i < |ids| ==> lines[i] == FilesLine(ids[i], FilesOf(seen, ids[i]))
  {
    ListedTableExact(seen);
  }

  /** The filenames of an event needing a thumbnail hold an image name and no thumbnail name. */
  lemma NeedFiles(seen: seq<Blob>, e: string)
    requires e in CoverageOf(Classify(seen)).need
    ensures exists f :: f in FilesOf(seen, e) && IsImageFile(f)
    ensures !exists f :: f in FilesOf(seen, e) && IsThumbnailFile(f)
  {
    CoverageExact(seen);
    FilesAgreeWithFlags(seen, e);
  }

  /** The first sample: up to ten events needing a thumbnail, in order, with
      their filenames, and how many more there are. */
  lemma NeedSample(seen: seq<Blob>)
    ensures var r := ReportOf(seen);
      && r.coverage == CoverageOf(Classify(seen))
      && |r.needSample.shown| <= NeedSampleSize
      && (r.needSample.more.Some? <==> |r.coverage.need| > NeedSampleSize)
      && forall i :: 0 <= i < |r.needSample.shown| ==>
            && r.needSample.shown[i] == FilesLine(r.coverage.need[i], FilesOf(seen, r.coverage.need[i]))
            && (exists f :: f in r.needSample.shown[i].files && IsImageFile(f))
            && !(exists f :: f in r.needSample.shown[i].files && IsThumbnailFile(f))
  {
    ListedTableExact(seen);
    var t := ListedTable(seen);
    var c := CoverageOf(FlagsOf(t));
    SampleLines(seen, c.need);
    var needLines := Lines(c.need, t.entries);
    var r := ReportOf(seen);
    assert r.needSample.shown <= needLines;
    forall i | 0 <= i < |r.needSample.shown|
      ensures r.needSample.shown[i] == FilesLine(c.need[i], FilesOf(seen, c.need[i]))
      ensures (exists f :: f in r.needSample.shown[i].files && IsImageFile(f))
      ensures !(exists f :: f in r.needSample.shown[i].files && IsThumbnailFile(f))
    {
      assert r.needSample.shown[i] == needLines[i];
      assert c.need[i] in c.need;
      NeedFiles(seen, c.need[i]);
    }
  }

  /** The second sample: up to five events with both, in order, with their filenames. */
  lemma BothSample(seen: seq<Blob>)
    ensures var r := ReportOf(seen);
      && |r.bothSample| <= BothSampleSize
      && forall i :: 0 <= i < |r.bothSample| ==> r.bothSample[i] == FilesLine(r.coverage.withBoth[i], FilesOf(seen, r.coverage.withBoth[i]))
  {
    ListedTableExact(seen);
    var t := ListedTable(seen);
    var c := CoverageOf(FlagsOf(t));
    SampleLines(seen, c.withBoth);
    var bothLines := Lines(c.withBoth, t.entries);
    var r := ReportOf(seen);
    assert r.bothSample <= bothLines;
    forall i | 0 <= i < |r.bothSample|
      ensures r.bothSample[i] == FilesLine(c.withBoth[i], FilesOf(seen, c.withBoth[i]))
    {
      assert r.bothSample[i] == bothLines[i];
    }
  }

  /** What the run prints: at most 50 blobs are read, so at most 50 events are
      counted; the first ten names read are shown with the count of the rest;
      the statistics are those of the plain classifier over the blobs read. */
  lemma ScanExact(blobs: seq<Blob>)
    ensures var r := Scan(Ok(blobs)).value;
      var seen := Seen(blobs);
      && seen <= blobs && |seen| <= MaxResults
      && r.coverage == CoverageOf(Classify(seen))
      && r.coverage.total <= MaxResults
      && r.sample.shown <= Names(seen)
      && |r.sample.shown| <= SampleSize
      && (r.sample.more.Some? ==> r.sample.more.value == |seen| - SampleSize)
  {
    var seen := Seen(blobs);
    ListedTableExact(seen);
    Counting.EventsAtMostBlobs(seen);
    CoverageExact(seen);
  }

  /** The grouping loop of `scan_events`, which also collects every name read. */
  method GroupFolder(blobs: seq<Blob>) returns (ids: seq<string>, events: map<string, Listed>, sampleFiles: seq<string>)
    ensures sampleFiles == Names(blobs)
    ensures Table(ids, events) == ListedTable(blobs)
  {
    ids, events, sampleFiles := [], map[], [];
    for i := 0 to |blobs|
      invariant sampleFiles == Names(blobs[..i])
      invariant Table(ids, events) == ListedTable(blobs[..i])
    {
      assert Front(blobs[..i + 1]) == blobs[..i] && Last(blobs[..i + 1]) == blobs[i];
      sampleFiles := sampleFiles + [blobs[i].name];
      var parts := Split(blobs[i].name);
      if |parts| >= 3 {
        var eventId, filename := parts[1], parts[2];
        if eventId !in events {
          events := events[eventId := Empty];
          ids := ids + [eventId];
        }
        var l := events[eventId];
        var flags := l.flags;
        if IsImageFile(filename) {
          flags := flags.(hasImage := true);
        } else if IsThumbnailFile(filename) {
          flags := flags.(hasThumbnail := true);
        }
        events := events[eventId := Listed(flags, l.files + [filename])];
      }
    }
    assert blobs[..|blobs|] == blobs;
  }

  /** `scan_events`: the grouping loop, then the statistics. */
  method ScanFolder(listing: Outcome<seq<Blob>>) returns (r: Outcome<FolderReport>)
    ensures r == Scan(listing)
  {
    if listing.Raised? {
      return Raised;
    }
    var ids, events, sampleFiles := GroupFolder(Seen(listing.value));
    var c := Summarize(ids, map e | e in events :: events[e].flags);
    r := Ok(FolderReport(Truncate(sampleFiles, SampleSize), c,
      Truncate(Lines(c.need, events), NeedSampleSize), Take(Lines(c.withBoth, events), BothSampleSize)));
  }
}
