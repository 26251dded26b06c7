/** `check_thumbnail.py`: a diagnostic for one hard-coded event. It probes the
    event's two thumbnail paths, lists the event's own folder, then groups the
    whole collection and reports the events that have an image and no
    thumbnail. One `try` covers everything: any exception ends the run. */
module CheckThumbnail {
  import opened Basics
  import opened Paths
  import opened Storage
  import opened Classifier
  import opened Coverage

  const Collection := "bayAreaEvents"
  const EventId := "h80MO3jjS0Oihzx66L2r"
  const PreviewSize: nat := 10

  /** `possible_paths`: the thumbnail as `.png`, then as `.jpg`. */
  function PossiblePaths(): seq<string> {
    AssetPaths(Collection, EventId, "event_thumbnail")
  }

  /** What `blob.reload()` reports about an existing object. */
  datatype ObjectInfo = ObjectInfo(size: nat, contentType: Option<string>)

  /** One probed path: whether it exists and, when it does, what `reload` reported. */
  datatype Probe = Probe(path: string, info: Option<ObjectInfo>)

  /** One line of the event folder listing: name and size. */
  datatype FileLine = FileLine(name: string, size: nat)

  datatype Report = Report(probes: seq<Probe>, files: seq<FileLine>, coverage: Coverage, preview: Preview<string>)

  function InfoOf(b: Bucket, path: string): ObjectInfo
    requires path in b.objects
  {
    ObjectInfo(|b.objects[path]|, if path in b.contentTypes then Some(b.contentTypes[path]) else None)
  }

  /** One iteration of the probe loop: `exists()`, then `reload()` when it exists. */
  function ProbeOf(b: Bucket, path: string): Outcome<Probe> {
    match Exists(b, path)
    case Raised => Raised
    case Ok(found) => Ok(Probe(path, if found then Some(InfoOf(b, path)) else None))
  }

  /** The probe loop; the first exception ends the script. */
  function ProbeAll(b: Bucket, paths: seq<string>): Outcome<seq<Probe>> {
    if paths == [] then Ok([])
    else match ProbeAll(b, Front(paths))
      case Raised => Raised
      case Ok(ps) =>
        match ProbeOf(b, Last(paths))
        case Raised => Raised
        case Ok(p) => Ok(ps + [p])
  }

  /** The probes succeed exactly when no probed path is faulty; then there is
      one probe per path, in order, reporting the object exactly when it exists,
      with its size in bytes. */
  lemma {:induction false} ProbeAllExact(b: Bucket, paths: seq<string>)
    ensures ProbeAll(b, paths).Ok? <==> forall i :: 0 <= i < |paths| ==> paths[i] !in b.faulty
    ensures ProbeAll(b, paths).Ok? ==>
      var ps := ProbeAll(b, paths).value;
      && |ps| == |paths|
      && forall i :: 0 <= i < |paths| ==>
        && ps[i].path == paths[i]
        && (ps[i].info.Some? <==> paths[i] in b.objects)
        && (ps[i].info.Some? ==> ps[i].info.value.size == |b.objects[paths[i]]|)
  {
    if paths != [] {
      ProbeAllExact(b, Front(paths));
      assert paths == Front(paths) + [Last(paths)];
    }
  }

  function FileLines(files: seq<Blob>): (lines: seq<FileLine>)
    ensures |lines| == |files|
    ensures forall i :: 0 <= i < |files| ==> lines[i] == FileLine(files[i].name, files[i].size)
  {
    if files == [] then [] else FileLines(Front(files)) + [FileLine(Last(files).name, Last(files).size)]
  }

  /** The whole run, given the bucket, the listing of the event folder and the
      listing of the collection. */
  function Check(b: Bucket, eventListing: Outcome<seq<Blob>>, collectionListing: Outcome<seq<Blob>>): Outcome<Report> {
    match ProbeAll(b, PossiblePaths())
    case Raised => Raised
    case Ok(probes) =>
      match eventListing
      case Raised => Raised
      case Ok(files) =>
        match collectionListing
        case Raised => Raised
        case Ok(blobs) =>
          var c := CoverageOf(Classify(blobs));
          Ok(Report(probes, FileLines(files), c, Truncate(c.need, PreviewSize)))
  }

  /** The run completes exactly when neither thumbnail path is faulty and both
      listings succeed; then the `.png` probe comes first, each probe reports
      its object exactly when it is stored, and the preview shows at most ten
      of the events with an image and no thumbnail, saying how many more there
      are. */
  lemma CheckExact(b: Bucket, eventListing: Outcome<seq<Blob>>, collectionListing: Outcome<seq<Blob>>)
    ensures var paths := PossiblePaths();
      Check(b, eventListing, collectionListing).Ok? <==>
        paths[0] !in b.faulty && paths[1] !in b.faulty && eventListing.Ok? && collectionListing.Ok?
    ensures Check(b, eventListing, collectionListing).Ok? ==>
      var r := Check(b, eventListing, collectionListing).value;
      var blobs := collectionListing.value;
      && |r.probes| == 2
      && r.probes[0].path == ObjectPath(Collection, EventId, ThumbnailPng)
      && r.probes[1].path == ObjectPath(Collection, EventId, ThumbnailJpg)
      && (forall i :: 0 <= i < 2 ==> (r.probes[i].info.Some? <==> r.probes[i].path in b.objects))
      && |r.files| == |eventListing.value|
      && r.preview.shown <= r.coverage.need
      && |r.preview.shown| <= PreviewSize
      && (forall e :: e in r.coverage.need <==> HasImageBlob(blobs, e) && !HasThumbnailBlob(blobs, e))
      && (r.preview.more.Some? <==> |r.coverage.need| > PreviewSize)
  {
    var paths := PossiblePaths();
    ProbeAllExact(b, paths);
    assert forall i :: 0 <= i < |paths| ==> paths[i] !in b.faulty <==> (i == 0 ==> paths[0] !in b.faulty) && (i == 1 ==> paths[1] !in b.faulty);
    if collectionListing.Ok? {
      CoverageExact(collectionListing.value);
    }
  }

  /** `check_thumbnail_exists`: the probe loop, the folder listing, the grouping
      loop and the statistics. */
  method CheckThumbnailExists(b: Bucket, eventListing: Outcome<seq<Blob>>, collectionListing: Outcome<seq<Blob>>)
    returns (r: Outcome<Report>)
    ensures r == Check(b, eventListing, collectionListing)
  {
    var paths := PossiblePaths();
    ProbeAllExact(b, paths);
    var probes: seq<Probe> := [];
    for i := 0 to |paths|
      invariant ProbeAll(b, paths[..i]) == Ok(probes)
    {
      assert Front(paths[..i + 1]) == paths[..i] && Last(paths[..i + 1]) == paths[i];
      var found := Exists(b, paths[i]);
      if found.Raised? {
        return Raised;
      }
      var info := if found.value then Some(InfoOf(b, paths[i])) else None;
      probes := probes + [Probe(paths[i], info)];
    }
    assert paths[..|paths|] == paths;
    if eventListing.Raised? || collectionListing.Raised? {
      return Raised;
    }
    var files := eventListing.value;
    var lines: seq<FileLine> := [];
    for i := 0 to |files|
      invariant lines == FileLines(files[..i])
    {
      assert Front(files[..i + 1]) == files[..i] && Last(files[..i + 1]) == files[i];
      lines := lines + [FileLine(files[i].name, files[i].size)];
    }
    assert files[..|files|] == files;
    var ids, events := GroupEvents(collectionListing.value);
    var c := Summarize(ids, events);
    return Ok(Report(probes, lines, c, Truncate(c.need, PreviewSize)));
  }
}
