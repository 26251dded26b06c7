/** The storage bucket as a value, the listed blobs, and the small probing,
    download and upload helpers every script repeats. A path in `faulty` stands
    for any network or permission error: every call on it raises. */
module Storage {
  import opened Basics
  import opened Paths

  /** One listed object: its name, its size in bytes, and what `blob.reload()`
      gives for it (the creation time, absent when the service reports none). */
  datatype Blob = Blob(name: string, size: nat, meta: Outcome<Option<int>>)

  datatype Bucket = Bucket(objects: map<string, Bytes>, contentTypes: map<string, string>, faulty: set<string>)

  /** `bucket.blob(path).exists()`. */
  function Exists(b: Bucket, path: string): Outcome<bool> {
    if path in b.faulty then Raised else Ok(path in b.objects)
  }

  /** `bucket.blob(path).download_as_bytes()`. */
  function Download(b: Bucket, path: string): Outcome<Bytes> {
    if path in b.faulty || path !in b.objects then Raised else Ok(b.objects[path])
  }

  /** `bucket.blob(path).upload_from_string(data, content_type=contentType)`:
      a single write of the whole object. */
  function Upload(b: Bucket, path: string, data: Bytes, contentType: string): Outcome<Bucket> {
    if path in b.faulty then Raised
    else Ok(b.(objects := b.objects[path := data], contentTypes := b.contentTypes[path := contentType]))
  }

  /** Reading back what was just written gives the same bytes, and nothing else moved. */
  lemma UploadThenDownload(b: Bucket, path: string, data: Bytes, contentType: string, other: string)
    requires Upload(b, path, data, contentType).Ok?
    ensures var b' := Upload(b, path, data, contentType).value;
      && Exists(b', path) == Ok(true)
      && Download(b', path) == Ok(data)
      && b'.contentTypes[path] == contentType
      && (other != path ==> Download(b', other) == Download(b, other) && Exists(b', other) == Exists(b, other))
  {
  }

  /** The `for ext in ['png', 'jpg']: if blob.exists(): return blob.download_as_bytes()`
      loop: the bytes of the first path that exists, None when none does or when
      a call raised (the scripts catch the exception and return None). */
  function FetchFirst(b: Bucket, paths: seq<string>): (r: Option<Bytes>)
    ensures r.Some? ==> exists k :: 0 <= k < |paths| && paths[k] in b.objects && r.value == b.objects[paths[k]]
  {
    if paths == [] then None
    else match Exists(b, paths[0])
      case Raised => None
      case Ok(found) =>
        if found then (match Download(b, paths[0]) case Ok(data) => Some(data) case Raised => None)
        else
          var r := FetchFirst(b, paths[1..]);
          assert r.Some? ==> exists k :: 1 <= k < |paths| && paths[k] in b.objects && r.value == b.objects[paths[k]] by {
            if r.Some? {
              var k :| 0 <= k < |paths[1..]| && paths[1..][k] in b.objects && r.value == b.objects[paths[1..][k]];
              assert paths[k + 1] == paths[1..][k];
            }
          }
          r
  }

  /** `download_image` / `download_thumbnail`: the `.png` object wins over the
      `.jpg` one, the `.jpg` one is used only when the `.png` one is absent, and
      an error on the first probe ends the search with nothing. */
  lemma FetchPngBeforeJpg(b: Bucket, collection: string, eventId: string, stem: string)
    ensures var paths := AssetPaths(collection, eventId, stem);
      && (paths[0] in b.faulty ==> FetchFirst(b, paths) == None)
      && (paths[0] !in b.faulty && paths[0] in b.objects ==> FetchFirst(b, paths) == Some(b.objects[paths[0]]))
      && (paths[0] !in b.faulty && paths[0] !in b.objects && paths[1] !in b.faulty ==>
            FetchFirst(b, paths) == (if paths[1] in b.objects then Some(b.objects[paths[1]]) else None))
  {
    var paths := AssetPaths(collection, eventId, stem);
    assert paths[1..][1..] == [];
  }

  /** `check_event_has_image`: true as soon as `event_image.png` or then
      `event_image.jpg` exists; a probe that raises makes the answer False. */
  function HasEventImage(b: Bucket, collection: string, eventId: string): (has: bool)
    ensures var paths := AssetPaths(collection, eventId, "event_image");
      && (has ==> (paths[0] in b.objects && paths[0] !in b.faulty) || (paths[1] in b.objects && paths[1] !in b.faulty))
      && (paths[0] !in b.faulty && paths[1] !in b.faulty ==> (has <==> paths[0] in b.objects || paths[1] in b.objects))
  {
    var paths := AssetPaths(collection, eventId, "event_image");
    match Exists(b, paths[0])
    case Raised => false
    case Ok(true) => true
    case Ok(false) => Exists(b, paths[1]) == Ok(true)
  }

  /** The magic-byte sniff used before upload: JPEG when the data starts with the
      start-of-image marker FF D8 FF, PNG otherwise. */
  function ContentTypeOf(data: Bytes): (contentType: string)
    ensures contentType == "image/jpeg" || contentType == "image/png"
  {
    if |data| >= 3 && data[0] == 0xFF && data[1] == 0xD8 && data[2] == 0xFF then "image/jpeg" else "image/png"
  }

  const JpegMarker: Bytes := [0xFF, 0xD8, 0xFF]
  const PngSignature: Bytes := [0x89, 0x50, 0x4E, 0x47, 0x0D, 0x0A, 0x1A, 0x0A]

  /** The sniff labels exactly the data that starts with the JPEG marker as JPEG,
      whatever name the object is stored under; a PNG signature reads as PNG. */
  lemma SniffMatchesMarker(data: Bytes)
    ensures ContentTypeOf(data) == "image/jpeg" <==> |data| >= 3 && data[..3] == JpegMarker
    ensures ContentTypeOf(PngSignature + data) == "image/png"
    ensures ContentTypeOf(JpegMarker + data) == "image/jpeg"
  {
    if |data| >= 3 && data[..3] == JpegMarker {
      assert data[0] == data[..3][0];
    }
    if ContentTypeOf(data) == "image/jpeg" {
      assert data[..3] == [data[0], data[1], data[2]];
    }
    assert (PngSignature + data)[0] == 0x89;
    assert (JpegMarker + data)[..3] == JpegMarker;
  }

  /** Once `event_image.png` has been written, the event image probe answers yes. */
  lemma UploadedImageIsFound(b: Bucket, collection: string, eventId: string, data: Bytes, contentType: string)
    requires Upload(b, ObjectPath(collection, eventId, ImagePng), data, contentType).Ok?
    ensures HasEventImage(Upload(b, ObjectPath(collection, eventId, ImagePng), data, contentType).value, collection, eventId)
  {
    assert AssetPaths(collection, eventId, "event_image")[0] == ObjectPath(collection, eventId, ImagePng);
  }
}
