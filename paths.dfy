/** Object names in the bucket follow `collection/eventId/filename`. This module
    models Python's `str.split('/')`, the f-string that builds an object path,
    and the reading of a listed name as (event id, filename). */
module Paths {
  import opened Basics

  /** Python's `s.split('/')`: the pieces between separators, empty pieces kept. */
  function Split(s: string): (parts: seq<string>)
    ensures |parts| >= 1
  {
    if s == [] then [""]
    else
      var rest := Split(s[1..]);
      if s[0] == '/' then [""] + rest else [[s[0]] + rest[0]] + rest[1..]
  }

  /** `'/'.join(parts)`. */
  function Join(parts: seq<string>): string
    requires |parts| >= 1
  {
    if |parts| == 1 then parts[0] else parts[0] + "/" + Join(parts[1..])
  }

  predicate NoSlash(s: string) {
    forall i :: 0 <= i < |s| ==> s[i] != '/'
  }

  function SlashCount(s: string): nat {
    if s == [] then 0 else (if s[0] == '/' then 1 else 0) + SlashCount(s[1..])
  }

  /** Splitting and joining again gives back the name. */
  lemma {:induction false} JoinSplit(s: string)
    ensures Join(Split(s)) == s
  {
    if s != [] {
      JoinSplit(s[1..]);
      var rest := Split(s[1..]);
      if s[0] == '/' {
        assert Split(s)[1..] == rest;
      } else {
        var parts := Split(s);
        assert parts[0] == [s[0]] + rest[0] && parts[1..] == rest[1..];
        if |rest| == 1 {
          assert Join(parts) == [s[0]] + rest[0] == [s[0]] + Join(rest);
        } else {
          assert Join(rest) == rest[0] + "/" + Join(rest[1..]);
        }
        assert s == [s[0]] + s[1..];
      }
    }
  }

  /** Every piece of a split is free of separators and there is one piece more
      than there are separators. */
  lemma {:induction false} SplitPieces(s: string)
    ensures |Split(s)| == SlashCount(s) + 1
    ensures forall k :: 0 <= k < |Split(s)| ==> NoSlash(Split(s)[k])
  {
    if s != [] {
      SplitPieces(s[1..]);
      var rest := Split(s[1..]);
      if s[0] != '/' {
        var parts := Split(s);
        forall k | 0 <= k < |parts| ensures NoSlash(parts[k]) {
          if k > 0 {
            assert parts[k] == rest[k];
          } else {
            assert NoSlash(rest[0]);
          }
        }
      }
    }
  }

  lemma {:induction false} SplitNoSlashPrefix(a: string, t: string)
    requires NoSlash(a)
    ensures Split(a + t) == [a + Split(t)[0]] + Split(t)[1..]
  {
    if a != [] {
      assert (a + t)[1..] == a[1..] + t;
      SplitNoSlashPrefix(a[1..], t);
      var r := Split(a[1..] + t);
      assert (a + t)[0] == a[0] != '/';
      assert Split(a + t) == [[a[0]] + r[0]] + r[1..];
      assert [a[0]] + (a[1..] + Split(t)[0]) == a + Split(t)[0];
    } else {
      assert a + t == t && a + Split(t)[0] == Split(t)[0];
      assert Split(t) == [Split(t)[0]] + Split(t)[1..];
    }
  }

  /** Joining separator-free pieces and splitting again gives back the pieces. */
  lemma {:induction false} SplitJoin(parts: seq<string>)
    requires |parts| >= 1
    requires forall k :: 0 <= k < |parts| ==> NoSlash(parts[k])
    ensures Split(Join(parts)) == parts
  {
    if |parts| == 1 {
      SplitNoSlashPrefix(parts[0], "");
      assert parts[0] + "" == parts[0];
    } else {
      SplitJoin(parts[1..]);
      var j := Join(parts[1..]);
      assert Join(parts) == parts[0] + ("/" + j);
      SplitNoSlashPrefix(parts[0], "/" + j);
      assert ("/" + j)[1..] == j;
      assert Split("/" + j) == [""] + Split(j);
      assert parts[0] + "" == parts[0];
    }
  }

  /** What a listed name contributes: the event id (piece 1) and the filename (piece 2). */
  datatype Entry = Entry(eventId: string, filename: string)

  /** `path_parts = name.split('/')`; only names with at least three pieces count. */
  function Parse(name: string): (r: Option<Entry>)
    ensures r.Some? <==> SlashCount(name) >= 2
  {
    SplitPieces(name);
    var parts := Split(name);
    if |parts| >= 3 then Some(Entry(parts[1], parts[2])) else None
  }

  /** The f-string `f"{collection}/{event_id}/{filename}"`. */
  function ObjectPath(collection: string, eventId: string, filename: string): string {
    collection + "/" + eventId + "/" + filename
  }

  /** A path built from separator-free pieces reads back as the same event and
      filename, so building and parsing are inverse. */
  lemma ParseObjectPath(collection: string, eventId: string, filename: string)
    requires NoSlash(collection) && NoSlash(eventId) && NoSlash(filename)
    ensures Parse(ObjectPath(collection, eventId, filename)) == Some(Entry(eventId, filename))
  {
    var parts := [collection, eventId, filename];
    assert Join(parts[2..]) == filename;
    assert Join(parts[1..]) == eventId + "/" + filename;
    assert Join(parts) == ObjectPath(collection, eventId, filename);
    SplitJoin(parts);
  }

  /** Deeper names read their third piece as the filename: `c/e/sub/x` is
      event `e` with filename `sub`. */
  lemma ParseDeeper(parts: seq<string>)
    requires |parts| >= 3
    requires forall k :: 0 <= k < |parts| ==> NoSlash(parts[k])
    ensures Parse(Join(parts)) == Some(Entry(parts[1], parts[2]))
  {
    SplitJoin(parts);
  }

  // The two recognised filenames for each role.
  const ImagePng := "event_image.png"
  const ImageJpg := "event_image.jpg"
  const ThumbnailPng := "event_thumbnail.png"
  const ThumbnailJpg := "event_thumbnail.jpg"

  predicate IsImageFile(filename: string) {
    filename == ImagePng || filename == ImageJpg
  }

  predicate IsThumbnailFile(filename: string) {
    filename == ThumbnailPng || filename == ThumbnailJpg
  }

  /** `[f"{c}/{e}/{stem}.{ext}" for ext in ['png', 'jpg']]`: the probe order. */
  function AssetPaths(collection: string, eventId: string, stem: string): seq<string> {
    [ObjectPath(collection, eventId, stem + ".png"), ObjectPath(collection, eventId, stem + ".jpg")]
  }
}
