/** The listing classifier that every script repeats: one pass over the flat
    listing, splitting each name on '/', keeping names with at least three
    pieces, and building a dict from event id (piece 1) to a record, in the order
    the ids are first seen. The record and how a blob updates it differ from
    script to script, so the grouping is written once over any record type `V`:
    `start` is the record a new id starts with, `touch` is the update for one of
    its blobs and that blob's filename. */
module Classifier {
  import opened Basics
  import opened Paths
  import opened Storage

  /** A Python dict keyed by event id: the keys in insertion order and the values. */
  datatype Table<V> = Table(ids: seq<string>, entries: map<string, V>)

  ghost predicate WellOrdered<V>(t: Table<V>) {
    Distinct(t.ids) && forall e :: e in t.entries <==> e in t.ids
  }

  function EventOf(b: Blob): Option<string> {
    match Parse(b.name)
    case Some(en) => Some(en.eventId)
    case None => None
  }

  /** Some listed name has at least three pieces and `e` as its second piece. */
  ghost predicate Mentions(blobs: seq<Blob>, e: string) {
    exists k :: 0 <= k < |blobs| && EventOf(blobs[k]) == Some(e)
  }

  /** One iteration of a grouping loop. */
  function Step<V>(t: Table<V>, b: Blob, start: V, touch: (V, Blob, string) -> V): Table<V> {
    match Parse(b.name)
    case None => t
    case Some(Entry(e, f)) =>
      var cur := if e in t.entries then t.entries[e] else start;
      Table(if e in t.entries then t.ids else t.ids + [e], t.entries[e := touch(cur, b, f)])
  }

  /** The dict after the whole loop. */
  function Group<V>(blobs: seq<Blob>, start: V, touch: (V, Blob, string) -> V): Table<V> {
    if blobs == [] then Table([], map[]) else Step(Group(Front(blobs), start, touch), Last(blobs), start, touch)
  }

  /** The ids in the order they are first seen: an independent statement of the key order. */
  function EventIds(blobs: seq<Blob>): seq<string> {
    if blobs == [] then []
    else
      var seen := EventIds(Front(blobs));
      match EventOf(Last(blobs))
      case Some(e) => if e in seen then seen else seen + [e]
      case None => seen
  }

  /** The record of event `e` replayed from `v` over that event's own blobs, in listing order. */
  function Replay<V>(blobs: seq<Blob>, e: string, v: V, touch: (V, Blob, string) -> V): V {
    if blobs == [] then v
    else
      var w := Replay(Front(blobs), e, v, touch);
      match Parse(Last(blobs).name)
      case Some(en) => if en.eventId == e then touch(w, Last(blobs), en.filename) else w
      case None => w
  }

  lemma MentionsFront(blobs: seq<Blob>, e: string)
    requires blobs != []
    ensures Mentions(blobs, e) <==> Mentions(Front(blobs), e) || EventOf(Last(blobs)) == Some(e)
  {
    if Mentions(Front(blobs), e) {
      var k :| 0 <= k < |Front(blobs)| && EventOf(Front(blobs)[k]) == Some(e);
      assert EventOf(blobs[k]) == Some(e);
    }
    if Mentions(blobs, e) && EventOf(Last(blobs)) != Some(e) {
      var k :| 0 <= k < |blobs| && EventOf(blobs[k]) == Some(e);
      assert blobs[k] == Front(blobs)[k];
    }
  }

  /** The first-seen order holds every mentioned id exactly once. */
  lemma {:induction false} EventIdsExact(blobs: seq<Blob>)
    ensures Distinct(EventIds(blobs))
    ensures forall e :: e in EventIds(blobs) <==> Mentions(blobs, e)
  {
    if blobs != [] {
      EventIdsExact(Front(blobs));
      forall e ensures e in EventIds(blobs) <==> Mentions(blobs, e) {
        MentionsFront(blobs, e);
      }
    }
  }

  /** First-seen order: the ids met in any prefix of the listing are a prefix of the ids. */
  lemma {:induction false} EventIdsPrefix(blobs: seq<Blob>, n: nat)
    requires n <= |blobs|
    ensures EventIds(blobs[..n]) <= EventIds(blobs)
    decreases |blobs|
  {
    if n < |blobs| {
      assert Front(blobs)[..n] == blobs[..n];
      EventIdsPrefix(Front(blobs), n);
    } else {
      assert blobs[..n] == blobs;
    }
  }

  lemma {:induction false} ReplayUnmentioned<V>(blobs: seq<Blob>, e: string, v: V, touch: (V, Blob, string) -> V)
    requires !Mentions(blobs, e)
    ensures Replay(blobs, e, v, touch) == v
  {
    if blobs != [] {
      MentionsFront(blobs, e);
      ReplayUnmentioned(Front(blobs), e, v, touch);
    }
  }

  /** What any grouping loop builds: an insertion-ordered dict whose keys are the
      ids in first-seen order and whose record for each id is its own blobs
      replayed, in listing order, from the start record. */
  lemma {:induction false} GroupShape<V>(blobs: seq<Blob>, start: V, touch: (V, Blob, string) -> V)
    ensures var t := Group(blobs, start, touch);
      && t.ids == EventIds(blobs)
      && (forall e :: e in t.entries <==> e in t.ids)
      && (forall e :: e in t.entries ==> t.entries[e] == Replay(blobs, e, start, touch))
  {
    if blobs != [] {
      GroupShape(Front(blobs), start, touch);
      EventIdsExact(Front(blobs));
      var t := Group(blobs, start, touch);
      var p := Group(Front(blobs), start, touch);
      match Parse(Last(blobs).name)
      case None =>
      case Some(Entry(e0, f)) =>
        if e0 !in p.entries {
          ReplayUnmentioned(Front(blobs), e0, start, touch);
        }
    }
  }

  lemma GroupWellOrdered<V>(blobs: seq<Blob>, start: V, touch: (V, Blob, string) -> V)
    ensures WellOrdered(Group(blobs, start, touch))
  {
    GroupShape(blobs, start, touch);
    EventIdsExact(blobs);
  }

  /** `[id for id, v in events.items() if keep(v)]`, in key order. */
  function SelectIds<V>(ids: seq<string>, entries: map<string, V>, keep: V -> bool): (r: seq<string>)
    ensures forall e :: e in r <==> e in ids && e in entries && keep(entries[e])
  {
    if ids == [] then []
    else
      var r := SelectIds(Front(ids), entries, keep);
      var e := Last(ids);
      assert ids == Front(ids) + [e];
      if e in entries && keep(entries[e]) then r + [e] else r
  }

  /** The selection keeps the key order. */
  lemma {:induction false} SelectIdsOrder<V>(ids: seq<string>, entries: map<string, V>, keep: V -> bool)
    ensures Subsequence(SelectIds(ids, entries, keep), ids)
  {
    if ids != [] {
      var r := SelectIds(Front(ids), entries, keep);
      SelectIdsOrder(Front(ids), entries, keep);
      assert ids == Front(ids) + [Last(ids)];
      SubsequenceExtend(r, Front(ids), Last(ids));
    }
  }

  lemma {:induction false} SelectIdsDistinct<V>(ids: seq<string>, entries: map<string, V>, keep: V -> bool)
    requires Distinct(ids)
    ensures Distinct(SelectIds(ids, entries, keep))
  {
    if ids != [] {
      SelectIdsDistinct(Front(ids), entries, keep);
      assert Last(ids) !in Front(ids);
    }
  }

  // ---- The flags record shared by all scripts ----

  datatype Flags = Flags(hasImage: bool, hasThumbnail: bool)

  const Unmarked := Flags(false, false)

  /** The `if filename in [...image...]: ... elif filename in [...thumbnail...]` update. */
  function Mark(f: Flags, filename: string): Flags {
    if IsImageFile(filename) then f.(hasImage := true)
    else if IsThumbnailFile(filename) then f.(hasThumbnail := true)
    else f
  }

  function MarkBlob(f: Flags, b: Blob, filename: string): Flags {
    Mark(f, filename)
  }

  /** The `events` dict of the plain grouping loop. */
  function Classify(blobs: seq<Blob>): Table<Flags> {
    Group(blobs, Unmarked, MarkBlob)
  }

  /** The four kinds of event the scripts tell apart. An event with an image
      and no thumbnail is the one `generate_thumbnails.py` works on; one with a
      thumbnail and no image is the one the image generators work on. */
  predicate Both(f: Flags) { f.hasImage && f.hasThumbnail }
  predicate OnlyImage(f: Flags) { f.hasImage && !f.hasThumbnail }
  predicate OnlyThumbnail(f: Flags) { !f.hasImage && f.hasThumbnail }
  predicate Neither(f: Flags) { !f.hasImage && !f.hasThumbnail }

  predicate ImageBlobOf(b: Blob, e: string) {
    match Parse(b.name)
    case Some(en) => en.eventId == e && IsImageFile(en.filename)
    case None => false
  }

  predicate ThumbnailBlobOf(b: Blob, e: string) {
    match Parse(b.name)
    case Some(en) => en.eventId == e && IsThumbnailFile(en.filename)
    case None => false
  }

  ghost predicate HasImageBlob(blobs: seq<Blob>, e: string) {
    exists k :: 0 <= k < |blobs| && ImageBlobOf(blobs[k], e)
  }

  ghost predicate HasThumbnailBlob(blobs: seq<Blob>, e: string) {
    exists k :: 0 <= k < |blobs| && ThumbnailBlobOf(blobs[k], e)
  }

  lemma HasBlobFront(blobs: seq<Blob>, e: string)
    requires blobs != []
    ensures HasImageBlob(blobs, e) <==> HasImageBlob(Front(blobs), e) || ImageBlobOf(Last(blobs), e)
    ensures HasThumbnailBlob(blobs, e) <==> HasThumbnailBlob(Front(blobs), e) || ThumbnailBlobOf(Last(blobs), e)
  {
    if HasImageBlob(Front(blobs), e) {
      var k :| 0 <= k < |Front(blobs)| && ImageBlobOf(Front(blobs)[k], e);
      assert ImageBlobOf(blobs[k], e);
    }
    if HasImageBlob(blobs, e) && !ImageBlobOf(Last(blobs), e) {
      var k :| 0 <= k < |blobs| && ImageBlobOf(blobs[k], e);
      assert blobs[k] == Front(blobs)[k];
    }
    if HasThumbnailBlob(Front(blobs), e) {
      var k :| 0 <= k < |Front(blobs)| && ThumbnailBlobOf(Front(blobs)[k], e);
      assert ThumbnailBlobOf(blobs[k], e);
    }
    if HasThumbnailBlob(blobs, e) && !ThumbnailBlobOf(Last(blobs), e) {
      var k :| 0 <= k < |blobs| && ThumbnailBlobOf(blobs[k], e);
      assert blobs[k] == Front(blobs)[k];
    }
  }

  /** Flags are only ever set: replaying an event's blobs leaves a flag on
      exactly when it started on or some blob of the event carries a
      recognised name for that role. */
  lemma {:induction false} ReplayMark(blobs: seq<Blob>, e: string, f0: Flags)
    ensures var f := Replay(blobs, e, f0, MarkBlob);
      && (f.hasImage <==> f0.hasImage || HasImageBlob(blobs, e))
      && (f.hasThumbnail <==> f0.hasThumbnail || HasThumbnailBlob(blobs, e))
  {
    if blobs != [] {
      ReplayMark(Front(blobs), e, f0);
      HasBlobFront(blobs, e);
    }
  }

  /** The classifier's result: every mentioned event once, in first-seen order,
      with `has_image` (`has_thumbnail`) true iff some blob of that event is named
      `event_image.png/.jpg` (`event_thumbnail.png/.jpg`). */
  lemma ClassifyExact(blobs: seq<Blob>)
    ensures var t := Classify(blobs);
      && WellOrdered(t)
      && t.ids == EventIds(blobs)
      && (forall e :: e in t.entries <==> Mentions(blobs, e))
      && (forall e :: e in t.entries ==>
            (t.entries[e].hasImage <==> HasImageBlob(blobs, e)) && (t.entries[e].hasThumbnail <==> HasThumbnailBlob(blobs, e)))
  {
    GroupShape(blobs, Unmarked, MarkBlob);
    GroupWellOrdered(blobs, Unmarked, MarkBlob);
    EventIdsExact(blobs);
    forall e | e in Classify(blobs).entries
      ensures (Classify(blobs).entries[e].hasImage <==> HasImageBlob(blobs, e))
      ensures (Classify(blobs).entries[e].hasThumbnail <==> HasThumbnailBlob(blobs, e))
    {
      ReplayMark(blobs, e, Unmarked);
    }
  }

  /** The grouping loop of the scripts, run over the whole listing. */
  method GroupEvents(blobs: seq<Blob>) returns (ids: seq<string>, events: map<string, Flags>)
    ensures Table(ids, events) == Classify(blobs)
  {
    ids, events := [], map[];
    for i := 0 to |blobs|
      invariant Table(ids, events) == Classify(blobs[..i])
    {
      assert Front(blobs[..i + 1]) == blobs[..i] && Last(blobs[..i + 1]) == blobs[i];
      var parts := Split(blobs[i].name);
      if |parts| >= 3 {
        var eventId, filename := parts[1], parts[2];
        if eventId !in events {
          events := events[eventId := Unmarked];
          ids := ids + [eventId];
        }
        if IsImageFile(filename) {
          events := events[eventId := events[eventId].(hasImage := true)];
        } else if IsThumbnailFile(filename) {
          events := events[eventId := events[eventId].(hasThumbnail := true)];
        }
      }
    }
    assert blobs[..|blobs|] == blobs;
  }
}
