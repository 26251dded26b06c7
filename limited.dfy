/** `generate_missing_images_limited.py`: group the listing, date each event by
    the creation time of its thumbnail, keep the events with a thumbnail, no
    image and a date, sort them newest first, take the first `max_events`, and
    give each an `event_image.png` upscaled from its thumbnail. */
module Limited {
  import opened Basics
  import opened Paths
  import opened Storage
  import opened Classifier
  import opened Imaging
  import opened Upscaling
  import opened Pipeline

  const MaxEvents: nat := 100

  // ---- Dates ----

  /** A `datetime`: the creation times the service reports carry a time zone
      (`Aware`); the fallback the script writes when a reload fails does not
      (`Naive`). Both are kept as seconds since 1970-01-01, naive ones read as UTC. */
  datatype Stamp = Aware(seconds: int) | Naive(seconds: int)

  /** `datetime(2020, 1, 1)`. */
  const FallbackDate := Naive(1577836800)

  /** A record of the `events` dict: the two flags and `thumbnail_date`. */
  datatype Dated = Dated(flags: Flags, date: Option<Stamp>)

  const Undated := Dated(Unmarked, None)

  /** The `try: blob.reload(); if blob.time_created: ... except: ...` block. */
  function Redate(meta: Outcome<Option<int>>, date: Option<Stamp>): Option<Stamp> {
    match meta
    case Raised => Some(FallbackDate)
    case Ok(None) => date
    case Ok(Some(t)) => Some(Aware(t))
  }

  /** One blob of an event: flags as everywhere, and a thumbnail blob re-dates the event. */
  function Touch(d: Dated, b: Blob, filename: string): Dated {
    Dated(Mark(d.flags, filename), if IsThumbnailFile(filename) then Redate(b.meta, d.date) else d.date)
  }

  /** The `events` dict after the grouping loop. */
  function Records(blobs: seq<Blob>): Table<Dated> {
    Group(blobs, Undated, Touch)
  }

  /** Some thumbnail blob of `e` gave a date: its reload raised or reported a time. */
  ghost predicate DatedBlob(blobs: seq<Blob>, e: string) {
    exists k :: 0 <= k < |blobs| && ThumbnailBlobOf(blobs[k], e) && blobs[k].meta != Ok(None)
  }

  ghost predicate ReloadedAt(blobs: seq<Blob>, e: string, t: int) {
    exists k :: 0 <= k < |blobs| && ThumbnailBlobOf(blobs[k], e) && blobs[k].meta == Ok(Some(t))
  }

  ghost predicate ReloadFailed(blobs: seq<Blob>, e: string) {
    exists k :: 0 <= k < |blobs| && ThumbnailBlobOf(blobs[k], e) && blobs[k].meta.Raised?
  }

  lemma ThumbnailFront(blobs: seq<Blob>, e: string, t: int)
    requires blobs != []
    ensures DatedBlob(blobs, e) <==> DatedBlob(Front(blobs), e) || (ThumbnailBlobOf(Last(blobs), e) && Last(blobs).meta != Ok(None))
    ensures ReloadedAt(blobs, e, t) <==> ReloadedAt(Front(blobs), e, t) || (ThumbnailBlobOf(Last(blobs), e) && Last(blobs).meta == Ok(Some(t)))
    ensures ReloadFailed(blobs, e) <==> ReloadFailed(Front(blobs), e) || (ThumbnailBlobOf(Last(blobs), e) && Last(blobs).meta.Raised?)
  {
    var front := Front(blobs);
    assert forall k :: 0 <= k < |front| ==> front[k] == blobs[k];
    if DatedBlob(front, e) {
      var k :| 0 <= k < |front| && ThumbnailBlobOf(front[k], e) && front[k].meta != Ok(None);
      assert ThumbnailBlobOf(blobs[k], e);
    }
    if ReloadedAt(front, e, t) {
      var k :| 0 <= k < |front| && ThumbnailBlobOf(front[k], e) && front[k].meta == Ok(Some(t));
      assert ThumbnailBlobOf(blobs[k], e);
    }
    if ReloadFailed(front, e) {
      var k :| 0 <= k < |front| && ThumbnailBlobOf(front[k], e) && front[k].meta.Raised?;
      assert ThumbnailBlobOf(blobs[k], e);
    }
  }

  lemma {:induction false} ReplayTouch(blobs: seq<Blob>, e: string, d0: Dated)
    ensures var d := Replay(blobs, e, d0, Touch);
      && d.flags == Replay(blobs, e, d0.flags, MarkBlob)
      && (d.date.Some? <==> d0.date.Some? || DatedBlob(blobs, e))
      && (d.date.Some? && d.date.value.Aware? ==> d.date == d0.date || ReloadedAt(blobs, e, d.date.value.seconds))
      && (d.date.Some? && d.date.value.Naive? ==> d.date == d0.date || (d.date == Some(FallbackDate) && ReloadFailed(blobs, e)))
  {
    if blobs != [] {
      ReplayTouch(Front(blobs), e, d0);
      var d := Replay(blobs, e, d0, Touch);
      ThumbnailFront(blobs, e, if d.date.Some? then d.date.value.seconds else 0);
    }
  }

  /** The date left by the last thumbnail blob of `e` in the listing whose
      reload raised (the fallback) or reported a creation time; None when no
      thumbnail blob of `e` gave one. */
  ghost function LastDate(blobs: seq<Blob>, e: string): Option<Stamp> {
    if blobs == [] then None
    else if ThumbnailBlobOf(Last(blobs), e) && Last(blobs).meta.Raised? then Some(FallbackDate)
    else if ThumbnailBlobOf(Last(blobs), e) && Last(blobs).meta.value.Some? then Some(Aware(Last(blobs).meta.value.value))
    else LastDate(Front(blobs), e)
  }

  /** Replaying the blobs of `e` leaves the date of its last dating thumbnail
      blob, or the starting date when none of them gave one. */
  lemma {:induction false} ReplayDate(blobs: seq<Blob>, e: string, d0: Dated)
    ensures Replay(blobs, e, d0, Touch).date == if LastDate(blobs, e).Some? then LastDate(blobs, e) else d0.date
  {
    if blobs != [] {
      ReplayDate(Front(blobs), e, d0);
    }
  }

  /** Two thumbnail blobs that both report a time: the one listed last wins. */
  lemma LastListedDateWins()
    ensures var png := Blob(ObjectPath("events", "e", ThumbnailPng), 0, Ok(Some(200)));
      var jpg := Blob(ObjectPath("events", "e", ThumbnailJpg), 0, Ok(Some(100)));
      "e" in Records([png, jpg]).entries && Records([png, jpg]).entries["e"].date == Some(Aware(100))
  {
    var png := Blob(ObjectPath("events", "e", ThumbnailPng), 0, Ok(Some(200)));
    var jpg := Blob(ObjectPath("events", "e", ThumbnailJpg), 0, Ok(Some(100)));
    ParseObjectPath("events", "e", ThumbnailPng);
    ParseObjectPath("events", "e", ThumbnailJpg);
    RecordsExact([png, jpg]);
    assert Mentions([png, jpg], "e") by {
      assert ThumbnailBlobOf(png, "e");
    }
    assert Front([png, jpg]) == [png];
    assert LastDate([png, jpg], "e") == Some(Aware(100));
  }

  /** The dict the grouping loop builds: every mentioned event once, in
      first-seen order, with the usual flags; it has a date exactly when some
      thumbnail blob of the event gave one; a time-zone-aware date is the
      reported creation time of one of its thumbnail blobs, a naive one is the
      2020-01-01 fallback of a reload that raised; and it is the date given by
      the last such blob listed. */
  lemma RecordsExact(blobs: seq<Blob>)
    ensures var t := Records(blobs);
      && t.ids == EventIds(blobs)
      && Distinct(t.ids)
      && (forall e :: e in t.entries <==> Mentions(blobs, e))
      && (forall e :: e in t.entries ==>
            && (t.entries[e].flags.hasImage <==> HasImageBlob(blobs, e))
            && (t.entries[e].flags.hasThumbnail <==> HasThumbnailBlob(blobs, e))
            && (t.entries[e].date.Some? <==> DatedBlob(blobs, e))
            && (t.entries[e].date.Some? && t.entries[e].date.value.Aware? ==> ReloadedAt(blobs, e, t.entries[e].date.value.seconds))
            && (t.entries[e].date.Some? && t.entries[e].date.value.Naive? ==> t.entries[e].date == Some(FallbackDate) && ReloadFailed(blobs, e))
            && t.entries[e].date == LastDate(blobs, e))
  {
    GroupShape(blobs, Undated, Touch);
    EventIdsExact(blobs);
    forall e | e in Records(blobs).entries
      ensures (Records(blobs).entries[e].flags.hasImage <==> HasImageBlob(blobs, e))
      ensures (Records(blobs).entries[e].flags.hasThumbnail <==> HasThumbnailBlob(blobs, e))
    {
      ReplayTouch(blobs, e, Undated);
      ReplayMark(blobs, e, Unmarked);
    }
    forall e | e in Records(blobs).entries
      ensures var d := Records(blobs).entries[e];
        && (d.date.Some? <==> DatedBlob(blobs, e))
        && (d.date.Some? && d.date.value.Aware? ==> ReloadedAt(blobs, e, d.date.value.seconds))
        && (d.date.Some? && d.date.value.Naive? ==> d.date == Some(FallbackDate) && ReloadFailed(blobs, e))
        && d.date == LastDate(blobs, e)
    {
      ReplayTouch(blobs, e, Undated);
      ReplayDate(blobs, e, Undated);
    }
  }

  // ---- Selection ----

  /** An entry of `events_with_dates`. */
  datatype Candidate = Candidate(eventId: string, date: Stamp)

  /** `files['has_thumbnail'] and not files['has_image'] and files['thumbnail_date']`. */
  predicate Wanted(d: Dated) {
    d.flags.hasThumbnail && !d.flags.hasImage && d.date.Some?
  }

  /** The selection loop, in key order. */
  function Pending(ids: seq<string>, entries: map<string, Dated>): (r: seq<Candidate>)
    ensures forall c :: c in r ==> c.eventId in entries && Wanted(entries[c.eventId]) && c.date == entries[c.eventId].date.value
  {
    if ids == [] then []
    else
      var e := Last(ids);
      Pending(Front(ids), entries) + if e in entries && Wanted(entries[e]) then [Candidate(e, entries[e].date.value)] else []
  }

  function Ids(cs: seq<Candidate>): seq<string> {
    seq(|cs|, i requires 0 <= i < |cs| => cs[i].eventId)
  }

  /** The candidates' ids are exactly the kept keys, in key order. */
  lemma {:induction false} PendingIds(ids: seq<string>, entries: map<string, Dated>)
    ensures Ids(Pending(ids, entries)) == SelectIds(ids, entries, Wanted)
  {
    if ids != [] {
      PendingIds(Front(ids), entries);
      var p := Pending(Front(ids), entries);
      var e := Last(ids);
      if e in entries && Wanted(entries[e]) {
        assert Ids(p + [Candidate(e, entries[e].date.value)]) == Ids(p) + [e];
      } else {
        assert p + [] == p;
      }
    }
  }

  // ---- `sort(key=date, reverse=True)` ----

  /** The comparison key; naive dates are compared as UTC. */
  function Key(c: Candidate): int {
    c.date.seconds
  }

  predicate NewestFirst(s: seq<Candidate>) {
    forall i, j :: 0 <= i < j < |s| ==> Key(s[i]) >= Key(s[j])
  }

  /** `x` goes after every entry at least as new as it. */
  function Insert(x: Candidate, s: seq<Candidate>): (r: seq<Candidate>)
    ensures |r| == |s| + 1
  {
    if s == [] then [x]
    else if Key(s[0]) >= Key(x) then [s[0]] + Insert(x, s[1..])
    else [x] + s
  }

  /** A stable sort, newest first. */
  function SortNewestFirst(s: seq<Candidate>): (r: seq<Candidate>)
    ensures |r| == |s|
  {
    if s == [] then [] else Insert(Last(s), SortNewestFirst(Front(s)))
  }

  /** The entries dated `k`, in order. */
  function WithKey(s: seq<Candidate>, k: int): seq<Candidate> {
    if s == [] then [] else (if Key(s[0]) == k then [s[0]] else []) + WithKey(s[1..], k)
  }

  lemma {:induction false} WithKeyAppend(a: seq<Candidate>, b: seq<Candidate>, k: int)
    ensures WithKey(a + b, k) == WithKey(a, k) + WithKey(b, k)
  {
    if a == [] {
      assert a + b == b;
    } else {
      assert (a + b)[0] == a[0] && (a + b)[1..] == a[1..] + b;
      WithKeyAppend(a[1..], b, k);
      var head := if Key(a[0]) == k then [a[0]] else [];
      calc {
        WithKey(a + b, k);
        head + WithKey(a[1..] + b, k);
        head + (WithKey(a[1..], k) + WithKey(b, k));
        (head + WithKey(a[1..], k)) + WithKey(b, k);
        WithKey(a, k) + WithKey(b, k);
      }
    }
  }

  lemma {:induction false} WithKeyBelow(s: seq<Candidate>, k: int)
    requires forall i :: 0 <= i < |s| ==> Key(s[i]) < k
    ensures WithKey(s, k) == []
  {
    if s != [] {
      assert forall i :: 0 <= i < |s[1..]| ==> s[1..][i] == s[i + 1];
      WithKeyBelow(s[1..], k);
    }
  }

  lemma {:induction false} InsertPermutes(x: Candidate, s: seq<Candidate>)
    ensures multiset(Insert(x, s)) == multiset(s) + multiset{x}
  {
    if s != [] && Key(s[0]) >= Key(x) {
      InsertPermutes(x, s[1..]);
      assert s == [s[0]] + s[1..];
    }
  }

  lemma {:induction false} InsertOrdered(x: Candidate, s: seq<Candidate>)
    requires NewestFirst(s)
    ensures NewestFirst(Insert(x, s))
  {
    if s != [] && Key(s[0]) >= Key(x) {
      var rest := s[1..];
      InsertOrdered(x, rest);
      InsertPermutes(x, rest);
      var r := Insert(x, rest);
      forall i | 0 <= i < |r|
        ensures Key(s[0]) >= Key(r[i])
      {
        assert r[i] in multiset(r);
        if r[i] != x {
          assert r[i] in multiset(rest);
          var j :| 0 <= j < |rest| && rest[j] == r[i];
          assert rest[j] == s[j + 1];
        }
      }
      assert forall i :: 0 < i < |[s[0]] + r| ==> ([s[0]] + r)[i] == r[i - 1];
    } else if s != [] {
      assert forall i :: 0 < i < |[x] + s| ==> ([x] + s)[i] == s[i - 1];
    }
  }

  lemma {:induction false} InsertStable(x: Candidate, s: seq<Candidate>, k: int)
    requires NewestFirst(s)
    ensures WithKey(Insert(x, s), k) == WithKey(s, k) + if Key(x) == k then [x] else []
  {
    var tail := if Key(x) == k then [x] else [];
    if s == [] {
      assert WithKey([x], k) == tail + WithKey([], k);
    } else if Key(s[0]) >= Key(x) {
      var rest := s[1..];
      assert NewestFirst(rest) by {
        assert forall i :: 0 <= i < |rest| ==> rest[i] == s[i + 1];
      }
      InsertStable(x, rest, k);
      var head := if Key(s[0]) == k then [s[0]] else [];
      var r := Insert(x, rest);
      assert ([s[0]] + r)[0] == s[0] && ([s[0]] + r)[1..] == r;
      assert WithKey(Insert(x, s), k) == head + WithKey(r, k);
      assert WithKey(s, k) == head + WithKey(rest, k);
      assert head + (WithKey(rest, k) + tail) == (head + WithKey(rest, k)) + tail;
    } else {
      assert ([x] + s)[0] == x && ([x] + s)[1..] == s;
      assert WithKey(Insert(x, s), k) == tail + WithKey(s, k);
      if Key(x) == k {
        WithKeyBelow(s, k);
      }
    }
  }

  /** Python's sort with `reverse=True`: the result is newest first, holds
      the same entries, and entries with equal dates keep their order. */
  lemma SortExact(s: seq<Candidate>)
    ensures NewestFirst(SortNewestFirst(s))
    ensures multiset(SortNewestFirst(s)) == multiset(s)
    ensures forall k :: WithKey(SortNewestFirst(s), k) == WithKey(s, k)
  {
    SortOrdered(s);
    SortPermutes(s);
    forall k ensures WithKey(SortNewestFirst(s), k) == WithKey(s, k) {
      SortStable(s, k);
    }
  }

  lemma {:induction false} SortOrdered(s: seq<Candidate>)
    ensures NewestFirst(SortNewestFirst(s))
  {
    if s != [] {
      SortOrdered(Front(s));
      InsertOrdered(Last(s), SortNewestFirst(Front(s)));
    }
  }

  lemma {:induction false} SortPermutes(s: seq<Candidate>)
    ensures multiset(SortNewestFirst(s)) == multiset(s)
  {
    if s != [] {
      SortPermutes(Front(s));
      InsertPermutes(Last(s), SortNewestFirst(Front(s)));
      assert s == Front(s) + [Last(s)];
    }
  }

  lemma {:induction false} SortStable(s: seq<Candidate>, k: int)
    ensures WithKey(SortNewestFirst(s), k) == WithKey(s, k)
  {
    if s != [] {
      SortStable(Front(s), k);
      SortOrdered(Front(s));
      InsertStable(Last(s), SortNewestFirst(Front(s)), k);
      assert s == Front(s) + [Last(s)];
      WithKeyAppend(Front(s), [Last(s)], k);
      assert WithKey([Last(s)], k) == (if Key(Last(s)) == k then [Last(s)] else []) + WithKey([], k);
    }
  }

  /** `[event_id for event_id, date in events_with_dates[:max_events]]` after the
      sort, with the corrected comparison (see `SelectAsWritten`); a listing
      that raises gives no events. */
  function Select(listing: Outcome<seq<Blob>>, maxEvents: nat): seq<string> {
    match listing
    case Raised => []
    case Ok(blobs) =>
      var t := Records(blobs);
      Ids(Take(SortNewestFirst(Pending(t.ids, t.entries)), maxEvents))
  }

  /** The event has a thumbnail, no image, and a thumbnail blob that gave a date. */
  ghost predicate Qualifies(blobs: seq<Blob>, e: string) {
    HasThumbnailBlob(blobs, e) && !HasImageBlob(blobs, e) && DatedBlob(blobs, e)
  }

  /** A reordering of a sequence without repeats has no repeats. */
  lemma {:induction false} DistinctCount<T>(s: seq<T>)
    ensures Distinct(s) <==> forall x :: multiset(s)[x] <= 1
  {
    if s != [] {
      var front, last := Front(s), Last(s);
      DistinctCount(front);
      assert s == front + [last];
      assert forall x :: multiset(s)[x] == multiset(front)[x] + (if x == last then 1 else 0);
      if Distinct(s) {
        assert Distinct(front) by {
          assert forall i :: 0 <= i < |front| ==> front[i] == s[i];
        }
        assert last !in front by {
          assert forall i :: 0 <= i < |front| ==> front[i] == s[i] && s[i] != s[|s| - 1];
        }
      }
      if forall x :: multiset(s)[x] <= 1 {
        assert multiset(front)[last] == 0;
        forall i, j | 0 <= i < j < |s| ensures s[i] != s[j] {
          if j == |s| - 1 {
            assert s[i] in front;
          } else {
            assert s[i] == front[i] && s[j] == front[j];
          }
        }
      }
    }
  }

  /** Sorting keeps exactly the same entries, and keeps them free of repeats. */
  lemma SortKeeps(s: seq<Candidate>)
    ensures forall c :: c in SortNewestFirst(s) <==> c in s
    ensures Distinct(s) ==> Distinct(SortNewestFirst(s))
  {
    SortExact(s);
    var sorted := SortNewestFirst(s);
    forall c ensures c in sorted <==> c in s {
      assert c in sorted <==> c in multiset(sorted);
      assert c in s <==> c in multiset(s);
    }
    DistinctCount(s);
    DistinctCount(sorted);
  }

  /** The selection loop keeps each wanted key once, with its date. */
  lemma PendingDistinct(ids: seq<string>, entries: map<string, Dated>)
    requires Distinct(ids)
    ensures var pending := Pending(ids, entries);
      && Distinct(pending)
      && (forall i, j :: 0 <= i < j < |pending| ==> pending[i].eventId != pending[j].eventId)
      && (forall e :: e in ids && e in entries && Wanted(entries[e]) ==> Candidate(e, entries[e].date.value) in pending)
  {
    var pending := Pending(ids, entries);
    PendingIds(ids, entries);
    SelectIdsDistinct(ids, entries, Wanted);
    forall i, j | 0 <= i < j < |pending| ensures pending[i].eventId != pending[j].eventId {
      assert Ids(pending)[i] != Ids(pending)[j];
    }
    forall e | e in ids && e in entries && Wanted(entries[e])
      ensures Candidate(e, entries[e].date.value) in pending
    {
      assert e in Ids(pending);
      var p :| 0 <= p < |pending| && Ids(pending)[p] == e;
      assert pending[p].eventId == e;
    }
  }

  /** The sorted candidates: newest first, one per id, each an event the
      selection loop kept with its date, and every kept event present. */
  lemma SortedCandidates(ids: seq<string>, entries: map<string, Dated>)
    requires Distinct(ids)
    ensures var sorted := SortNewestFirst(Pending(ids, entries));
      && NewestFirst(sorted)
      && (forall i, j :: 0 <= i < j < |sorted| ==> sorted[i].eventId != sorted[j].eventId)
      && (forall c :: c in sorted ==>
            c.eventId in entries && Wanted(entries[c.eventId]) && c.date == entries[c.eventId].date.value)
      && (forall e :: e in ids && e in entries && Wanted(entries[e]) ==> Candidate(e, entries[e].date.value) in sorted)
  {
    var pending := Pending(ids, entries);
    var sorted := SortNewestFirst(pending);
    SortExact(pending);
    PendingDistinct(ids, entries);
    SortKeeps(pending);
    forall i, j | 0 <= i < j < |sorted|
      ensures sorted[i].eventId != sorted[j].eventId
    {
      assert sorted[i] in pending && sorted[j] in pending;
    }
  }

  /** The slice of the sorted candidates, over any dict with distinct keys. */
  lemma TakeNewest(ids: seq<string>, entries: map<string, Dated>, maxEvents: nat)
    requires Distinct(ids)
    ensures var r := Ids(Take(SortNewestFirst(Pending(ids, entries)), maxEvents));
      && |r| <= maxEvents
      && Distinct(r)
      && (forall e :: e in r ==> e in entries && Wanted(entries[e]))
      && (forall i, j :: 0 <= i < j < |r| ==> entries[r[i]].date.value.seconds >= entries[r[j]].date.value.seconds)
      && (forall e :: e in ids && e in entries && Wanted(entries[e]) && e !in r ==>
            && |r| == maxEvents
            && forall e' :: e' in r ==> entries[e'].date.value.seconds >= entries[e].date.value.seconds)
  {
    SortedCandidates(ids, entries);
    SliceNewest(SortNewestFirst(Pending(ids, entries)), ids, entries, maxEvents);
  }

  /** The first `maxEvents` of any newest-first list of candidates, one per id,
      drawn from the dict and holding every wanted key. */
  lemma SliceNewest(sorted: seq<Candidate>, ids: seq<string>, entries: map<string, Dated>, maxEvents: nat)
    requires NewestFirst(sorted)
    requires forall i, j :: 0 <= i < j < |sorted| ==> sorted[i].eventId != sorted[j].eventId
    requires forall c :: c in sorted ==> c.eventId in entries && Wanted(entries[c.eventId]) && c.date == entries[c.eventId].date.value
    requires forall e :: e in ids && e in entries && Wanted(entries[e]) ==> Candidate(e, entries[e].date.value) in sorted
    ensures var r := Ids(Take(sorted, maxEvents));
      && |r| <= maxEvents
      && Distinct(r)
      && (forall e :: e in r ==> e in entries && Wanted(entries[e]))
      && (forall i, j :: 0 <= i < j < |r| ==> entries[r[i]].date.value.seconds >= entries[r[j]].date.value.seconds)
      && (forall e :: e in ids && e in entries && Wanted(entries[e]) && e !in r ==>
            && |r| == maxEvents
            && forall e' :: e' in r ==> entries[e'].date.value.seconds >= entries[e].date.value.seconds)
  {
    var r := Ids(Take(sorted, maxEvents));
    assert forall i :: 0 <= i < |r| ==> r[i] == sorted[i].eventId && sorted[i] in sorted;
    forall e | e in ids && e in entries && Wanted(entries[e]) && e !in r
      ensures |r| == maxEvents
      ensures forall e' :: e' in r ==> entries[e'].date.value.seconds >= entries[e].date.value.seconds
    {
      var c := Candidate(e, entries[e].date.value);
      var q :| 0 <= q < |sorted| && sorted[q] == c;
      assert q >= |r|;
    }
  }

  /** The selection: at most `max_events` distinct events, each with a
      thumbnail, no image and a date, listed newest first; and an event that
      qualifies is left out only when `max_events` events at least as new fill
      the selection. */
  lemma SelectExact(blobs: seq<Blob>, maxEvents: nat)
    ensures var t := Records(blobs);
      var r := Select(Ok(blobs), maxEvents);
      && |r| <= maxEvents
      && Distinct(r)
      && (forall e :: e in r ==> e in t.entries && t.entries[e].date.Some? && Qualifies(blobs, e))
      && (forall i, j :: 0 <= i < j < |r| ==> t.entries[r[i]].date.value.seconds >= t.entries[r[j]].date.value.seconds)
      && (forall e :: Qualifies(blobs, e) && e !in r ==>
            && e in t.entries && t.entries[e].date.Some?
            && |r| == maxEvents
            && forall e' :: e' in r ==> t.entries[e'].date.value.seconds >= t.entries[e].date.value.seconds)
  {
    var t := Records(blobs);
    var r := Select(Ok(blobs), maxEvents);
    assert r == Ids(Take(SortNewestFirst(Pending(t.ids, t.entries)), maxEvents));
    GroupWellOrdered(blobs, Undated, Touch);
    TakeNewest(t.ids, t.entries, maxEvents);
    forall e | e in t.entries
      ensures Wanted(t.entries[e]) <==> Qualifies(blobs, e)
    {
      WantedQualifies(blobs, e);
    }
    forall e | Qualifies(blobs, e)
      ensures e in t.ids
    {
      QualifiesMentioned(blobs, e);
    }
  }

  lemma WantedQualifies(blobs: seq<Blob>, e: string)
    requires e in Records(blobs).entries
    ensures Wanted(Records(blobs).entries[e]) <==> Qualifies(blobs, e)
  {
    RecordsExact(blobs);
  }

  lemma QualifiesMentioned(blobs: seq<Blob>, e: string)
    requires Qualifies(blobs, e)
    ensures e in Records(blobs).ids && e in Records(blobs).entries
  {
    GroupShape(blobs, Undated, Touch);
    EventIdsExact(blobs);
    var k :| 0 <= k < |blobs| && ThumbnailBlobOf(blobs[k], e);
    assert EventOf(blobs[k]) == Some(e);
  }

  // ---- The comparison as written ----

  /** Some candidates are dated by the service and some by the fallback. */
  predicate Mixed(s: seq<Candidate>) {
    (exists i :: 0 <= i < |s| && s[i].date.Aware?) && (exists j :: 0 <= j < |s| && s[j].date.Naive?)
  }

  /** The scan as the script runs it: comparing a naive `datetime` with an
      aware one raises `TypeError`, any sort of a list holding both kinds
      makes such a comparison, and the outer `except` then returns `[]`. */
  function SelectAsWritten(listing: Outcome<seq<Blob>>, maxEvents: nat): seq<string> {
    match listing
    case Raised => []
    case Ok(blobs) =>
      var t := Records(blobs);
      var pending := Pending(t.ids, t.entries);
      if Mixed(pending) then [] else Ids(Take(SortNewestFirst(pending), maxEvents))
  }

  /** The two agree except when both kinds of date are present; then the
      script selects nothing although every qualifying event is available. */
  lemma AsWrittenDiffers(blobs: seq<Blob>, maxEvents: nat)
    ensures var t := Records(blobs);
      var pending := Pending(t.ids, t.entries);
      && (!Mixed(pending) ==> SelectAsWritten(Ok(blobs), maxEvents) == Select(Ok(blobs), maxEvents))
      && (Mixed(pending) ==> && SelectAsWritten(Ok(blobs), maxEvents) == []
                             && |pending| >= 2
                             && |Select(Ok(blobs), maxEvents)| == Min(|pending|, maxEvents))
  {
    var t := Records(blobs);
    var pending := Pending(t.ids, t.entries);
    if Mixed(pending) {
      var i :| 0 <= i < |pending| && pending[i].date.Aware?;
      var j :| 0 <= j < |pending| && pending[j].date.Naive?;
      assert i != j;
      assert |pending| >= 2;
    }
  }

  /** Two events with a thumbnail each: the reload of the first raises, the
      second reports a creation time in November 2023. */
  const MixedListing: seq<Blob> := [
    Blob(ObjectPath("events", "e1", ThumbnailPng), 0, Raised),
    Blob(ObjectPath("events", "e2", ThumbnailPng), 0, Ok(Some(1700000000)))]

  lemma MixedListingRecords()
    ensures Records(MixedListing) == Table(["e1", "e2"], map[
      "e1" := Dated(Flags(false, true), Some(FallbackDate)),
      "e2" := Dated(Flags(false, true), Some(Aware(1700000000)))])
  {
    var b1, b2 := MixedListing[0], MixedListing[1];
    ParseObjectPath("events", "e1", ThumbnailPng);
    ParseObjectPath("events", "e2", ThumbnailPng);
    assert Front(MixedListing) == [b1] && Front([b1]) == [];
    assert Parse(b1.name) == Some(Entry("e1", ThumbnailPng));
    assert !IsImageFile(ThumbnailPng) && IsThumbnailFile(ThumbnailPng);
    assert Touch(Undated, b1, ThumbnailPng) == Dated(Flags(false, true), Some(FallbackDate));
    assert Group([], Undated, Touch) == Table([], map[]);
    assert Records([b1]) == Step(Table([], map[]), b1, Undated, Touch);
    assert Records([b1]) == Table(["e1"], map["e1" := Dated(Flags(false, true), Some(FallbackDate))]);
  }

  lemma MixedListingPending()
    ensures var t := Records(MixedListing);
      Pending(t.ids, t.entries) == [Candidate("e1", FallbackDate), Candidate("e2", Aware(1700000000))]
  {
    MixedListingRecords();
    var t := Records(MixedListing);
    assert Front(["e1", "e2"]) == ["e1"] && Front(["e1"]) == [];
    assert Last(["e1", "e2"]) == "e2" && Last(["e1"]) == "e1";
    assert Pending([], t.entries) == [];
    assert Pending(["e1"], t.entries) == [Candidate("e1", FallbackDate)];
  }

  /** For that listing the script selects nothing, while the corrected
      comparison selects both events, the 2023 one first. */
  lemma MixedDatesDropEverything()
    ensures SelectAsWritten(Ok(MixedListing), MaxEvents) == []
    ensures Select(Ok(MixedListing), MaxEvents) == ["e2", "e1"]
  {
    MixedListingPending();
    var t := Records(MixedListing);
    var c1, c2 := Candidate("e1", FallbackDate), Candidate("e2", Aware(1700000000));
    var pending := Pending(t.ids, t.entries);
    assert pending[0].date.Naive? && pending[1].date.Aware?;
    assert Mixed(pending);
    assert Front(pending) == [c1] && Last(pending) == c2 && Front([c1]) == [];
    assert SortNewestFirst([c1]) == [c1];
    assert Insert(c2, [c1]) == [c2, c1];
    assert Take([c2, c1], MaxEvents) == [c2, c1];
    assert Ids([c2, c1]) == ["e2", "e1"];
  }

  // ---- The scan as a loop ----

  /** The grouping loop of `get_events_needing_images`, which records each
      thumbnail's creation time, or the fallback date when `reload` raises. */
  method GroupDated(blobs: seq<Blob>) returns (ids: seq<string>, events: map<string, Dated>)
    ensures Table(ids, events) == Records(blobs)
  {
    ids, events := [], map[];
    for i := 0 to |blobs|
      invariant Table(ids, events) == Records(blobs[..i])
    {
      assert Front(blobs[..i + 1]) == blobs[..i] && Last(blobs[..i + 1]) == blobs[i];
      var parts := Split(blobs[i].name);
      if |parts| >= 3 {
        var eventId, filename := parts[1], parts[2];
        if eventId !in events {
          events := events[eventId := Undated];
          ids := ids + [eventId];
        }
        if IsImageFile(filename) {
          events := events[eventId := events[eventId].(flags := events[eventId].flags.(hasImage := true))];
        } else if IsThumbnailFile(filename) {
          events := events[eventId := events[eventId].(flags := events[eventId].flags.(hasThumbnail := true))];
          match blobs[i].meta
          case Raised =>
            events := events[eventId := events[eventId].(date := Some(FallbackDate))];
          case Ok(created) =>
            if created.Some? {
              events := events[eventId := events[eventId].(date := Some(Aware(created.value)))];
            }
        }
      }
    }
    assert blobs[..|blobs|] == blobs;
  }

  /** The selection loop: the dated events with a thumbnail and no image, in key order. */
  method PendingLoop(ids: seq<string>, events: map<string, Dated>) returns (pending: seq<Candidate>)
    ensures pending == Pending(ids, events)
  {
    pending := [];
    for j := 0 to |ids|
      invariant pending == Pending(ids[..j], events)
    {
      assert Front(ids[..j + 1]) == ids[..j] && Last(ids[..j + 1]) == ids[j];
      var e := ids[j];
      if e in events && Wanted(events[e]) {
        pending := pending + [Candidate(e, events[e].date.value)];
      }
    }
    assert ids[..|ids|] == ids;
  }

  /** `get_events_needing_images`: the grouping loop, the selection loop, the
      sort, and the slice. */
  method GetEventsNeedingImages(listing: Outcome<seq<Blob>>, maxEvents: nat) returns (needing: seq<string>)
    ensures needing == Select(listing, maxEvents)
  {
    if listing.Raised? {
      return [];
    }
    var ids, events := GroupDated(listing.value);
    var pending := PendingLoop(ids, events);
    var sorted := SortNewestFirst(pending);
    var n := if |sorted| <= maxEvents then |sorted| else maxEvents;
    needing := [];
    for k := 0 to n
      invariant needing == Ids(sorted[..k])
    {
      needing := needing + [sorted[k].eventId];
    }
    assert sorted[..n] == Take(sorted, maxEvents);
  }

  // ---- Processing and the run ----

  class LimitedImageGenerator {
    var bucket: Bucket
    const codec: Codec
    var processedCount: nat
    var skippedCount: nat
    var errorCount: nat

    constructor (bucket: Bucket, codec: Codec)
      ensures this.bucket == bucket && this.codec == codec
      ensures processedCount == 0 && skippedCount == 0 && errorCount == 0
    {
      this.bucket := bucket;
      this.codec := codec;
      processedCount, skippedCount, errorCount := 0, 0, 0;
    }

    method ProcessEvent(collection: string, eventId: string) returns (ok: bool)
      modifies this
      ensures ok <==> ProcessPng(old(bucket), codec, collection, eventId).Ok?
      ensures bucket == (if ok then ProcessPng(old(bucket), codec, collection, eventId).value else old(bucket))
      ensures processedCount == old(processedCount) + (if ok then 1 else 0)
      ensures errorCount == old(errorCount) + (if ok then 0 else 1)
      ensures skippedCount == old(skippedCount)
    {
      var job := ImageJob(collection, eventId);
      var thumbnail := FetchFirst(bucket, job.sources);
      if thumbnail.None? || thumbnail.value == [] {
        errorCount := errorCount + 1;
        return false;
      }
      var image := UpscalePng(codec, thumbnail.value);
      if image.None? || image.value == [] {
        errorCount := errorCount + 1;
        return false;
      }
      var uploaded := Upload(bucket, job.target, image.value, "image/png");
      if uploaded.Raised? {
        errorCount := errorCount + 1;
        return false;
      }
      bucket := uploaded.value;
      processedCount := processedCount + 1;
      return true;
    }

    method GenerateMissingImages(listing: Outcome<seq<Blob>>, maxEvents: nat) returns (events: seq<string>)
      modifies this
      ensures events == Select(listing, maxEvents)
      ensures bucket == RunAllPng(old(bucket), codec, "events", events).0
      ensures processedCount == old(processedCount) + RunAllPng(old(bucket), codec, "events", events).1
      ensures processedCount + errorCount == old(processedCount) + old(errorCount) + |events|
      ensures skippedCount == old(skippedCount)
    {
      events := GetEventsNeedingImages(listing, maxEvents);
      ghost var b0, p0, e0 := bucket, processedCount, errorCount;
      for i := 0 to |events|
        invariant bucket == RunAllPng(b0, codec, "events", events[..i]).0
        invariant processedCount == p0 + RunAllPng(b0, codec, "events", events[..i]).1
        invariant processedCount + errorCount == p0 + e0 + i
        invariant skippedCount == old(skippedCount)
      {
        assert Front(events[..i + 1]) == events[..i] && Last(events[..i + 1]) == events[i];
        var _ := ProcessEvent("events", events[i]);
      }
      assert events[..|events|] == events;
    }
  }
}
