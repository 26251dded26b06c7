# Thumbnail generator, modelled in Dafny

The repository is a set of Python maintenance scripts for the image assets of
an events app. The assets live in a Firebase Storage bucket under names of the
form `collection/eventId/filename`. An event may have an `event_image` (`.png`
or `.jpg`) and an `event_thumbnail` (`.png` or `.jpg`).

The scripts do two kinds of work:

- Generators create the missing asset of each event.
  - `generate_thumbnails.py` makes a thumbnail from the event image. It aims at 63 KiB, but its final quality-15 fallback is stored whatever its size.
  - Four variants of `generate_missing_images*.py` make an `event_image.png` from the thumbnail by fitting it into an 800-pixel box. The recent and simple variants may shrink it and re-encode it as JPEG to stay under 1 MiB.
  - The variants differ in how they choose the events: all recent ones, a date-sorted limited list, a backwards walk, or a forward walk with a live probe.
- Diagnostics group a listing and report coverage.
  - `count_events_needing_images.py`, `check_thumbnail.py`, `full_scan.py` and `scan_events.py`.

Every script repeats one classifier. It makes one pass over the listed blob
names and builds an insertion-ordered dict from event id to the flags
`has_image` and `has_thumbnail`. It then selects keys from that dict.

The model has these parts:

- **Storage and listing as values.**
  - A `Bucket` maps object names to bytes and content types. It also holds a set of faulty names, whose calls raise.
  - A listing is an `Outcome<seq<Blob>>`, where `Raised` is a listing that raised.
  - Each `Blob` carries its name, its size, and what `reload()` reports.
- **The grouping loop.**
  - `Classifier.Group` is generic over the record kept per event.
  - Each script's record is an instance: flags, flags and sizes, flags and filenames, or flags and a thumbnail date.
  - Each instance is proved equal to a reference defined independently of the grouping fold: the ids in first-seen order, "some listed blob of that event has that role", the date or sizes given by the last listed blob of each role, and the list of the event's filenames.
- **Imaging as a parameter.**
  - A `Codec` reports the decoded size of some bytes and renders an attempt, which is a format and a resize.
  - The size-constrained searches are lists of attempts, and the first attempt that fits wins (`Imaging.FirstFit`).
  - Each script's search loop is a method proved equal to that list search.
  - Shape lemmas give the length of each attempt list and the bounds of each attempt.
- **Generators as classes.**
  - Each generator has a bucket and processed/skipped/error counters.
  - `ProcessEvent` and the driver methods update these in place.

## Model

| member | source | states |
|---|---|---|
| Basics.Take | generate_missing_images_limited.py:121 | the slice `s[:n]` is a prefix of `s` whose length is the smaller of `n` and the length of `s` |
| Basics.Truncate | check_thumbnail.py:86-91 | a preview shows the first `k` items and reports a remainder exactly when there are more than `k`; shown plus remainder is the whole count |
| Basics.Reversed | generate_missing_images_recent.py:92 | `reversed(s)` has the length of `s` |
| Basics.ReversedAt | generate_missing_images_recent.py:92 | position `i` of the reversed list is position `len(s)-1-i` of the original |
| Basics.SubsequenceExtend | generate_thumbnails.py:103-105 | extending a list, or both lists, keeps the filtered list a subsequence |
| Paths.Split | generate_thumbnails.py:89 | `name.split('/')` always gives at least one piece |
| Paths.JoinSplit | generate_thumbnails.py:89 | joining the pieces with `/` gives back the name |
| Paths.SplitPieces | generate_thumbnails.py:89 | there is one piece more than there are separators, and no piece holds a separator |
| Paths.SplitJoin | generate_thumbnails.py:89 | splitting a join of separator-free pieces gives back the pieces |
| Paths.Parse | generate_thumbnails.py:89-95 | a name yields an (event id, filename) entry exactly when it has at least two separators |
| Paths.ParseObjectPath | generate_thumbnails.py:233 | a path built as `collection/eventId/filename` from separator-free pieces parses back to that event and filename |
| Paths.ParseDeeper | generate_thumbnails.py:90-95 | a deeper name `c/e/sub/x` is read as event `e` with filename `sub`: the third piece, not the last |
| Storage.UploadThenDownload | generate_thumbnails.py:241 | after an upload the object exists, downloads as the uploaded bytes with the given content type, and every other object is unchanged |
| Storage.FetchFirst | generate_thumbnails.py:114-131 | the bytes returned are those of one of the probed paths that is stored |
| Storage.FetchPngBeforeJpg | generate_thumbnails.py:118-124 | a stored `.png` wins over the `.jpg`; a raising first probe returns nothing; the `.jpg` is read only when the `.png` is absent |
| Storage.HasEventImage | generate_missing_images_simple.py:119-129 | a yes means a healthy stored `event_image.png` or `.jpg`; with no faulty probe the answer is exactly whether one of them is stored |
| Storage.ContentTypeOf | generate_thumbnails.py:236-238 | the label is always `image/jpeg` or `image/png` |
| Storage.SniffMatchesMarker | generate_thumbnails.py:237 | data is labelled JPEG exactly when it starts with `FF D8 FF`; PNG-signature data is labelled PNG |
| Storage.UploadedImageIsFound | generate_missing_images_simple.py:276-293 | once `event_image.png` is uploaded, the image probe of that event answers yes |
| Classifier.MentionsFront | generate_thumbnails.py:88-95 | an event is named by a listing exactly when it is named by its front or by its last blob |
| Classifier.EventIdsExact | generate_thumbnails.py:94-95 | the first-seen id order holds every named event exactly once |
| Classifier.EventIdsPrefix | generate_thumbnails.py:94-95 | the ids met in a prefix of the listing are a prefix of the ids |
| Classifier.ReplayUnmentioned | generate_thumbnails.py:88-101 | an event not named by the listing keeps its initial record |
| Classifier.GroupShape | generate_thumbnails.py:88-101 | any grouping loop builds a dict whose keys are the named events in first-seen order, each holding the replay of its own blobs |
| Classifier.GroupWellOrdered | generate_thumbnails.py:88-101 | the dict's key list and key set agree, without repeats |
| Classifier.SelectIds | generate_thumbnails.py:103-105 | a key is selected exactly when it is a key whose value passes the test |
| Classifier.SelectIdsOrder | generate_thumbnails.py:103-105 | the selection keeps the key order |
| Classifier.SelectIdsDistinct | generate_thumbnails.py:103-105 | the selection has no repeats when the keys have none |
| Classifier.HasBlobFront | generate_thumbnails.py:97-100 | an event has an image (thumbnail) blob exactly when its front does or the last blob is one |
| Classifier.ReplayMark | generate_thumbnails.py:97-100 | flags are only ever set: a replay ends with a flag on exactly when it started on or the event has a blob of that role |
| Classifier.ClassifyExact | generate_thumbnails.py:88-101 | the plain dict has every named event once, in first-seen order, and `has_image`/`has_thumbnail` hold exactly when the listing names such a blob |
| Classifier.GroupEvents | count_events_needing_images.py:62-78 | the grouping loop builds exactly the classifier's dict |
| Counting.BatchesCeiling | count_events_needing_images.py:99-100 | `(n + 499) // 500` batches of 500 are enough, one fewer is not, and there is at least one |
| Counting.CountIsSelection | count_events_needing_images.py:82-85 | each `sum(1 for ...)` count is the length of the matching key selection |
| Counting.CategoriesPartition | count_events_needing_images.py:81-85 | the four categories add up to the number of events |
| Counting.TallyExact | count_events_needing_images.py:62-105 | every blob is counted; the events are the distinct named ids, no more than the blobs; the categories partition them; the answer counts exactly the events with a thumbnail blob and no image blob |
| Counting.EventsAtMostBlobs | count_events_needing_images.py:81 | there are never more events than blobs |
| Counting.CountEventsNeedingImages | count_events_needing_images.py:51-109 | the method returns the only-thumbnail count and logs the report, or returns 0 and no report when the listing raises |
| Coverage.CountsSplit | full_scan.py:51-60 | the events with an image are those needing a thumbnail plus those with both, and likewise for thumbnails |
| Coverage.CoverageExact | full_scan.py:51-78 | total is the distinct events; with-image equals need plus both; need and both are duplicate-free, in first-seen order, and hold exactly the events with image-without-thumbnail or with both |
| Coverage.Summarize | full_scan.py:51-78 | the statistics loops compute exactly the coverage of the dict |
| Imaging.AllTooLargeTail | generate_thumbnails.py:166-211 | the first `n` attempts all rendered too large exactly when the first `n-1` did and attempt `n-1` did too |
| Imaging.FirstFitExact | generate_thumbnails.py:166-211 | the search keeps the output of the first attempt within the ceiling after only too-large ones, fails exactly when a render fails first, and finds nothing exactly when every attempt is too large |
| Imaging.FirstFitAppend | generate_missing_images_simple.py:219-270 | searching two lists in turn is searching their concatenation |
| Imaging.FirstFitAt | generate_thumbnails.py:166-211 | a search whose earlier attempts all rendered too large keeps the first attempt within the ceiling |
| Imaging.FirstFitMonotone | generate_thumbnails.py:166-211 | raising the ceiling never makes the search give up later: whenever a lower ceiling keeps attempt `j`, a higher one keeps an output too, from an attempt no later than `j` |
| Imaging.FitsWithinCeiling | generate_thumbnails.py:186-201 | a kept output is never over the ceiling and is the render of one of the attempts |
| Imaging.ScaledAtMost | generate_thumbnails.py:168-169 | scaling by at most 1.0 never enlarges a side |
| Imaging.ScaledMonotone | generate_thumbnails.py:168-169 | a larger scale never gives a smaller side |
| Imaging.FitBoxLandscape | generate_missing_images.py:163-165 | for a wide or square source the width is `min(box, int(h*ratio))` and the height keeps the aspect ratio, truncated |
| Imaging.FitBoxPortrait | generate_missing_images.py:166-168 | for a tall source the height is `min(box, int(w/ratio))` and the width keeps the aspect ratio, truncated |
| Imaging.FitBoxBounds | generate_missing_images.py:151-168 | a size exists exactly when both sides are positive, and it fits the box |
| Imaging.FitBoxSquare | generate_missing_images.py:161-168 | in the square box the longer side of the result is the box side |
| Pipeline.RunWrites | generate_thumbnails.py:250-278 | a successful `process_event` read non-empty bytes from a source, transformed them to non-empty bytes, wrote them to the target with the content type its label rule gives, and left every other object alone |
| Pipeline.RunFails | generate_thumbnails.py:256-265 | nothing to fetch, empty bytes, or a faulty target make the event fail |
| Upscaling.UpscalePngShape | generate_missing_images.py:146-199 | an upscaled image is the level-6 PNG render of a decodable source with positive sides, at a size inside the 800-pixel box whose longer side is 800 |
| Upscaling.UpscalePngUnbounded | generate_missing_images.py:188-195 | nothing bounds the upscaled PNG's size: one example gives 2 MiB |
| Upscaling.ProcessPngWritesImage | generate_missing_images.py:217-245 | a successful event writes the upscaled thumbnail to `event_image.png`, labelled `image/png`, after which the event has an image |
| Upscaling.RunAllPng | generate_missing_images.py:247-285 | at most one success per event |
| Thumbnails.EventsNeedingThumbnailsExact | generate_thumbnails.py:76-112 | the selected events are duplicate-free, in first-seen order, and are exactly those with an image blob and no thumbnail blob |
| Thumbnails.GetEventsNeedingThumbnails | generate_thumbnails.py:76-112 | the scan method returns exactly that selection, or `[]` when the listing raises |
| Thumbnails.ScaleDown | generate_thumbnails.py:150-157 | scaling a side down by a ratio at most 1 truncates and stays within both the ratio and the side |
| Thumbnails.ThumbnailSizeLandscape | generate_thumbnails.py:150-153 | a wide image gets width `min(400, w)` and a proportional truncated height, unchanged when already within 400 |
| Thumbnails.ThumbnailSizePortrait | generate_thumbnails.py:154-157 | a tall image gets height `min(400, h)` and a proportional truncated width |
| Thumbnails.ThumbnailSizeBounds | generate_thumbnails.py:147-160 | a size exists exactly when the height is positive; it never exceeds 400 or the original and keeps the aspect ratio |
| Thumbnails.AttemptsShape | generate_thumbnails.py:163-211 | every attempt is a default PNG or a JPEG of quality 25 to 85 at a size of 100 pixels or more within the base size, with at most two attempts per quality step |
| Thumbnails.LadderStep | generate_thumbnails.py:203-211 | from a quality on the ladder, dropping by 10 above 50 and by 5 above 25 lands on the ladder one step lower; the only quality at or under 25 is 25, the last step before the scale drops and the quality returns to 85 |
| Thumbnails.AttemptsFull | generate_thumbnails.py:163-211 | when the 0.3 scale still keeps both sides at 100 pixels or more, no scale breaks the loop: every quality step of every scale from 1.0 to 0.3 is tried, two attempts each |
| Thumbnails.AttemptCount | generate_thumbnails.py:163-211 | the search loop makes at most 144 saves, and exactly 144 when the 0.3 scale keeps both sides at 100 pixels or more, since `quality > 15` never ends the loop |
| Thumbnails.PairedCons | generate_thumbnails.py:176-201 | a PNG and a JPEG of one size put before an alternating schedule keep it alternating |
| Thumbnails.AttemptsPaired | generate_thumbnails.py:176-201 | the attempts alternate: a default PNG at every even position, followed by a JPEG of the same size |
| Thumbnails.SmallSkipsSearch | generate_thumbnails.py:172-173 | a resized image with a side under 100 pixels skips the loop |
| Thumbnails.SearchThenFallbackOutcome | generate_thumbnails.py:166-224 | the result is an attempt's output within the target, or the fallback render after every attempt was too large |
| Thumbnails.ThumbnailOutcome | generate_thumbnails.py:133-228 | a thumbnail means the image decoded to a usable size; it is then a fitting attempt or the quality-15 fallback |
| Thumbnails.FallbackCanExceedTarget | generate_thumbnails.py:213-224 | the fallback is unguarded: its output can be larger than 63 KiB |
| Thumbnails.FallbackReshapes | generate_thumbnails.py:214-215 | the fallback size can enlarge a small thumbnail and change its aspect ratio |
| Thumbnails.CreateThumbnail | generate_thumbnails.py:133-228 | the loop method returns exactly the thumbnail the search-then-fallback specification gives |
| Thumbnails.ProcessWritesThumbnail | generate_thumbnails.py:250-278 | a successful event writes the thumbnail of the downloaded image to `event_thumbnail.png`, labelled by its magic bytes, and nothing else changes |
| Thumbnails.RunAll | generate_thumbnails.py:300-318 | at most one success per event |
| Thumbnails.ThumbnailGenerator.constructor | generate_thumbnails.py:49-74 | counters start at zero |
| Thumbnails.ThumbnailGenerator.ProcessEvent | generate_thumbnails.py:250-278 | exactly one of the processed and error counters moves; the bucket changes only on success |
| Thumbnails.ThumbnailGenerator.GenerateThumbnails | generate_thumbnails.py:280-318 | the events processed are the selection; the bucket is the result of processing them in order; every event adds one to processed or errors; skipped never moves |
| Recent.ScanFacts | generate_missing_images_recent.py:92-115 | at most `max_events` found, none twice; each has a thumbnail blob and no stored image; every checked event without an image was found; below the limit every thumbnail event was checked |
| Recent.ReversedThumbnails | generate_missing_images_recent.py:92 | walking the listing backwards sees the same thumbnail events |
| Recent.StepNeeding | generate_missing_images_recent.py:92-115 | below the limit, one more blob adds exactly the candidate it contributes: its event, when this is the event's first thumbnail blob in visiting order and the probe finds no image |
| Recent.ScanExact | generate_missing_images_recent.py:92-115 | the walk collects exactly the first `max_events` candidates in the order it visits the blobs |
| Recent.RecentNeedingExact | generate_missing_images_recent.py:77-122 | the selection is at most `max_events` distinct events with a thumbnail blob and no stored image; below the limit it holds all of them; and it is the first `max_events` of them met walking from the end of the listing, latest-listed thumbnail first |
| Recent.ScanSaturated | generate_missing_images_recent.py:93-94 | once the limit is reached, later blobs change nothing, which is what the break does |
| Recent.ScanFromTheEnd | generate_missing_images_recent.py:92 | the later-listed event is found first, and a limit of one keeps only it |
| Recent.GetRecentEventsNeedingImages | generate_missing_images_recent.py:77-122 | the loop method returns exactly the reverse-walk selection |
| Recent.LadderShape | generate_missing_images_recent.py:224-255 | the quality search makes `rank + 6` attempts per smaller scale, all JPEG of quality 50 to 95 within the size |
| Recent.ShrinkShape | generate_missing_images_recent.py:268-284 | the last search makes one quality-60 JPEG per scale above 0.2, within the size |
| Recent.ScheduleLength | generate_missing_images_recent.py:211-289 | 44 attempts in all |
| Recent.OptimizeWithinLimit | generate_missing_images_recent.py:211-289 | every result is within `max_size` and is the render of a scheduled attempt; a small enough level-9 PNG is kept first |
| Recent.UpscaleWithinLimit | generate_missing_images_recent.py:155-209 | the upscaled image is non-empty and never over 1 MiB |
| Recent.SearchLadder | generate_missing_images_recent.py:224-255 | the loop method equals the first-fit search over the quality ladder from 95 |
| Recent.SearchShrink | generate_missing_images_recent.py:268-284 | the loop method equals the first-fit search over the shrinking list from 0.7 |
| Recent.OptimizeImageSize | generate_missing_images_recent.py:211-289 | the method returns exactly the optimiser's result |
| Recent.UpscaleImage | generate_missing_images_recent.py:155-209 | the method returns exactly the upscale specification |
| Recent.ProcessWritesImage | generate_missing_images_recent.py:307-335 | a successful event writes an upscaled thumbnail of at most 1 MiB to `event_image.png`, labelled `image/png` whatever its format |
| Recent.RunAll | generate_missing_images_recent.py:337-375 | at most one success per event |
| Recent.RecentImageGenerator.constructor | generate_missing_images_recent.py:50-75 | counters start at zero |
| Recent.RecentImageGenerator.ProcessEvent | generate_missing_images_recent.py:307-335 | exactly one counter moves; the bucket changes only on success |
| Recent.RecentImageGenerator.GenerateMissingImages | generate_missing_images_recent.py:337-375 | the events processed are the reverse-walk selection over the bucket as it was; processing is in order and every event adds one to processed or errors |
| Simple.ScanTable | generate_missing_images_simple.py:87-103 | until the scan stops early, its dict is the classifier's |
| Simple.StepNeeding | generate_missing_images_simple.py:99-109 | below the limit one more blob adds exactly the candidate it contributes |
| Simple.ScanExact | generate_missing_images_simple.py:87-110 | the scan collects exactly the first `max_events` candidates in listing order |
| Simple.SimpleNeedingBounds | generate_missing_images_simple.py:75-117 | the selection holds at most `max_events` items, is a prefix of the unlimited candidate list, and below the limit is all of it |
| Simple.CollectedTwice | generate_missing_images_simple.py:101-109 | there is no de-duplication: an event with both thumbnail files is listed twice |
| Simple.ScanSaturated | generate_missing_images_simple.py:88-89 | once the limit is reached, later blobs change nothing |
| Simple.GetEventsNeedingImages | generate_missing_images_simple.py:75-117 | the loop method returns exactly the forward-walk selection |
| Simple.LadderShape | generate_missing_images_simple.py:219-250 | the quality search makes `rank + 5` attempts per smaller scale, all JPEG of quality 45 to 85 within the size |
| Simple.ShrinkShape | generate_missing_images_simple.py:252-270 | the second search makes one quality-70 JPEG per scale above 0.2, within the size |
| Simple.ScheduleLength | generate_missing_images_simple.py:206-274 | 36 attempts in all |
| Simple.OptimizeWithinLimit | generate_missing_images_simple.py:206-274 | every result is within `max_size` and is a scheduled attempt's render; a small enough level-9 PNG is kept first |
| Simple.UpscaleWithinLimit | generate_missing_images_simple.py:150-204 | the upscaled image is non-empty and never over 1 MiB |
| Simple.SearchLadder | generate_missing_images_simple.py:219-250 | the loop method equals the first-fit search over the ladder from 85 |
| Simple.SearchShrink | generate_missing_images_simple.py:252-270 | the loop method equals the first-fit search over the shrinking list from 0.6 |
| Simple.OptimizeImageSize | generate_missing_images_simple.py:206-274 | the method returns exactly the optimiser's result |
| Simple.UpscaleImage | generate_missing_images_simple.py:150-204 | the method returns exactly the upscale specification |
| Simple.ProcessWritesImage | generate_missing_images_simple.py:295-323 | a successful event writes an upscaled thumbnail of at most 1 MiB to `event_image.png`, labelled JPEG exactly when it starts with the JPEG marker |
| Simple.RunAll | generate_missing_images_simple.py:325-363 | at most one success per event |
| Simple.SimpleImageGenerator.constructor | generate_missing_images_simple.py:48-73 | counters start at zero |
| Simple.SimpleImageGenerator.ProcessEvent | generate_missing_images_simple.py:295-323 | exactly one counter moves; the bucket changes only on success |
| Simple.SimpleImageGenerator.GenerateMissingImages | generate_missing_images_simple.py:325-363 | the events processed are the forward-walk selection over the bucket as it was; processing is in order and every event adds one to processed or errors |
| Missing.Cutoff | generate_missing_images.py:82 | the cutoff is never after now |
| Missing.Choose | generate_missing_images.py:113-117 | a key is chosen exactly when it is recent, has a thumbnail and has no image |
| Missing.RecentFront | generate_missing_images.py:99-102 | a reload raises, or a recent thumbnail exists, exactly when it does in the front or at the last blob |
| Missing.RecentSetExact | generate_missing_images.py:92-102 | the scan raises exactly when some thumbnail's reload raises; otherwise the recent set is the events with a thumbnail created at or after the cutoff |
| Missing.ChooseOrder | generate_missing_images.py:113-117 | the chosen keys keep the key order and have no repeats |
| Missing.RecentSetRaisedSticks | generate_missing_images.py:99-100 | an exception in a prefix ends the scan |
| Missing.MissingNeedingExact | generate_missing_images.py:77-125 | with a raising reload the result is `[]`; otherwise it is, once each and in first-seen order, exactly the events with a recent thumbnail and no image blob |
| Missing.LongerLookBackWidens | generate_missing_images.py:82 | looking further back never drops an event |
| Missing.GroupRecent | generate_missing_images.py:89-110 | the loop method computes the recent set and, when no reload raised, the classifier's dict |
| Missing.SelectRecent | generate_missing_images.py:113-117 | the loop method computes exactly the chosen keys |
| Missing.GetEventsNeedingImages | generate_missing_images.py:77-125 | the method returns exactly the selection |
| Missing.MissingImageGenerator.constructor | generate_missing_images.py:50-75 | counters start at zero |
| Missing.MissingImageGenerator.ProcessEvent | generate_missing_images.py:217-245 | exactly one counter moves; the bucket changes only on success |
| Missing.MissingImageGenerator.GenerateMissingImages | generate_missing_images.py:247-285 | the events processed are the three-month selection; processing is in order and every event adds one to processed or errors |
| Limited.ThumbnailFront | generate_missing_images_limited.py:102-112 | a thumbnail blob dates, reloads at `t`, or fails to reload, exactly when it does in the front or at the last blob |
| Limited.RecordsExact | generate_missing_images_limited.py:91-112 | the dict has every named event once with the classifier's flags; a date is set exactly when some thumbnail gave one; a service date is one some thumbnail reported; a naive date is the 2020-01-01 fallback after a failed reload; and the date is the one given by the last such thumbnail blob listed |
| Limited.ReplayDate | generate_missing_images_limited.py:102-112 | replaying an event's blobs leaves the date of its last listed thumbnail blob whose reload raised or reported a time, or the starting date when there is none |
| Limited.LastListedDateWins | generate_missing_images_limited.py:102-112 | of two thumbnail blobs that both report a time, the one listed last gives the date |
| Limited.Pending | generate_missing_images_limited.py:115-117 | each pending entry is a wanted event with its recorded date |
| Limited.PendingIds | generate_missing_images_limited.py:115-117 | the pending ids are exactly the wanted keys in key order |
| Limited.Insert | generate_missing_images_limited.py:120 | one insertion adds one entry |
| Limited.SortNewestFirst | generate_missing_images_limited.py:120 | sorting keeps the length |
| Limited.InsertPermutes | generate_missing_images_limited.py:120 | an insertion adds exactly the new entry to the multiset |
| Limited.InsertOrdered | generate_missing_images_limited.py:120 | inserting into a newest-first list keeps it newest first |
| Limited.InsertStable | generate_missing_images_limited.py:120 | an insertion puts the new entry after the entries of its date that were already there |
| Limited.SortExact | generate_missing_images_limited.py:120 | `sort(key=date, reverse=True)` gives a newest-first permutation that keeps entries of equal date in their original order |
| Limited.SortOrdered | generate_missing_images_limited.py:120 | the sorted list is newest first |
| Limited.SortPermutes | generate_missing_images_limited.py:120 | the sorted list is a permutation of the input |
| Limited.SortStable | generate_missing_images_limited.py:120 | entries of equal date keep their relative order |
| Limited.SortKeeps | generate_missing_images_limited.py:120 | sorting keeps exactly the same entries, and keeps them free of repeats |
| Limited.PendingDistinct | generate_missing_images_limited.py:115-117 | over distinct keys each wanted key appears once, with its date |
| Limited.SortedCandidates | generate_missing_images_limited.py:115-120 | the sorted candidates are newest first, one per id, and are exactly the wanted events with their dates |
| Limited.TakeNewest | generate_missing_images_limited.py:119-121 | the slice holds at most `max_events` distinct wanted events, newest first; any wanted event left out is no newer than every selected one, and the slice is then full |
| Limited.SliceNewest | generate_missing_images_limited.py:121 | the same for any newest-first list of candidates |
| Limited.SelectExact | generate_missing_images_limited.py:77-133 | the selection holds at most `max_events` distinct events, each with a thumbnail, no image and a date, newest first; an event left out is no newer than every selected one, and the selection is then full |
| Limited.WantedQualifies | generate_missing_images_limited.py:116 | the dict test matches the listing-level condition |
| Limited.QualifiesMentioned | generate_missing_images_limited.py:97-98 | a qualifying event is a key of the dict |
| Limited.AsWrittenDiffers | generate_missing_images_limited.py:119-133 | the script agrees with the corrected selection unless both kinds of date are present; then it returns `[]` where the corrected one returns `min(pending, max_events)` events |
| Limited.MixedListingRecords | generate_missing_images_limited.py:104-112 | the two-event listing records a fallback date for one event and a service date for the other |
| Limited.MixedListingPending | generate_missing_images_limited.py:115-117 | both events of that listing are pending, so the dates are mixed |
| Limited.MixedDatesDropEverything | generate_missing_images_limited.py:120 | for that listing the script selects nothing, while the corrected selection returns both events, newest first |
| Limited.GroupDated | generate_missing_images_limited.py:91-112 | the grouping loop builds exactly the dated dict |
| Limited.PendingLoop | generate_missing_images_limited.py:115-117 | the selection loop builds exactly the pending list |
| Limited.GetEventsNeedingImages | generate_missing_images_limited.py:77-133 | the method returns exactly the corrected selection |
| Limited.LimitedImageGenerator.constructor | generate_missing_images_limited.py:50-75 | counters start at zero |
| Limited.LimitedImageGenerator.ProcessEvent | generate_missing_images_limited.py:225-253 | exactly one counter moves; the bucket changes only on success |
| Limited.LimitedImageGenerator.GenerateMissingImages | generate_missing_images_limited.py:255-293 | the events processed are the limited selection with the corrected date comparison (see Findings for the script as written); processing is in order and every event adds one to processed or errors |
| CheckThumbnail.ProbeAllExact | check_thumbnail.py:33-43 | the probes succeed exactly when no path is faulty; then there is one probe per path, in order, reporting the object and its size exactly when it exists |
| CheckThumbnail.FileLines | check_thumbnail.py:47-54 | one name-and-size line per file of the event folder |
| CheckThumbnail.CheckExact | check_thumbnail.py:10-96 | the run completes exactly when neither probe path is faulty and both listings succeed; the `.png` probe comes first; the preview shows at most ten of the events with an image and no thumbnail, and says whether there are more |
| CheckThumbnail.CheckThumbnailExists | check_thumbnail.py:10-96 | the method computes exactly that report |
| FullScan.ReplaySized | full_scan.py:35-48 | an event's record holds the classifier's flags and the sizes of its last image and last thumbnail blob |
| FullScan.SizedTableExact | full_scan.py:26-48 | the sized dict has the classifier's keys and flags, and each event records the size of the last blob of each role |
| FullScan.AbsentSizeIsZero | full_scan.py:39-40 | an event with no blob of a role reports size 0 for it |
| FullScan.Lines | full_scan.py:62-78 | one sample line per event, with its recorded sizes |
| FullScan.SampleLines | full_scan.py:62-78 | each sample line carries the last image and thumbnail sizes from the listing |
| FullScan.NeedSample | full_scan.py:62-68 | the first sample shows at most five events needing a thumbnail, in order, with a thumbnail size of 0 |
| FullScan.BothSample | full_scan.py:71-78 | the second sample shows at most three events with both, in order, with their sizes |
| FullScan.ReportExact | full_scan.py:26-78 | the report of one collection is the classifier's statistics plus both samples |
| FullScan.NeedHasNoThumbnail | full_scan.py:54 | an event needing a thumbnail reports thumbnail size 0 |
| FullScan.ScanCollectionsExact | full_scan.py:21-83 | the collections are reported in order, each from its own listing; the run fails exactly when some listing raises, and then stops at the first one |
| FullScan.ScanCollectionsPrefix | full_scan.py:21-83 | the reports are a prefix of the collections, and a failure names the collection after the last report |
| FullScan.ScanFailureSticks | full_scan.py:80-83 | a failure in a prefix of the collections is the run's outcome |
| FullScan.ScanCollection | full_scan.py:24-78 | the loop body computes exactly the collection's report |
| FullScan.FullScan | full_scan.py:10-83 | the method computes exactly the run's reports and failure flag |
| ScanEvents.ReplayListed | scan_events.py:29-45 | an event's record holds the classifier's flags and the filenames of its blobs, in listing order |
| ScanEvents.FilesAgreeWithFlags | scan_events.py:29-45 | an event's file list holds an image (thumbnail) name exactly when the listing names an image (thumbnail) blob for it |
| ScanEvents.ListedTableExact | scan_events.py:29-45 | the listed dict has the classifier's keys and flags, and each event keeps the filenames of its own blobs in order |
| ScanEvents.Lines | scan_events.py:70-84 | one sample line per event, with its filenames |
| ScanEvents.Names | scan_events.py:29-31 | one name per blob read, in order |
| ScanEvents.SampleLines | scan_events.py:70-84 | each sample line lists the filenames of its event's blobs |
| ScanEvents.NeedFiles | scan_events.py:70-76 | the filenames of an event needing a thumbnail hold an image name and no thumbnail name |
| ScanEvents.NeedSample | scan_events.py:70-76 | the first sample shows at most ten events needing a thumbnail, in order, with their filenames |
| ScanEvents.BothSample | scan_events.py:79-84 | the second sample shows at most five events with both, in order, with their filenames |
| ScanEvents.ScanExact | scan_events.py:24-61 | at most 50 blobs are read, so at most 50 events are counted; the first ten names are shown with the count of the rest; the statistics are the classifier's over the blobs read |
| ScanEvents.GroupFolder | scan_events.py:29-45 | the loop builds exactly the listed dict and the list of names read |
| ScanEvents.ScanFolder | scan_events.py:10-89 | the method computes exactly the run's report, or an error when the listing raises |

## Left out

- Credentials, the `__init__` client setup, `main()` and the command line are not modelled. The bucket and the listings are parameters.
- Logging and `print` output are not modelled.
  - The diagnostics are modelled by the values they print: counts, previews and samples.
  - Lines printed before an exception are not kept. A run that raises is `Raised`.
- The `ThreadPoolExecutor` in the generators is not modelled. Events are processed one after the other in selection order. The parallel schedule, its interleaving of counter updates, and the unordered completion of `as_completed` are not captured.
- The future's `except` branch in each generator's driver is not modelled, because `process_event` catches every exception itself.
- The imaging library is a parameter (`Imaging.Codec`): decoding, mode conversion, resampling, unsharp masking, sharpness and colour enhancement are not modelled. Only the requested format, quality, compression level and size of each save are.
- Float arithmetic:
  - Scale factors are modelled as exact tenths. The effective counts of the float loops (for example the scale that never quite reaches 0.3) are written into the attempt lists.
  - `int(x * scale)` is integer truncation of the exact product.
  - `aspect_ratio` is modelled by exact ratios of the integer sides.
- The `estimated_time` float of the counting script and the MB/KB float formatting of `full_scan.py` are not modelled.
- The `", ".join` text formatting of `scan_events.py` is modelled by the lists themselves.
- `check_thumbnail.py`: the `time_created` printed for each probe and the content type printed for each file of the event folder are not modelled. A probe reports the stored object's size and content type, and a folder line its name and size.
- Time zones are not modelled.
  - `generate_missing_images.py` compares `time_created` with its zone stripped against the local `datetime.now()`. Both are modelled as plain second counts, and `now` is a parameter.
  - The limited script compares service dates as UTC seconds.
- The number of blobs logged every 1000 in the counting script is not modelled (it is only a log line).
- The `skipped_count` counter is never incremented by the scripts; the model keeps it and proves it never moves.
- Thumbnails.RunAll, Recent.RunAll, Simple.RunAll, Upscaling.RunAllPng: their own ensures only bound the success count; what they compute is stated through the driver methods' ensures and the per-event lemmas.
- Limited.GetEventsNeedingImages: models the corrected comparison of dates rather than the script's `TypeError` on mixed dates; the behaviour as written is `Limited.SelectAsWritten` (see Findings).
- Limited.LimitedImageGenerator.GenerateMissingImages: processes the corrected selection, so on a listing that mixes the naive fallback date with service dates it processes events where the script, whose selection comes back empty, processes none (see Findings).

## Findings

| source | as written | input that shows it | evidently intended | confidence | as-written member | corrected member |
|---|---|---|---|---|---|---|
| generate_missing_images_limited.py:104-121 | a thumbnail whose `reload()` raises is dated with the naive `datetime(2020, 1, 1)`, while other thumbnails carry the service's zone-aware `time_created`; sorting a list holding both compares naive with aware datetimes, which raises `TypeError`, and the outer `except` returns `[]`, so one bad reload discards every event | `Limited.MixedListing`: two events with only a thumbnail each, the first thumbnail's reload raising and the second reporting a time | the fallback date sorts as an old date alongside the real ones, so the newest events are still selected | not executed | Limited.MixedDatesDropEverything | Limited.SelectExact |
