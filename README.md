# audiobookshelf-sonos: position conversion and catalog responses

This project models `utils.js` of the bridge between an Audiobookshelf server
and a Sonos player. The server stores one absolute position per book, in
seconds. The player resumes and reports progress as a track id plus
milliseconds into that track. The model covers:

- **The position resolver** (`partNameAndRelativeProgress`). It builds the
  running sums of the audio files' durations and picks the first file whose
  running sum is strictly greater than the position. It returns that file's
  `ino` and the offset into it.
- **The progress accumulator** (`buildProgress`). It takes the part id out of
  `ITEM-ID/file/INO` with `split("/")[2]`. It adds the reported offset to the
  durations of every file before the first file with that `ino`. It also
  computes the book's total duration. The PATCH body built from the result
  (`setProgress`, lines 69-73) is modelled too.
- **The response builders**: the media URI, the library listing and a
  book's track list with its resume position.
- **The two entry points** `getMetadataResult` and
  `updateAudioBookshelfProgress`. They are composed over values that were
  already fetched.

Time is a Dafny `real` number of seconds, and `Math.round` is modelled
exactly as `floor(x + 0.5)`. A JavaScript number that can become NaN is a
`JsNumber` (`Finite(v)` or `NotFinite`). A thrown TypeError is the `None` of
an `Option`. This covers `audioFiles[-1].ino` past the end, `reduce` on an
empty array, and `authors[0].id` on a book with no authors.

Modules, one per component: `Options`, `Numbers` (sums, Math.abs,
Math.round), `Library` (the server's records), `PartIds` (track ids and
`split`), `PositionResolver`, `ProgressAccumulator`, `Responses`,
`Orchestration`.

What the code does at the edges, as the model states it:

- The listing is not sorted or paged. `count` and `total` both echo the
  server's `total`, and `index` is always 0.
- A report whose part id matches no file is not a NotFound error. It adds
  every file's duration (`UnknownPartAddsEveryPart`).
- A position at or past the end is not clamped to the last part. The lookup
  `audioFiles[-1].ino` throws (`PastEnd`, and `None` in
  `PartNameAndRelativeProgress`).
- The selection rule holds for any durations, because `indexOf` finds the
  same first index even when the sums are not ordered. Any position from 0 up
  to the total falls in some part, and the round trip holds, whatever the
  signs of the durations. Non-negative durations are needed only for "past
  the end exactly when the position is at least the total", for the boundary
  rule and for the bounds on an accumulated position.
- A stored position in the first file resumes at a NaN `offsetMillis` (see
  Findings). `GetMetadataResult` returns it as the code does
  (`FirstPartResumeIsNaN`).

## Model

| member | source | states |
|---|---|---|
| `Numbers.Abs` | utils.js:226 | Math.abs gives a non-negative number equal to its argument or to its negation |
| `Numbers.Round` | utils.js:169 | Math.round gives an integer within half a unit of its argument |
| `Numbers.RoundNumber` | utils.js:169 | Math.round on any number: NaN stays NaN, and a finite number becomes an integer within half a unit of it |
| `Library.Durations` | utils.js:192 | `audioFiles.map((x) => x.duration)` has one entry per file, the file's duration |
| `Numbers.RunningSumsAt` | utils.js:194-205 | entry i of the running sums is the sum of the first i+1 durations |
| `Numbers.SumPrefixMonotone` | utils.js:202-205 | with non-negative durations a longer prefix has a sum at least as large |
| `PartIds.Split` | utils.js:233 | `split("/")` gives at least one piece and no piece contains a slash |
| `PartIds.JoinSplit` | utils.js:233 | joining the pieces of a split with "/" gives back the string |
| `PartIds.SplitJoin` | utils.js:233 | splitting a join of slash-free pieces gives back the pieces |
| `PartIds.PartIdOf` | utils.js:233 | `split("/")[2]`, undefined when there are fewer than three pieces, and never contains a slash |
| `PartIds.TrackId` | utils.js:140 | the id `${itemId}/file/${ino}` is the three pieces item id, "file" and ino joined with "/" |
| `PartIds.PartIdOfTrackId` | utils.js:140 | for slash-free A and B, `split("/")[2]` of `${A}/file/${B}` (ids built at lines 140 and 165) is B |
| `PositionResolver.FirstAbove` | utils.js:207-213 | the search stops at the first index whose running sum is strictly greater than the time, and finds none exactly when every sum is at most the time |
| `PositionResolver.IndexOf` | utils.js:215 | `indexOf` returns the first index holding the value, or -1, and never finds `undefined` |
| `PositionResolver.FirstAboveUnique` | utils.js:207-213 | the selection rule determines one index, the one the search stops at |
| `PositionResolver.IndexOfFindsFirstAbove` | utils.js:207-215 | `indexOf` of the sum the search stopped at returns the index the search stopped at |
| `PositionResolver.Resolve` | utils.js:188-229 | the corrected resolver names the file of the first running sum strictly greater than the time, and finds none exactly when no running sum exceeds the time |
| `PositionResolver.ResolveAsWritten` | utils.js:188-229 | the as-written resolver names the same file, throws exactly when no running sum exceeds the time, and gives a NaN offset exactly when the file is the first one and its duration is not 0 |
| `PositionResolver.PartNameAndRelativeProgress` | utils.js:188-229 | the three loops compute exactly the as-written resolution, and throw exactly when no running sum exceeds the time |
| `PositionResolver.OffsetBounds` | utils.js:223-226 | for a non-negative time the selected part has positive duration, and the offset is the time minus the earlier durations and lies in [0, duration) |
| `PositionResolver.BeforeEndResolves` | utils.js:202-222 | any position from 0 up to the total duration, whatever the signs of the durations, falls in some part, for both resolvers |
| `PositionResolver.PastEnd` | utils.js:207-222 | with non-negative durations no part is selected exactly when the time is at least the total duration |
| `PositionResolver.BoundaryGoesToLaterPart` | utils.js:209 | a time exactly at the end of part i resolves to a later part or to none |
| `PositionResolver.AsWrittenVersusCorrected` | utils.js:223-226 | the as-written resolver agrees with the corrected one after the first part; on the first part it gives NaN where the corrected one gives the time |
| `PositionResolver.FirstPartOffsetIsNaN` | utils.js:226 | durations 100, 200 and time 50 give NaN as written, 50 corrected |
| `PositionResolver.SecondPartScenario` | utils.js:188-229 | durations 100, 200 and time 150 resolve to the second part at offset 50 |
| `PositionResolver.ZeroDurationPartSkipped` | utils.js:207-213 | durations 10, 15, 0, 15 and time 25 resolve to index 3 at offset 0, past the zero-duration part |
| `ProgressAccumulator.PartsBefore` | utils.js:247-253 | the loop breaks at the first file whose ino equals the part id, or runs through all files |
| `ProgressAccumulator.Accumulate` | utils.js:231-259 | buildProgress in closed form: it throws exactly on an empty file list, the book duration is the sum of all durations, and with non-negative durations the position lies between the reported offset and the offset plus the book duration |
| `ProgressAccumulator.BuildProgress` | utils.js:231-259 | the result is the offset in seconds plus the durations before the reported part, with the total duration; it throws on an empty file list |
| `ProgressAccumulator.UnknownPartAddsEveryPart` | utils.js:247-256 | an unmatched part id adds every file's duration rather than failing |
| `ProgressAccumulator.AccumulateOnTrackId` | utils.js:233-256 | a report on the track id built for part k adds exactly the durations of parts before k, for distinct slash-free inos |
| `ProgressAccumulator.ReportAtOffset` | utils.js:240-256 | reporting part k at an offset of t minus the durations before k gives back t |
| `ProgressAccumulator.RoundTrip` | utils.js:188-259 | for 0 <= t < total and distinct slash-free inos, reporting the resolved part's track id and its offset in milliseconds gives back t and the total duration |
| `ProgressAccumulator.SecondPartReport` | utils.js:240-256 | 50000 ms into the second of parts 100 and 200 is 150 seconds |
| `ProgressAccumulator.SetProgressPayload` | utils.js:69-73 | the PATCH body carries the duration and the position, and its ratio is finite exactly when the duration is non-zero and then times the duration gives the position |
| `ProgressAccumulator.PayloadRatioInUnitRange` | utils.js:72 | a position within a book of positive length gives a ratio in [0, 1] |
| `Responses.BuildMediaURI` | utils.js:84-91 | the item id can be read back from the URI between the items path and the token |
| `Responses.LibraryEntry` | utils.js:101-114 | a listing entry is a playable, resumable audiobook with the book's id, title and description |
| `Responses.BuildLibraryMetadataResult` | utils.js:93-130 | one entry per result, in order, with id and title copied; count and total equal the server's total; index is 0 |
| `Responses.TrackEntryOf` | utils.js:139-155 | a track entry carries the `/file/` track id, the file's name, type and duration, the book's title and its first author; the part id a report takes out of that track id is the file's ino |
| `Responses.PositionInformationOf` | utils.js:160-175 | `{}` exactly when there is no progress data, otherwise the part's track id, index 0, and an offset that is NaN exactly when the resolved offset is, and otherwise a whole number of milliseconds more than x - 0.5 and at most x + 0.5, where x is the offset in seconds times 1000, so a half rounds up |
| `Responses.BuildAudiobookTrackList` | utils.js:132-186 | one entry per audio file, in order, with the `/file/` track id and duration; count and total are the number of files; index 0; throws exactly when there are files but no author |
| `Orchestration.ProgressDataOf` | utils.js:274-280 | no progress data without a stored position, otherwise exactly what the as-written resolver returns, and a throw where it throws |
| `Orchestration.GetMetadataResult` | utils.js:267-285 | "root" gives the listing of the fetched page entry by entry unless the fetch failed; otherwise the full track list of the book, entry by entry, with the resume position from the as-written resolver, failing exactly on a missing book, a position past the end or a missing author |
| `Orchestration.FirstPartResumeIsNaN` | utils.js:169 | a stored position inside the first file of a book resumes at that file with a NaN offset, so every position of a one-file book does |
| `Orchestration.CorrectedProgressDataOf` | utils.js:274-280 | with the corrected resolver there is no progress data without a stored position, and otherwise the data agrees with the as-written one except in the first file, where the offset is the position itself |
| `Orchestration.UpdateAudioBookshelfProgress` | utils.js:287-295 | the PATCH body is the payload of the accumulated progress, and there is none for a missing book or an empty file list |
| `Orchestration.ResumeThenReport` | utils.js:160-170 | with the corrected resolver, resume position then report back gives the stored position to within 0.0005 seconds, with the book's total duration |

## Findings

| source | as written | input that shows it | evidently intended | confidence | as-written member | corrected member |
|---|---|---|---|---|---|---|
| utils.js:226 | for the first part (`closestIndex == 0`) the offset reads `newDurationSums[-1]`, which is `undefined`, so `Math.abs(currentTime - undefined)` is NaN, and the resume `offsetMillis` becomes `Math.round(NaN)` | durations [100, 200], currentTime 50 | the sum of earlier parts is 0 for the first part, so the offset is the time itself (the comment at utils.js:189-190 says "how far along it we are") | not executed | `PositionResolver.FirstPartOffsetIsNaN` | `PositionResolver.OffsetBounds` |

The as-written resolver is `PositionResolver.ResolveAsWritten`, which the
method `PartNameAndRelativeProgress` computes. The entry point
`GetMetadataResult` calls that method, as the code does, so its resume offset
is NaN for a position in the first file (`FirstPartResumeIsNaN`). The
corrected resolver is `PositionResolver.Resolve`. `OffsetBounds` and
`RoundTrip` are proved about it, and `CorrectedProgressDataOf` and
`ResumeThenReport` compose it into the resume-and-report cycle.

## Left out

- Network calls `getLibraryItems`, `getLibraryItem`, `getABSProgress` and the PATCH in `setProgress` (utils.js:10-81): HTTP I/O that logs and swallows errors. Their results are parameters (`None` for a swallowed error), and the PATCH body is `SetProgressPayload`.
- `getMediaURI` (utils.js:262-265): it only returns `buildMediaURI(id)`, so `BuildMediaURI` models it.
- Logging calls throughout: console output, no effect on results.
- server.js, sonos-service.js, logger.js, config.js: transport, SOAP dispatch, logging and configuration. The base URI and token are a `Config` parameter.
- Floating point: durations, division by 1000 and Math.round are exact real arithmetic. The model does not see binary rounding error.
- The `{ getMetadataResult: … }` wrapper object around both results. The model returns the inner record.
- Display fields that are only copied through (`summary`, `mimeType`, `albumArtURI`, author names) are carried without further properties.
- The `try`/`catch` around the resume position (utils.js:163-174): with progress data present nothing in it can throw, so it is not modelled.
- Missing nested fields (`libraryItem.media` or `metadata` undefined on a book that does exist) are not modelled: the records always hold them.
- In the library listing, `count` equals the number of entries only when the server returned the whole library (`total == results.length`). The model states what the code does, which is echo `total`.
