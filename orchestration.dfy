/** getMetadataResult and updateAudioBookshelfProgress, over values already
    fetched from the audiobook server. A fetch whose error was swallowed is
    `None` (the source's `undefined`); a result of `None` is an exception. */
module Orchestration {
  import opened Options
  import opened Numbers
  import opened Library
  import opened PartIds
  import opened PositionResolver
  import opened ProgressAccumulator
  import opened Responses

  datatype MetadataResult = LibraryListing(listing: LibraryMetadataResult) | TrackListing(tracks: TrackListResult)

  /** The progress data getMetadataResult builds the track list with: none
      without a stored position, otherwise what partNameAndRelativeProgress
      returns, or a failure past the end. */
  function ProgressDataOf(item: LibraryItem, currentTime: Option<real>): (r: Option<Option<RawPartProgress>>)
    ensures currentTime.None? ==> r == Some(None)
    ensures currentTime.Some? ==>
              (r.None? <==> ResolveAsWritten(item.audioFiles, currentTime.value).None?) &&
              (r.Some? ==> r.value == ResolveAsWritten(item.audioFiles, currentTime.value))
  {
    match currentTime
    case None => Some(None)
    case Some(t) =>
      match ResolveAsWritten(item.audioFiles, t)
      case None => None
      case Some(p) => Some(Some(p))
  }

  /** getMetadataResult: the library listing for "root", otherwise the track
      list of the requested book with its resume position. `libraryItems`,
      `libraryItem` and `currentTime` stand for the three fetches. */
  method GetMetadataResult(
    cfg: Config, libraryItemId: string,
    libraryItems: Option<LibraryItemsPage>, libraryItem: Option<LibraryItem>, currentTime: Option<real>)
    returns (r: Option<MetadataResult>)
    ensures libraryItemId == "root" ==>
              (r.Some? <==> libraryItems.Some?) &&
              (r.Some? ==> r.value.LibraryListing? && IsLibraryListing(libraryItems.value, r.value.listing))
    ensures libraryItemId != "root" ==>
              (r.Some? <==>
                 libraryItem.Some? && ProgressDataOf(libraryItem.value, currentTime).Some? &&
                 (|libraryItem.value.audioFiles| > 0 ==> |libraryItem.value.authors| > 0)) &&
              (r.Some? ==> r.value.TrackListing? &&
                           IsTrackList(cfg, libraryItem.value, ProgressDataOf(libraryItem.value, currentTime).value, r.value.tracks))
  {
    if libraryItemId == "root" {
      if libraryItems.None? {
        // res.results on undefined throws
        return None;
      }
      var listing := BuildLibraryMetadataResult(libraryItems.value);
      return Some(LibraryListing(listing));
    }
    if libraryItem.None? {
      // libraryItem.media on undefined throws, in the resolver or the builder
      return None;
    }
    var item := libraryItem.value;
    var progressData: Option<RawPartProgress> := None;
    if currentTime.Some? {
      progressData := PartNameAndRelativeProgress(currentTime.value, item.audioFiles);
      if progressData.None? {
        // past the end: audioFiles[-1].ino throws
        return None;
      }
    }
    var tracks := BuildAudiobookTrackList(cfg, item, progressData);
    if tracks.None? {
      return None;
    }
    r := Some(TrackListing(tracks.value));
  }

  /** A stored position in the first file of a book whose first file has a
      duration resumes at a NaN offset: every position of a one-file book
      does. */
  lemma FirstPartResumeIsNaN(item: LibraryItem, t: real)
    requires item.audioFiles != [] && 0.0 <= t < item.audioFiles[0].duration
    ensures ProgressDataOf(item, Some(t)).Some?
    ensures var pos := PositionInformationOf(item.id, ProgressDataOf(item, Some(t)).value);
            pos == Position(TrackId(item.id, item.audioFiles[0].ino), 0, NotFinite)
  {
    var ds := Durations(item.audioFiles);
    assert ds[..1] == [ds[0]];
    assert ds[..0] == [];
    SumPrefixStep(ds, 0);
    RunningSumsAt(ds, 0);
    assert IsFirstAbove(RunningSums(ds), t, 0);
    FirstAboveUnique(RunningSums(ds), t, 0);
  }

  /** The progress data built with the corrected resolver, where a position in
      the first file resolves to the position itself. */
  function CorrectedProgressDataOf(item: LibraryItem, currentTime: Option<real>): (r: Option<Option<RawPartProgress>>)
    ensures currentTime.None? ==> r == Some(None)
    ensures currentTime.Some? && 0.0 <= currentTime.value && SelectedPart(item.audioFiles, currentTime.value) != 0 ==>
              r == ProgressDataOf(item, currentTime)
    ensures currentTime.Some? && 0.0 <= currentTime.value && SelectedPart(item.audioFiles, currentTime.value) == 0 ==>
              r == Some(Some(RawPartProgress(item.audioFiles[0].ino, Finite(currentTime.value))))
  {
    match currentTime
    case None => Some(None)
    case Some(t) =>
      var resolved := Resolve(item.audioFiles, t);
      var data := if resolved.None? then None
                  else Some(Some(RawPartProgress(resolved.value.partName, Finite(resolved.value.relativeTimeForPart))));
      if 0.0 <= t then
        AsWrittenVersusCorrected(item.audioFiles, t);
        data
      else
        data
  }

  /** updateAudioBookshelfProgress: the body it PATCHes to the server, or
      `None` when the book is missing or has no audio files. */
  method UpdateAudioBookshelfProgress(libraryItem: Option<LibraryItem>, updateObject: ProgressUpdate)
    returns (r: Option<UpdateData>)
    ensures r.Some? <==> libraryItem.Some? && libraryItem.value.audioFiles != []
    ensures r.Some? ==>
              r.value == SetProgressPayload(Accumulate(libraryItem.value.audioFiles, updateObject).value)
  {
    if libraryItem.None? {
      return None;
    }
    var progress := BuildProgress(libraryItem.value.audioFiles, updateObject);
    if progress.None? {
      return None;
    }
    r := Some(SetProgressPayload(progress.value));
  }

  /** The full cycle, with the corrected resolver: the bridge resolves a
      stored position into the track list's resume position; the player
      reports that track id and offset back; the reported position is the
      stored one to within the half millisecond lost in rounding. */
  lemma ResumeThenReport(item: LibraryItem, t: real)
    requires DistinctInos(item.audioFiles) && SlashFreeInos(item.audioFiles) && '/' !in item.id
    requires 0.0 <= t < Sum(Durations(item.audioFiles))
    ensures CorrectedProgressDataOf(item, Some(t)).Some?
    ensures var pos := PositionInformationOf(item.id, CorrectedProgressDataOf(item, Some(t)).value);
            pos.Position? && pos.offsetMillis.Finite? &&
            var back := Accumulate(item.audioFiles, ProgressUpdate(item.id, pos.id, pos.offsetMillis.value));
            back.Some? &&
            back.value.bookDuration == Sum(Durations(item.audioFiles)) &&
            Abs(back.value.progress - t) <= 0.0005
  {
    var files := item.audioFiles;
    BeforeEndResolves(files, t);
    OffsetBounds(files, t);
    var k := SelectedPart(files, t);
    var p := Resolve(files, t).value;
    var pos := PositionInformationOf(item.id, Some(RawPartProgress(p.partName, Finite(p.relativeTimeForPart))));
    AccumulateOnTrackId(files, k, item.id, item.id, pos.offsetMillis.value);
  }
}
