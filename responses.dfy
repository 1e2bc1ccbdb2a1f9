/** The player-facing records: the media URI, the library listing and the
    track list of one book with its resume position. */
module Responses {
  import opened Options
  import opened Numbers
  import opened Library
  import opened PartIds
  import opened PositionResolver

  /** `{ getMediaURIResult: path }` */
  datatype MediaUri = MediaUri(getMediaURIResult: string)

  /** One entry of the library listing's `mediaCollection`. */
  datatype MediaCollectionEntry = MediaCollectionEntry(
    itemType: string, id: string, canPlay: bool, canResume: bool, title: string, summary: string)

  /** The listing's `getMetadataResult`. */
  datatype LibraryMetadataResult = LibraryMetadataResult(
    count: int, total: int, index: int, mediaCollection: seq<MediaCollectionEntry>)

  datatype TrackMetadata = TrackMetadata(
    authorId: string, author: string, duration: real, book: string,
    albumArtURI: string, canPlay: bool, canAddToFavorites: bool)

  /** One entry of the track list's `mediaMetadata`. */
  datatype TrackEntry = TrackEntry(
    id: string, itemType: string, title: string, mimeType: string, trackMetadata: TrackMetadata)

  /** `{}` when there is no progress, otherwise where to resume. */
  datatype PositionInformation = NoPosition | Position(id: string, index: int, offsetMillis: JsNumber)

  /** The track list's `getMetadataResult`. */
  datatype TrackListResult = TrackListResult(
    count: int, total: int, index: int,
    positionInformation: PositionInformation, mediaMetadata: seq<TrackEntry>)

  function MediaUriPrefix(cfg: Config): string
  {
    cfg.absUri + "/api/items/"
  }

  function MediaUriSuffix(cfg: Config): string
  {
    "?token=" + cfg.absToken
  }

  /** The item id a media URI was built for, if it has the shape of one. */
  function MediaItemId(cfg: Config, uri: string): Option<string>
  {
    var prefix, suffix := MediaUriPrefix(cfg), MediaUriSuffix(cfg);
    if |prefix| + |suffix| <= |uri| && uri[..|prefix|] == prefix && uri[|uri| - |suffix|..] == suffix
    then Some(uri[|prefix|..|uri| - |suffix|])
    else None
  }

  /** buildMediaURI: the item's URL on the server, carrying the token; the item
      id can be read back from it. */
  function BuildMediaURI(cfg: Config, id: string): (r: MediaUri)
    ensures MediaItemId(cfg, r.getMediaURIResult) == Some(id)
  {
    var path := MediaUriPrefix(cfg) + id + MediaUriSuffix(cfg);
    var prefix, suffix := MediaUriPrefix(cfg), MediaUriSuffix(cfg);
    assert path[..|prefix|] == prefix;
    assert path[|path| - |suffix|..] == suffix;
    assert path[|prefix|..|path| - |suffix|] == id;
    MediaUri(path)
  }

  /** The listing entry for one book: playable and resumable, with the book's
      id, title and description. */
  function LibraryEntry(item: LibraryItem): (r: MediaCollectionEntry)
    ensures r.itemType == "audiobook" && r.canPlay && r.canResume
    ensures r.id == item.id && r.title == item.title && r.summary == item.description
  {
    MediaCollectionEntry("audiobook", item.id, true, true, item.title, item.description)
  }

  /** `r` is the listing of `res`: one entry per result, in order; `count`
      and `total` both echo the server's `total` and `index` is 0. */
  predicate IsLibraryListing(res: LibraryItemsPage, r: LibraryMetadataResult)
  {
    r.count == res.total && r.total == res.total && r.index == 0 &&
    |r.mediaCollection| == |res.results| &&
    forall j :: 0 <= j < |res.results| ==> r.mediaCollection[j] == LibraryEntry(res.results[j])
  }

  /** buildLibraryMetadataResult: the listing of the page as the server sent
      it; nothing is sorted or sliced. */
  method BuildLibraryMetadataResult(res: LibraryItemsPage) returns (r: LibraryMetadataResult)
    ensures IsLibraryListing(res, r)
    ensures forall j :: 0 <= j < |res.results| ==>
              r.mediaCollection[j].id == res.results[j].id && r.mediaCollection[j].title == res.results[j].title
  {
    var libraryItems := res.results;
    var count := res.total;
    var total := count;
    var mediaMetadata: seq<MediaCollectionEntry> := [];
    for i := 0 to |libraryItems|
      invariant |mediaMetadata| == i
      invariant forall j :: 0 <= j < i ==> mediaMetadata[j] == LibraryEntry(libraryItems[j])
    {
      mediaMetadata := mediaMetadata + [LibraryEntry(libraryItems[i])];
    }
    r := LibraryMetadataResult(count, total, 0, mediaMetadata);
  }

  function AlbumArtUri(cfg: Config, item: LibraryItem): string
  {
    cfg.absUri + item.coverPath + "?token=" + cfg.absToken
  }

  /** The entry for one track; reading `authors[0]` needs an author. The
      part id a progress report takes out of the entry's id is the track's
      ino, when neither id contains a slash. */
  function TrackEntryOf(cfg: Config, item: LibraryItem, track: AudioFile): (r: TrackEntry)
    requires |item.authors| > 0
    ensures r.id == TrackId(item.mediaLibraryItemId, track.ino) && r.itemType == "track"
    ensures r.title == track.filename && r.mimeType == track.mimeType
    ensures r.trackMetadata.duration == track.duration && r.trackMetadata.book == item.title
    ensures r.trackMetadata.authorId == item.authors[0].id && r.trackMetadata.author == item.authors[0].name
    ensures '/' !in item.mediaLibraryItemId && '/' !in track.ino ==> PartIdOf(r.id) == Some(track.ino)
  {
    var entry := TrackEntry(
      TrackId(item.mediaLibraryItemId, track.ino), "track", track.filename, track.mimeType,
      TrackMetadata(item.authors[0].id, item.authors[0].name, track.duration, item.title,
        AlbumArtUri(cfg, item), true, false));
    if '/' !in item.mediaLibraryItemId && '/' !in track.ino then
      PartIdOfTrackId(item.mediaLibraryItemId, track.ino);
      entry
    else
      entry
  }

  /** The resume position: none without progress data, otherwise the resolved
      track's id and the offset rounded to whole milliseconds, which is NaN
      exactly when the resolved offset is. */
  function PositionInformationOf(itemId: string, progressData: Option<RawPartProgress>): (r: PositionInformation)
    ensures r.NoPosition? <==> progressData.None?
    ensures progressData.Some? ==>
              r.id == TrackId(itemId, progressData.value.partName) && r.index == 0 &&
              (r.offsetMillis.Finite? <==> progressData.value.relativeTimeForPart.Finite?)
    ensures progressData.Some? && r.offsetMillis.Finite? ==>
              r.offsetMillis.value == r.offsetMillis.value.Floor as real &&
              progressData.value.relativeTimeForPart.value * 1000.0 - 0.5 < r.offsetMillis.value <=
              progressData.value.relativeTimeForPart.value * 1000.0 + 0.5
  {
    match progressData
    case None => NoPosition
    case Some(p) =>
      var millis := match p.relativeTimeForPart
        case NotFinite => NotFinite
        case Finite(v) => Finite(v * 1000.0);
      Position(TrackId(itemId, p.partName), 0, RoundNumber(millis))
  }

  /** `r` is the track list of `item`: one entry per audio file, in order;
      `count` and `total` are the number of files, `index` is 0, and the
      resume position is built from `progressData`. */
  predicate IsTrackList(cfg: Config, item: LibraryItem, progressData: Option<RawPartProgress>, r: TrackListResult)
  {
    var tracks := item.audioFiles;
    r.count == |tracks| && r.total == |tracks| && r.index == 0 &&
    r.positionInformation == PositionInformationOf(item.id, progressData) &&
    |r.mediaMetadata| == |tracks| &&
    (|tracks| > 0 ==> |item.authors| > 0) &&
    forall j :: 0 <= j < |tracks| ==> r.mediaMetadata[j] == TrackEntryOf(cfg, item, tracks[j])
  }

  /** buildAudiobookTrackList: one entry per audio file, in order, each with
      the id `${media.libraryItemId}/file/${ino}`; `count` and `total` are the
      number of files and `index` is 0. `None` is the TypeError thrown when
      there are files but no author. */
  method BuildAudiobookTrackList(cfg: Config, libraryItem: LibraryItem, progressData: Option<RawPartProgress>)
    returns (r: Option<TrackListResult>)
    ensures r.None? <==> |libraryItem.audioFiles| > 0 && |libraryItem.authors| == 0
    ensures r.Some? ==> IsTrackList(cfg, libraryItem, progressData, r.value)
    ensures r.Some? ==>
              forall j :: 0 <= j < |libraryItem.audioFiles| ==>
                r.value.mediaMetadata[j].id == TrackId(libraryItem.mediaLibraryItemId, libraryItem.audioFiles[j].ino) &&
                r.value.mediaMetadata[j].trackMetadata.duration == libraryItem.audioFiles[j].duration
  {
    var tracks := libraryItem.audioFiles;
    var icount := |tracks|;
    var itotal := |tracks|;
    var imediaMetadata: seq<TrackEntry> := [];
    for i := 0 to |tracks|
      invariant |libraryItem.authors| > 0 || i == 0
      invariant |imediaMetadata| == i
      invariant forall j :: 0 <= j < i ==> imediaMetadata[j] == TrackEntryOf(cfg, libraryItem, tracks[j])
    {
      if |libraryItem.authors| == 0 {
        // authors[0] is undefined and reading its `id` throws
        return None;
      }
      imediaMetadata := imediaMetadata + [TrackEntryOf(cfg, libraryItem, tracks[i])];
    }
    var positionInformation := PositionInformationOf(libraryItem.id, progressData);
    r := Some(TrackListResult(icount, itotal, 0, positionInformation, imediaMetadata));
  }
}
