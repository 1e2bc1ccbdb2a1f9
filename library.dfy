/** The objects the audiobook server hands over, reduced to the fields the
    bridge reads. */
module Library {

  /** The server's base URI and API token, read once from the environment. */
  datatype Config = Config(absUri: string, absToken: string)

  /** One audio file of a book (`media.audioFiles[i]`); `ino` is its
      file-system id as a string, `duration` is in seconds. */
  datatype AudioFile = AudioFile(ino: string, duration: real, filename: string, mimeType: string)

  datatype Author = Author(id: string, name: string)

  /** A library item (`id`) with the fields of its `media` the bridge reads;
      `mediaLibraryItemId` is `media.libraryItemId`. */
  datatype LibraryItem = LibraryItem(
    id: string,
    mediaLibraryItemId: string,
    title: string,
    description: string,
    coverPath: string,
    authors: seq<Author>,
    audioFiles: seq<AudioFile>)

  /** The body of the library-items listing: its `results` and `total`. */
  datatype LibraryItemsPage = LibraryItemsPage(results: seq<LibraryItem>, total: int)

  /** `audioFiles.map((x) => x.duration)` */
  function Durations(files: seq<AudioFile>): (ds: seq<real>)
    ensures |ds| == |files|
    ensures forall i :: 0 <= i < |files| ==> ds[i] == files[i].duration
  {
    seq(|files|, i requires 0 <= i < |files| => files[i].duration)
  }

  predicate DistinctInos(files: seq<AudioFile>)
  {
    forall i, j :: 0 <= i < j < |files| ==> files[i].ino != files[j].ino
  }

  predicate SlashFreeInos(files: seq<AudioFile>)
  {
    forall i :: 0 <= i < |files| ==> '/' !in files[i].ino
  }
}
