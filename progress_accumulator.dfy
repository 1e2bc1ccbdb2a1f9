/** buildProgress and the payload of setProgress: from a player report (track
    id and milliseconds into that track) back to an absolute position in
    seconds, and the record sent to the audiobook server. */
module ProgressAccumulator {
  import opened Options
  import opened Numbers
  import opened Library
  import opened PartIds
  import opened PositionResolver

  /** The player's progress report: `containerId`, `objectId` and
      `positionMillis` of the first reported item. */
  datatype ProgressUpdate = ProgressUpdate(libraryItemId: string, libraryItemIdAndFileName: string, positionMillis: real)

  /** Absolute position and book length, both in seconds. */
  datatype Progress = Progress(progress: real, bookDuration: real)

  /** The body of the progress PATCH. */
  datatype UpdateData = UpdateData(duration: real, currentTime: real, progress: JsNumber)

  /** `audioFile.ino == partId`; an undefined part id equals no ino. */
  predicate IsPart(file: AudioFile, partId: Option<string>)
  {
    partId == Some(file.ino)
  }

  /** How many parts the loop adds before it breaks: the index of the first
      part whose ino is `partId`, or all of them. */
  function PartsBefore(files: seq<AudioFile>, partId: Option<string>): (k: nat)
    ensures k <= |files|
    ensures forall j :: 0 <= j < k ==> !IsPart(files[j], partId)
    ensures k < |files| ==> IsPart(files[k], partId)
  {
    if files == [] then 0
    else if IsPart(files[0], partId) then 0
    else 1 + PartsBefore(files[1..], partId)
  }

  /** What buildProgress computes, in closed form: the reported offset in
      seconds plus the durations of the parts before the reported one, and the
      sum of all durations. `None` is the TypeError `reduce` throws on an empty
      array. With non-negative durations the position lies between the
      reported offset and the offset plus the whole book. */
  function Accumulate(files: seq<AudioFile>, update: ProgressUpdate): (r: Option<Progress>)
    ensures r.None? <==> files == []
    ensures r.Some? ==> r.value.bookDuration == Sum(Durations(files))
    ensures r.Some? && NonNegative(Durations(files)) ==>
              update.positionMillis / 1000.0 <= r.value.progress <= update.positionMillis / 1000.0 + r.value.bookDuration
  {
    if files == [] then None
    else
      var ds := Durations(files);
      var k := PartsBefore(files, PartIdOf(update.libraryItemIdAndFileName));
      PrefixSumBounds(ds, k);
      Some(Progress(update.positionMillis / 1000.0 + Sum(ds[..k]), Sum(ds)))
  }

  /** buildProgress: extract the part id, start from the offset in seconds,
      and add durations until the reported part is reached. */
  method BuildProgress(audioFiles: seq<AudioFile>, updateObject: ProgressUpdate)
    returns (res: Option<Progress>)
    ensures res == Accumulate(audioFiles, updateObject)
  {
    var partId := PartIdOf(updateObject.libraryItemIdAndFileName);
    if audioFiles == [] {
      // [].reduce without an initial value throws
      return None;
    }
    var durations := Durations(audioFiles);
    var progress := updateObject.positionMillis / 1000.0;
    var bookDuration := Sum(durations);
    var i := 0;
    while i < |audioFiles|
      invariant 0 <= i <= PartsBefore(audioFiles, partId)
      invariant progress == updateObject.positionMillis / 1000.0 + Sum(durations[..i])
    {
      if IsPart(audioFiles[i], partId) {
        break;
      }
      SumPrefixStep(durations, i);
      progress := progress + audioFiles[i].duration;
      i := i + 1;
    }
    res := Some(Progress(progress, bookDuration));
  }

  /** A report whose part id matches no ino is not rejected: every part's
      duration is added. */
  lemma UnknownPartAddsEveryPart(files: seq<AudioFile>, update: ProgressUpdate)
    requires files != []
    requires forall j :: 0 <= j < |files| ==> !IsPart(files[j], PartIdOf(update.libraryItemIdAndFileName))
    ensures Accumulate(files, update) == Some(Progress(update.positionMillis / 1000.0 + Sum(Durations(files)), Sum(Durations(files))))
  {
    assert Durations(files)[..|files|] == Durations(files);
  }

  /** A report on the track id the bridge built for part `k` adds exactly the
      durations of the parts before `k`, when inos are distinct and slash-free. */
  lemma AccumulateOnTrackId(files: seq<AudioFile>, k: nat, itemId: string, containerId: string, millis: real)
    requires k < |files|
    requires DistinctInos(files) && SlashFreeInos(files) && '/' !in itemId
    ensures Accumulate(files, ProgressUpdate(containerId, TrackId(itemId, files[k].ino), millis))
            == Some(Progress(millis / 1000.0 + Sum(Durations(files)[..k]), Sum(Durations(files))))
  {
    PartIdOfTrackId(itemId, files[k].ino);
    var n := PartsBefore(files, Some(files[k].ino));
    assert n == k;
  }

  /** The report the player sends back for a resolved part and offset: the
      bridge's track id for the part and the offset in milliseconds. */
  function ReportOf(itemId: string, containerId: string, p: PartProgress): ProgressUpdate
  {
    ProgressUpdate(containerId, TrackId(itemId, p.partName), p.relativeTimeForPart * 1000.0)
  }

  /** Reporting part `k` at an offset `t` minus the durations before `k`
      gives back `t`. */
  lemma ReportAtOffset(files: seq<AudioFile>, k: nat, t: real, p: PartProgress, itemId: string, containerId: string)
    requires k < |files|
    requires DistinctInos(files) && SlashFreeInos(files) && '/' !in itemId
    requires p.partName == files[k].ino && p.relativeTimeForPart == t - Sum(Durations(files)[..k])
    ensures Accumulate(files, ReportOf(itemId, containerId, p)) == Some(Progress(t, Sum(Durations(files))))
  {
    AccumulateOnTrackId(files, k, itemId, containerId, p.relativeTimeForPart * 1000.0);
  }

  /** Resolving a position and reporting the resolved part and offset back
      gives the position again. */
  lemma RoundTrip(files: seq<AudioFile>, t: real, itemId: string, containerId: string)
    requires DistinctInos(files) && SlashFreeInos(files) && '/' !in itemId
    requires 0.0 <= t < Sum(Durations(files))
    ensures Resolve(files, t).Some?
    ensures Accumulate(files, ReportOf(itemId, containerId, Resolve(files, t).value)) == Some(Progress(t, Sum(Durations(files))))
  {
    BeforeEndResolves(files, t);
    OffsetBounds(files, t);
    ReportAtOffset(files, SelectedPart(files, t), t, Resolve(files, t).value, itemId, containerId);
  }

  /** Durations 100 and 200: 50 seconds into the second part is 150 seconds
      into the book. */
  lemma SecondPartReport(a: AudioFile, b: AudioFile, itemId: string)
    requires a.duration == 100.0 && b.duration == 200.0
    requires a.ino != b.ino && '/' !in a.ino && '/' !in b.ino && '/' !in itemId
    ensures Accumulate([a, b], ProgressUpdate(itemId, TrackId(itemId, b.ino), 50000.0)) == Some(Progress(150.0, 300.0))
  {
    var files := [a, b];
    AccumulateOnTrackId(files, 1, itemId, itemId, 50000.0);
    var ds := Durations(files);
    assert ds[..0] == [] && ds[..2] == ds;
    SumPrefixStep(ds, 0);
    SumPrefixStep(ds, 1);
  }

  /** The PATCH body: the book duration, the absolute position, and their
      ratio, which is NaN or infinite for a book of zero duration. */
  function SetProgressPayload(p: Progress): (u: UpdateData)
    ensures u.duration == p.bookDuration && u.currentTime == p.progress
    ensures u.progress.Finite? <==> p.bookDuration != 0.0
    ensures u.progress.Finite? ==> u.progress.value * p.bookDuration == p.progress
  {
    UpdateData(p.bookDuration, p.progress,
      if p.bookDuration == 0.0 then NotFinite else Finite(p.progress / p.bookDuration))
  }

  /** A position within the book gives a progress ratio between 0 and 1. */
  lemma PayloadRatioInUnitRange(p: Progress)
    requires 0.0 <= p.progress <= p.bookDuration && p.bookDuration > 0.0
    ensures var r := SetProgressPayload(p).progress;
            r.Finite? && 0.0 <= r.value <= 1.0
  {
  }
}
