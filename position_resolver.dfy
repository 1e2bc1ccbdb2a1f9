/** partNameAndRelativeProgress: from an absolute position in a book, in
    seconds, to the audio file it falls in and the offset into that file. */
module PositionResolver {
  import opened Options
  import opened Numbers
  import opened Library

  /** The resolved part and the offset into it, in seconds. */
  datatype PartProgress = PartProgress(partName: string, relativeTimeForPart: real)

  /** The same record with the offset as the JavaScript computes it, which can
      come out as NaN. */
  datatype RawPartProgress = RawPartProgress(partName: string, relativeTimeForPart: JsNumber)

  /** The selection rule: `k` is the first index whose running sum is strictly
      greater than `t`. */
  predicate IsFirstAbove(sums: seq<real>, t: real, k: int)
  {
    0 <= k < |sums| && sums[k] > t && forall j :: 0 <= j < k ==> sums[j] <= t
  }

  /** The index the search loop stops at, or -1 when it runs to the end. */
  function FirstAbove(sums: seq<real>, t: real): (k: int)
    ensures -1 <= k < |sums|
    ensures k == -1 <==> forall j :: 0 <= j < |sums| ==> sums[j] <= t
    ensures k != -1 ==> IsFirstAbove(sums, t, k)
  {
    if sums == [] then -1
    else if sums[0] > t then 0
    else
      var k := FirstAbove(sums[1..], t);
      if k == -1 then -1 else k + 1
  }

  /** `Array.prototype.indexOf` on numbers: the first index holding `v`, or -1;
      `undefined` is found nowhere. */
  function IndexOf(s: seq<real>, v: Option<real>): (k: int)
    ensures -1 <= k < |s|
    ensures k != -1 ==> v == Some(s[k]) && forall j :: 0 <= j < k ==> s[j] != s[k]
    ensures k == -1 ==> forall j :: 0 <= j < |s| ==> v != Some(s[j])
  {
    if v.None? || s == [] then -1
    else if s[0] == v.value then 0
    else
      var k := IndexOf(s[1..], v);
      if k == -1 then -1 else k + 1
  }

  /** Looking up the running sum the search stopped at gives back the index
      the search stopped at, whether or not the sums are ordered: an earlier
      equal sum would also exceed `t`. */
  lemma IndexOfFindsFirstAbove(sums: seq<real>, t: real, k: int)
    requires IsFirstAbove(sums, t, k)
    ensures IndexOf(sums, Some(sums[k])) == k
  {
  }

  /** The selection rule picks one index: the one the search stops at. */
  lemma FirstAboveUnique(sums: seq<real>, t: real, k: int)
    requires IsFirstAbove(sums, t, k)
    ensures FirstAbove(sums, t) == k
  {
  }

  /** The index of the part `t` falls in, or -1 when `t` lies past every part. */
  function SelectedPart(files: seq<AudioFile>, t: real): int
  {
    FirstAbove(RunningSums(Durations(files)), t)
  }

  /** The resolver with the preceding-parts sum taken as 0 for the first part.
      It names the file of the first running sum strictly greater than `t`,
      and finds nothing exactly when no running sum exceeds `t`. */
  function Resolve(files: seq<AudioFile>, t: real): (r: Option<PartProgress>)
    ensures r.None? <==> forall i :: 0 <= i < |files| ==> RunningSums(Durations(files))[i] <= t
    ensures r.Some? ==>
              IsFirstAbove(RunningSums(Durations(files)), t, SelectedPart(files, t)) &&
              r.value.partName == files[SelectedPart(files, t)].ino
  {
    var ds := Durations(files);
    var k := SelectedPart(files, t);
    assert |RunningSums(ds)| == |files|;
    if k == -1 then None
    else Some(PartProgress(files[k].ino, if ds[k] == 0.0 then t else Abs(t - Sum(ds[..k]))))
  }

  /** The resolver as written: for the first part the preceding running sum is
      read at index -1, which is `undefined`, and the subtraction gives NaN;
      past the end `audioFiles[-1].ino` throws. It names the same file as
      `Resolve`, and its offset is NaN exactly when that is the first file and
      its duration is not 0. */
  function ResolveAsWritten(files: seq<AudioFile>, t: real): (r: Option<RawPartProgress>)
    ensures r.None? <==> forall i :: 0 <= i < |files| ==> RunningSums(Durations(files))[i] <= t
    ensures r.Some? ==>
              IsFirstAbove(RunningSums(Durations(files)), t, SelectedPart(files, t)) &&
              r.value.partName == files[SelectedPart(files, t)].ino
    ensures r.Some? ==>
              (r.value.relativeTimeForPart.NotFinite? <==> SelectedPart(files, t) == 0 && files[0].duration != 0.0)
  {
    var ds := Durations(files);
    var sums := RunningSums(ds);
    var k := SelectedPart(files, t);
    if k == -1 then None
    else
      Some(RawPartProgress(files[k].ino,
        if ds[k] == 0.0 then Finite(t)
        else if k == 0 then NotFinite
        else Finite(Abs(t - sums[k - 1]))))
  }

  /** partNameAndRelativeProgress, loop by loop: the running sums, the search
      for the first sum past `currentTime`, `indexOf`, and the offset. `None`
      is the TypeError thrown when no part is found. */
  method PartNameAndRelativeProgress(currentTime: real, audioFiles: seq<AudioFile>)
    returns (res: Option<RawPartProgress>)
    ensures res == ResolveAsWritten(audioFiles, currentTime)
    ensures res.None? <==> forall i :: 0 <= i < |audioFiles| ==> RunningSums(Durations(audioFiles))[i] <= currentTime
  {
    var durations := Durations(audioFiles);
    var newDurationSums: seq<real> := [];
    var running := 0.0;
    for i := 0 to |durations|
      invariant running == Sum(durations[..i])
      invariant newDurationSums == RunningSums(durations[..i])
    {
      SumPrefixStep(durations, i);
      RunningSumsStep(durations, i);
      running := running + durations[i];
      newDurationSums := newDurationSums + [running];
    }
    assert durations[..|durations|] == durations;

    var inThisPart: Option<real> := None;
    ghost var found := -1;
    var i := 0;
    while i < |newDurationSums|
      invariant 0 <= i <= |newDurationSums|
      invariant forall j :: 0 <= j < i ==> newDurationSums[j] <= currentTime
      invariant inThisPart == None && found == -1
    {
      if newDurationSums[i] > currentTime {
        inThisPart := Some(newDurationSums[i]);
        found := i;
        break;
      }
      i := i + 1;
    }
    if found != -1 {
      assert IsFirstAbove(newDurationSums, currentTime, found);
      FirstAboveUnique(newDurationSums, currentTime, found);
      IndexOfFindsFirstAbove(newDurationSums, currentTime, found);
    }
    assert found == SelectedPart(audioFiles, currentTime);

    var closestIndex := IndexOf(newDurationSums, inThisPart);
    assert closestIndex == found;
    if closestIndex == -1 {
      // audioFiles[-1] is undefined and reading its `ino` throws
      return None;
    }
    var relativeTimeForPart :=
      if durations[closestIndex] == 0.0 then Finite(currentTime)
      else if closestIndex == 0 then NotFinite
      else Finite(Abs(currentTime - newDurationSums[closestIndex - 1]));
    res := Some(RawPartProgress(audioFiles[closestIndex].ino, relativeTimeForPart));
  }

  /** For a non-negative position the selected part has positive duration, its
      offset is the position minus the durations before it, and the offset lies
      within the part; so neither the zero-duration branch nor Math.abs ever
      changes the result. */
  lemma OffsetBounds(files: seq<AudioFile>, t: real)
    requires 0.0 <= t
    requires Resolve(files, t).Some?
    ensures var ds := Durations(files);
            var k := SelectedPart(files, t);
            var off := Resolve(files, t).value.relativeTimeForPart;
            0 <= k < |files| && ds[k] > 0.0 && off == t - Sum(ds[..k]) && 0.0 <= off < ds[k]
  {
    var ds := Durations(files);
    var sums := RunningSums(ds);
    var k := SelectedPart(files, t);
    SumPrefixStep(ds, k);
    RunningSumsAt(ds, k);
    if k > 0 {
      RunningSumsAt(ds, k - 1);
      assert sums[k - 1] <= t;
    }
  }

  /** With non-negative durations, no part is found exactly when the position
      is at or past the total duration. */
  lemma PastEnd(files: seq<AudioFile>, t: real)
    requires NonNegative(Durations(files))
    requires 0.0 <= t
    ensures Resolve(files, t).None? <==> t >= Sum(Durations(files))
    ensures ResolveAsWritten(files, t).None? <==> t >= Sum(Durations(files))
  {
    var ds := Durations(files);
    var sums := RunningSums(ds);
    assert ds[..|ds|] == ds;
    if |ds| > 0 {
      RunningSumsAt(ds, |ds| - 1);
      assert sums[|ds| - 1] == Sum(ds);
    } else {
      assert ds == [];
    }
    if t >= Sum(ds) {
      forall j | 0 <= j < |sums| ensures sums[j] <= t {
        RunningSumsAt(ds, j);
        SumPrefixMonotone(ds, j + 1, |ds|);
      }
    }
  }

  /** Any position from 0 up to the total duration falls in some part,
      whatever the signs of the durations: the last running sum is the total. */
  lemma BeforeEndResolves(files: seq<AudioFile>, t: real)
    requires 0.0 <= t < Sum(Durations(files))
    ensures Resolve(files, t).Some? && ResolveAsWritten(files, t).Some?
  {
    var ds := Durations(files);
    assert ds[..|ds|] == ds;
    assert ds != [];
    RunningSumsAt(ds, |ds| - 1);
  }

  /** A position exactly on the end of part `i` is never resolved to part `i`
      or any earlier part: it belongs to a later part, or to none. */
  lemma BoundaryGoesToLaterPart(files: seq<AudioFile>, i: nat)
    requires NonNegative(Durations(files))
    requires i < |files|
    ensures var k := SelectedPart(files, Sum(Durations(files)[..i + 1]));
            k == -1 || k > i
  {
    var ds := Durations(files);
    var sums := RunningSums(ds);
    forall j | 0 <= j <= i ensures sums[j] <= Sum(ds[..i + 1]) {
      RunningSumsAt(ds, j);
      SumPrefixMonotone(ds, j + 1, i + 1);
    }
  }

  /** The as-written resolver agrees with the corrected one except on the
      first part, where it yields NaN instead of the position itself. */
  lemma AsWrittenVersusCorrected(files: seq<AudioFile>, t: real)
    requires 0.0 <= t
    ensures ResolveAsWritten(files, t).None? <==> Resolve(files, t).None?
    ensures SelectedPart(files, t) > 0 ==>
              ResolveAsWritten(files, t) ==
              Some(RawPartProgress(Resolve(files, t).value.partName, Finite(Resolve(files, t).value.relativeTimeForPart)))
    ensures SelectedPart(files, t) == 0 ==>
              ResolveAsWritten(files, t) == Some(RawPartProgress(files[0].ino, NotFinite)) &&
              Resolve(files, t) == Some(PartProgress(files[0].ino, t))
  {
    var k := SelectedPart(files, t);
    if k != -1 {
      OffsetBounds(files, t);
      if k > 0 {
        RunningSumsAt(Durations(files), k - 1);
      }
    }
  }

  /** Durations 100 and 200, position 50: the first part is selected and the
      as-written offset is NaN where 50 seconds is meant. */
  lemma FirstPartOffsetIsNaN(a: AudioFile, b: AudioFile)
    requires a.duration == 100.0 && b.duration == 200.0
    ensures ResolveAsWritten([a, b], 50.0) == Some(RawPartProgress(a.ino, NotFinite))
    ensures Resolve([a, b], 50.0) == Some(PartProgress(a.ino, 50.0))
  {
    var ds := Durations([a, b]);
    assert ds == [100.0, 200.0];
    assert ds[..1] == [100.0];
    assert Sum(ds[..1]) == 100.0;
    var sums := RunningSums(ds);
    RunningSumsAt(ds, 0);
    assert sums[0] == 100.0;
    assert SelectedPart([a, b], 50.0) == 0;
  }

  /** Durations 100 and 200, position 150: the second part, 50 seconds in. */
  lemma SecondPartScenario(a: AudioFile, b: AudioFile)
    requires a.duration == 100.0 && b.duration == 200.0
    ensures Resolve([a, b], 150.0) == Some(PartProgress(b.ino, 50.0))
    ensures ResolveAsWritten([a, b], 150.0) == Some(RawPartProgress(b.ino, Finite(50.0)))
  {
    var ds := Durations([a, b]);
    assert ds == [100.0, 200.0];
    assert ds[..0] == [];
    SumPrefixStep(ds, 0);
    SumPrefixStep(ds, 1);
    var sums := RunningSums(ds);
    RunningSumsAt(ds, 0);
    RunningSumsAt(ds, 1);
    assert sums[0] == 100.0 && sums[1] == 300.0;
    assert IsFirstAbove(sums, 150.0, 1);
  }

  /** Durations 10, 15, 0, 15 and position 25: the running sums are
      10, 25, 25, 40, and the boundary position goes past the zero-duration
      third part to the fourth, at offset 0. */
  lemma ZeroDurationPartSkipped(a: AudioFile, b: AudioFile, c: AudioFile, d: AudioFile)
    requires a.duration == 10.0 && b.duration == 15.0 && c.duration == 0.0 && d.duration == 15.0
    ensures SelectedPart([a, b, c, d], 25.0) == 3
    ensures Resolve([a, b, c, d], 25.0) == Some(PartProgress(d.ino, 0.0))
  {
    var ds := Durations([a, b, c, d]);
    assert ds == [10.0, 15.0, 0.0, 15.0];
    assert ds[..0] == [];
    SumPrefixStep(ds, 0);
    SumPrefixStep(ds, 1);
    SumPrefixStep(ds, 2);
    SumPrefixStep(ds, 3);
    var sums := RunningSums(ds);
    RunningSumsAt(ds, 0);
    RunningSumsAt(ds, 1);
    RunningSumsAt(ds, 2);
    RunningSumsAt(ds, 3);
    assert sums[0] == 10.0 && sums[1] == 25.0 && sums[2] == 25.0 && sums[3] == 40.0;
    assert IsFirstAbove(sums, 25.0, 3);
  }
}
