/** Track ids of the form `ITEM-ID/file/INO` and how the progress report takes
    the part id back out of them with `split("/")[2]`. */
module PartIds {
  import opened Options

  /** `s.split("/")`: the pieces between the slashes, in order; the empty
      string gives one empty piece and adjacent slashes an empty piece. */
  function Split(s: string): (r: seq<string>)
    ensures |r| >= 1
    ensures forall i :: 0 <= i < |r| ==> '/' !in r[i]
  {
    if s == [] then [""]
    else if s[0] == '/' then [""] + Split(s[1..])
    else
      var rest := Split(s[1..]);
      [[s[0]] + rest[0]] + rest[1..]
  }

  /** `pieces.join("/")` */
  function Join(pieces: seq<string>): string
  {
    if |pieces| == 0 then ""
    else if |pieces| == 1 then pieces[0]
    else pieces[0] + "/" + Join(pieces[1..])
  }

  /** Joining the pieces of a split gives back the string. */
  lemma {:induction false} JoinSplit(s: string)
    ensures Join(Split(s)) == s
  {
    if s == [] {
    } else if s[0] == '/' {
      JoinSplit(s[1..]);
      assert Join(Split(s)) == "" + "/" + Join(Split(s[1..]));
    } else {
      var rest := Split(s[1..]);
      JoinSplit(s[1..]);
      if |rest| == 1 {
        assert Join(Split(s)) == [s[0]] + rest[0];
      } else {
        assert Join(rest) == rest[0] + "/" + Join(rest[1..]);
        assert ([[s[0]] + rest[0]] + rest[1..])[1..] == rest[1..];
        assert Join(Split(s)) == [s[0]] + rest[0] + "/" + Join(rest[1..]);
      }
    }
  }

  lemma {:induction false} SplitSlashFree(a: string)
    requires '/' !in a
    ensures Split(a) == [a]
  {
    if a != [] {
      SplitSlashFree(a[1..]);
      assert [a[0]] + a[1..] == a;
    }
  }

  lemma {:induction false} SplitAfterPiece(a: string, s: string)
    requires '/' !in a
    ensures Split(a + "/" + s) == [a] + Split(s)
  {
    if a == [] {
      assert a + "/" + s == "/" + s;
      assert ("/" + s)[1..] == s;
    } else {
      assert (a + "/" + s)[1..] == a[1..] + "/" + s;
      SplitAfterPiece(a[1..], s);
      assert [a[0]] + a[1..] == a;
    }
  }

  /** Splitting a join of slash-free pieces gives back the pieces. */
  lemma {:induction false} SplitJoin(pieces: seq<string>)
    requires |pieces| >= 1
    requires forall i :: 0 <= i < |pieces| ==> '/' !in pieces[i]
    ensures Split(Join(pieces)) == pieces
  {
    if |pieces| == 1 {
      SplitSlashFree(pieces[0]);
    } else {
      SplitJoin(pieces[1..]);
      SplitAfterPiece(pieces[0], Join(pieces[1..]));
    }
  }

  /** The id the bridge gives a track: `${itemId}/file/${ino}`. */
  function TrackId(itemId: string, ino: string): (r: string)
    ensures r == Join([itemId, "file", ino])
  {
    var pieces := [itemId, "file", ino];
    assert Join(pieces[2..]) == ino;
    assert Join(pieces[1..]) == "file" + "/" + ino;
    itemId + "/file/" + ino
  }

  /** `objectId.split("/")[2]`, which is undefined when there are fewer than
      three pieces. */
  function PartIdOf(objectId: string): (r: Option<string>)
    ensures r.Some? ==> '/' !in r.value
  {
    var pieces := Split(objectId);
    if |pieces| > 2 then Some(pieces[2]) else None
  }

  /** The part id taken from a track id is the ino it was built from, as long
      as neither half contains a slash. */
  lemma PartIdOfTrackId(itemId: string, ino: string)
    requires '/' !in itemId && '/' !in ino
    ensures PartIdOf(TrackId(itemId, ino)) == Some(ino)
  {
    SplitJoin([itemId, "file", ino]);
  }
}
