/**
 Interleaved sample sequences and the frames they spell: `Chunk` cuts a sequence into frames of
 `channels` samples and `Flatten` writes frames out again.
 */
module Frames {
  import opened Arith

  type Int16 = x: int | -32768 <= x <= 32767

  /** The whole frames of an interleaved sequence; an incomplete tail is left out. */
  function Chunk<T>(s: seq<T>, channels: int): seq<seq<T>>
    requires channels >= 1
    decreases |s|
  {
    if |s| < channels then [] else [s[..channels]] + Chunk(s[channels..], channels)
  }

  /** The sequence consists of whole frames. */
  predicate Whole<T>(s: seq<T>, channels: int)
    requires channels >= 1
    decreases |s|
  {
    s == [] || (|s| >= channels && Whole(s[channels..], channels))
  }

  function Flatten<T>(rows: seq<seq<T>>): seq<T> {
    if rows == [] then [] else rows[0] + Flatten(rows[1..])
  }

  predicate Rows<T>(rows: seq<seq<T>>, channels: int) {
    forall k :: 0 <= k < |rows| ==> |rows[k]| == channels
  }

  lemma {:induction false} ChunkRows<T>(s: seq<T>, channels: int)
    requires channels >= 1
    ensures Rows(Chunk(s, channels), channels)
    ensures |Chunk(s, channels)| * channels <= |s| < |Chunk(s, channels)| * channels + channels
    ensures Whole(s, channels) <==> |s| == |Chunk(s, channels)| * channels
    decreases |s|
  {
    if |s| >= channels {
      var rest := s[channels..];
      ChunkRows(rest, channels);
      var q := |Chunk(rest, channels)|;
      assert (q + 1) * channels == q * channels + channels;
    }
  }

  /** Whole sequences are those whose length the frame size divides. */
  lemma WholeIsMultiple<T>(s: seq<T>, channels: int)
    requires channels >= 1
    ensures |Chunk(s, channels)| == |s| / channels
    ensures Whole(s, channels) <==> |s| % channels == 0
  {
    ChunkRows(s, channels);
    DivUnique(|s|, channels, |Chunk(s, channels)|);
  }

  /** Reading frames and writing them out again loses nothing. */
  lemma {:induction false} FlattenChunk<T>(s: seq<T>, channels: int)
    requires channels >= 1 && Whole(s, channels)
    ensures Flatten(Chunk(s, channels)) == s
    decreases |s|
  {
    if s != [] {
      FlattenChunk(s[channels..], channels);
      assert Chunk(s, channels)[1..] == Chunk(s[channels..], channels);
      assert s == s[..channels] + s[channels..];
    }
  }

  lemma {:induction false} ChunkConcat<T>(a: seq<T>, b: seq<T>, channels: int)
    requires channels >= 1 && Whole(a, channels)
    ensures Chunk(a + b, channels) == Chunk(a, channels) + Chunk(b, channels)
    ensures Whole(b, channels) ==> Whole(a + b, channels)
    decreases |a|
  {
    if a == [] {
      assert a + b == b;
    } else {
      var head, tail := a[..channels], a[channels..];
      ChunkConcat(tail, b, channels);
      ChunkFront(head, tail + b, channels);
      ChunkFront(head, tail, channels);
      assert head + (tail + b) == a + b && head + tail == a;
    }
  }

  /** A frame at the front is the first frame read. */
  lemma ChunkFront<T>(frame: seq<T>, rest: seq<T>, channels: int)
    requires |frame| == channels >= 1
    ensures Chunk(frame + rest, channels) == [frame] + Chunk(rest, channels)
    ensures Whole(frame + rest, channels) <==> Whole(rest, channels)
  {
    assert (frame + rest)[..channels] == frame && (frame + rest)[channels..] == rest;
  }

  /** The incomplete tail does not contribute a frame. */
  lemma {:induction false} ChunkPrefix<T>(s: seq<T>, channels: int)
    requires channels >= 1
    ensures |s| / channels * channels <= |s|
    ensures Chunk(s[..|s| / channels * channels], channels) == Chunk(s, channels)
    ensures Whole(s[..|s| / channels * channels], channels)
  {
    DivBounds(|s|, channels);
    var n := |s| / channels * channels;
    var p := s[..n];
    DivExact(|s| / channels, channels, n);
    WholeIsMultiple(p, channels);
    ChunkConcat(p, s[n..], channels);
    assert p + s[n..] == s;
    assert Chunk(s[n..], channels) == [];
  }

  lemma {:induction false} FlattenLength<T>(rows: seq<seq<T>>, channels: int)
    requires Rows(rows, channels)
    ensures |Flatten(rows)| == |rows| * channels
    decreases |rows|
  {
    if rows != [] {
      FlattenLength(rows[1..], channels);
      assert (|rows| - 1) * channels == |rows| * channels - channels;
    }
  }

  /** Row k of the frames sits at offset k * channels. */
  lemma {:induction false} FlattenAt<T>(rows: seq<seq<T>>, channels: int, k: nat, c: nat)
    requires Rows(rows, channels) && k < |rows| && c < channels
    ensures k * channels + c < |Flatten(rows)|
    ensures Flatten(rows)[k * channels + c] == rows[k][c]
    decreases |rows|
  {
    FlattenLength(rows, channels);
    MulMono(k + 1, |rows|, channels);
    assert (k + 1) * channels == k * channels + channels;
    if k > 0 {
      FlattenAt(rows[1..], channels, k - 1, c);
      assert (k - 1) * channels == k * channels - channels;
      MulMono(1, k, channels);
    } else {
      assert 0 * channels == 0;
    }
  }

  /** Row k occupies the `channels` samples from k * channels on. */
  lemma {:induction false} FlattenSplit<T>(rows: seq<seq<T>>, channels: int, k: nat)
    requires Rows(rows, channels) && k < |rows| && channels >= 1
    ensures |Flatten(rows[..k])| == k * channels
    ensures Flatten(rows) == Flatten(rows[..k]) + rows[k] + Flatten(rows[k + 1..])
    decreases |rows|
  {
    FlattenLength(rows[..k], channels);
    if k > 0 {
      FlattenSplit(rows[1..], channels, k - 1);
      assert rows[1..][..k - 1] == rows[..k][1..];
      assert rows[1..][k..] == rows[k + 1..];
    }
  }

  /** Changing row k changes exactly its `channels` samples. */
  lemma FlattenUpdate<T>(rows: seq<seq<T>>, channels: int, k: nat, row: seq<T>)
    requires Rows(rows, channels) && k < |rows| && |row| == channels >= 1
    ensures 0 <= k * channels && k * channels + channels <= |Flatten(rows)|
    ensures Flatten(rows[k := row])
            == Flatten(rows)[..k * channels] + row + Flatten(rows)[k * channels + channels..]
    ensures Flatten(rows)[k * channels..k * channels + channels] == rows[k]
  {
    hide Flatten;
    var before, after := Flatten(rows[..k]), Flatten(rows[k + 1..]);
    assert rows[k := row][..k] == rows[..k] && rows[k := row][k + 1..] == rows[k + 1..];
    FlattenSplit(rows, channels, k);
    FlattenSplit(rows[k := row], channels, k);
    Spliced(before, rows[k], after, row);
  }

  lemma Spliced<T>(before: seq<T>, part: seq<T>, after: seq<T>, row: seq<T>)
    requires |row| == |part|
    ensures var s, i, j := before + part + after, |before|, |before| + |part|;
      before + row + after == s[..i] + row + s[j..] && s[i..j] == part
  {
  }
}
