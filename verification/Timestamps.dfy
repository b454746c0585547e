/**
 The timestamps of one streaming session. Every frame handed to the encoders is stamped from the
 frames stamped before it: video in units of 1/90000 s, audio in units of 1/48000 s, both relative to
 the first frame of the session.
 */
module Timestamps {
  import opened Arith
  import opened Options

  /** A frame that arrived with a capture time of `ms` milliseconds and was given presentation time `pts`. */
  datatype Stamp = Stamp(video: bool, ms: int, pts: int)

  const MS_VIDEO := 90
  const MS_AUDIO := 48
  const AUDIO_SLACK := 4800

  /** The presentation time of the last frame of the kind. */
  function Prev(s: seq<Stamp>, video: bool): Option<int> {
    if s == [] then None
    else if s[|s| - 1].video == video then Some(s[|s| - 1].pts)
    else Prev(s[..|s| - 1], video)
  }

  function Origin(s: seq<Stamp>, ms: int): int { if s == [] then ms else s[0].ms }

  function VideoPts(s: seq<Stamp>, ms: int): int {
    Max(match Prev(s, true) case None => 0 case Some(p) => p + MS_VIDEO, MS_VIDEO * (ms - Origin(s, ms)))
  }

  function AudioPts(s: seq<Stamp>, ms: int, frame: nat): int {
    var exact := MS_AUDIO * (ms - Origin(s, ms));
    match Prev(s, false)
    case None => Max(0, exact)
    case Some(p) => if exact > p + frame + AUDIO_SLACK then Max(0, exact) else p + frame
  }

  function NextPts(s: seq<Stamp>, video: bool, ms: int, frame: nat): int {
    if video then VideoPts(s, ms) else AudioPts(s, ms, frame)
  }

  /** A session: every stamp follows from the ones before it. */
  predicate Session(s: seq<Stamp>, frame: nat) {
    s == [] ||
    var n := |s| - 1;
    Session(s[..n], frame) && s[n].pts == NextPts(s[..n], s[n].video, s[n].ms, frame)
  }

  // ----- what a session looks like -----

  /** The number of frames of the kind. */
  function Count(s: seq<Stamp>, video: bool): (c: nat)
    ensures c <= |s|
  {
    if s == [] then 0 else Count(s[..|s| - 1], video) + if s[|s| - 1].video == video then 1 else 0
  }

  /** The least distance between two frames of a kind. */
  function Spacing(video: bool, frame: nat): nat { if video then MS_VIDEO else frame }

  lemma PrefixOfSession(s: seq<Stamp>, k: nat, frame: nat)
    requires k <= |s| && Session(s, frame)
    ensures Session(s[..k], frame)
    decreases |s|
  {
    if k < |s| {
      PrefixOfSession(s[..|s| - 1], k, frame);
      assert s[..|s| - 1][..k] == s[..k];
    } else {
      assert s[..k] == s;
    }
  }

  /** The last frame of the kind is where Prev says it is. */
  lemma {:induction false} PrevIs(s: seq<Stamp>, video: bool) returns (i: int)
    ensures Prev(s, video).None? <==> i < 0
    ensures i < 0 <==> Count(s, video) == 0
    ensures i < |s|
    ensures i >= 0 ==> s[i].video == video && Prev(s, video) == Some(s[i].pts)
    ensures i >= 0 ==> Count(s[..i + 1], video) == Count(s, video)
    ensures forall j :: Max(0, i + 1) <= j < |s| ==> s[j].video != video
    decreases |s|
  {
    if s == [] {
      i := -1;
    } else if s[|s| - 1].video == video {
      i := |s| - 1;
      assert s[..i + 1] == s;
    } else {
      var init := s[..|s| - 1];
      i := PrevIs(init, video);
      assert forall j :: 0 <= j < |init| ==> init[j] == s[j];
      if i >= 0 { assert init[..i + 1] == s[..i + 1]; }
    }
  }

  /** Frames of a kind are at least their spacing apart, one for every frame in between, and never negative. */
  lemma {:induction false} Advances(s: seq<Stamp>, i: int, j: int, frame: nat)
    requires Session(s, frame) && 0 <= i <= j < |s| && s[i].video == s[j].video
    ensures 0 <= s[i].pts
    ensures s[j].pts - s[i].pts >= Spacing(s[j].video, frame) * (Count(s[..j], s[j].video) - Count(s[..i], s[i].video))
    decreases |s|, j, j - i
  {
    hide Count;
    var video := s[j].video;
    if j < |s| - 1 {
      var init := s[..|s| - 1];
      Advances(init, i, j, frame);
      assert init[..j] == s[..j] && init[..i] == s[..i];
    } else {
      var init := s[..j];
      var p := PrevIs(init, video);
      if p >= 0 {
        Advances(init, p, p, frame);
        if i < j {
          assert i <= p;
          Advances(init, i, p, frame);
          assert init[..p] == s[..p] && init[..i] == s[..i] && init[..p + 1] == s[..p + 1];
          CountNext(s, p);
          Distribute(Spacing(video, frame), Count(s[..p], video) - Count(s[..i], video));
        }
      }
    }
  }

  lemma Distribute(a: int, b: int)
    ensures a * (b + 1) == a * b + a
  {
  }

  lemma CountNext(s: seq<Stamp>, p: int)
    requires 0 <= p < |s|
    ensures Count(s[..p + 1], s[p].video) == Count(s[..p], s[p].video) + 1
  {
    assert s[..p + 1][..p] == s[..p];
  }

  lemma {:induction false} CountGrows(s: seq<Stamp>, i: int, j: int, video: bool)
    requires 0 <= i <= j <= |s|
    ensures Count(s[..i], video) <= Count(s[..j], video)
    decreases j - i
  {
    if i < j {
      CountGrows(s, i, j - 1, video);
      assert s[..j][..j - 1] == s[..j - 1];
    }
  }

  /** Video times stay distinct and in order after rounding to milliseconds; audio advances by whole frames. */
  lemma StrictlyIncreasing(s: seq<Stamp>, i: int, j: int, frame: nat)
    requires Session(s, frame) && 0 <= i < j < |s| && s[i].video == s[j].video
    ensures 0 <= s[i].pts
    ensures s[j].pts >= s[i].pts + if s[j].video then 90 else frame
    ensures s[i].video ==> (s[i].pts + 45) / 90 < (s[j].pts + 45) / 90
  {
    hide Count;
    var video := s[i].video;
    Advances(s, i, j, frame);
    CountNext(s, i);
    CountGrows(s, i + 1, j, video);
    var d := Count(s[..j], video) - Count(s[..i], video) - 1;
    Distribute(Spacing(video, frame), d);
    MulNonNegative(Spacing(video, frame), d);
  }

  lemma MulNonNegative(a: nat, b: nat)
    ensures a * b >= 0
  {
  }

  /** A session starts at time zero, whatever the capture time of its first frame. */
  lemma StartsAtZero(s: seq<Stamp>, frame: nat)
    requires Session(s, frame) && s != []
    ensures s[0].pts == 0
  {
    PrefixOfSession(s, 1, frame);
    assert s[..1][..0] == [];
  }

  /** The capture time of frame k, in its own units, from the start of the session. */
  function Exact(s: seq<Stamp>, k: int): int
    requires 0 <= k < |s|
  {
    (if s[k].video then MS_VIDEO else MS_AUDIO) * (s[k].ms - s[0].ms)
  }

  lemma StampAt(s: seq<Stamp>, k: int, frame: nat)
    requires Session(s, frame) && 0 <= k < |s|
    ensures s[k].pts == NextPts(s[..k], s[k].video, s[k].ms, frame)
    ensures Origin(s[..k], s[k].ms) == s[0].ms
  {
    PrefixOfSession(s, k + 1, frame);
    assert s[..k + 1][..k] == s[..k];
  }

  /** Video never runs behind its capture time, and audio at most 100 ms. */
  lemma NeverLate(s: seq<Stamp>, k: int, frame: nat)
    requires Session(s, frame) && 0 <= k < |s|
    ensures s[k].video ==> s[k].pts >= 90 * (s[k].ms - s[0].ms)
    ensures !s[k].video ==> s[k].pts >= 48 * (s[k].ms - s[0].ms) - 4800
  {
    hide Session, Prev;
    StampAt(s, k, frame);
  }

  /** A lower bound on a video time: from frame i on, one millisecond a frame. */
  function FromFrame(s: seq<Stamp>, i: int, k: int): int
    requires 0 <= i <= k < |s|
  {
    Exact(s, i) + MS_VIDEO * (Count(s[..k], true) - Count(s[..i], true))
  }

  /**
   The closed form of a video time: the greatest of the bounds that the frames up to it set, or one
   millisecond a frame from zero when that is more. So rollbacks are absorbed and cause no drift.
   */
  lemma VideoLeast(s: seq<Stamp>, k: int, frame: nat) returns (i: int)
    requires Session(s, frame) && 0 <= k < |s| && s[k].video
    ensures forall j :: 0 <= j <= k && s[j].video ==>
              s[k].pts >= 90 * (s[j].ms - s[0].ms) + 90 * (Count(s[..k], true) - Count(s[..j], true))
    ensures s[k].pts >= 90 * Count(s[..k], true)
    ensures i < 0 ==> s[k].pts == 90 * Count(s[..k], true)
    ensures i >= 0 ==>
              && i <= k && s[i].video
              && s[k].pts == 90 * (s[i].ms - s[0].ms) + 90 * (Count(s[..k], true) - Count(s[..i], true))
  {
    hide Count, Session;
    forall j | 0 <= j <= k && s[j].video ensures s[k].pts >= FromFrame(s, j, k) {
      NeverLate(s, j, frame);
      Advances(s, j, k, frame);
    }
    i := VideoWitness(s, k, frame);
  }

  lemma {:induction false} VideoWitness(s: seq<Stamp>, k: int, frame: nat) returns (i: int)
    requires Session(s, frame) && 0 <= k < |s| && s[k].video
    ensures s[k].pts >= MS_VIDEO * Count(s[..k], true)
    ensures i < 0 ==> s[k].pts == MS_VIDEO * Count(s[..k], true)
    ensures i >= 0 ==> i <= k && s[i].video && s[k].pts == FromFrame(s, i, k)
    decreases k
  {
    hide Count, Session;
    StampAt(s, k, frame);
    var p := PrevIs(s[..k], true);
    if p < 0 {
      i := if s[k].pts == Exact(s, k) then k else -1;
    } else {
      assert s[..k][..p + 1] == s[..p + 1];
      CountNext(s, p);
      var q := VideoWitness(s, p, frame);
      i := if s[k].pts == Exact(s, k) then k else q;
    }
  }

  /** Audio is continuous: a frame follows its predecessor exactly, or sits exactly at its capture time after a gap. */
  lemma AudioContinuous(s: seq<Stamp>, k: int, frame: nat) returns (p: int)
    requires Session(s, frame) && 0 <= k < |s| && !s[k].video
    ensures p < k
    ensures p < 0 ==> s[k].pts == Max(0, 48 * (s[k].ms - s[0].ms)) && Count(s[..k], false) == 0
    ensures p >= 0 ==> !s[p].video && Count(s[..p + 1], false) == Count(s[..k], false)
    ensures p >= 0 ==>
              || s[k].pts == s[p].pts + frame
              || (s[k].pts == 48 * (s[k].ms - s[0].ms) && s[k].pts > s[p].pts + frame + 4800)
    ensures p >= 0 && 48 * (s[k].ms - s[0].ms) <= s[p].pts + frame + 4800 ==> s[k].pts == s[p].pts + frame
  {
    hide Session, Count;
    StampAt(s, k, frame);
    p := PrevIs(s[..k], false);
    if p >= 0 {
      assert s[..k][..p + 1] == s[..p + 1];
      Advances(s, p, p, frame);
    }
  }
}
