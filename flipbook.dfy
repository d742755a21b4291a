/** A flipbook animation: a row of pre-modelled frames of which exactly
    one is visible at a time. Both turbo-exhaust flipbooks of the game use
    these definitions; the `visible` flags of a flipbook's frames are an
    array of booleans. */
module Flipbook {
  import opened Numeric

  /** Exactly frame k of the frames is visible. */
  ghost predicate ExactlyOneVisible(visible: seq<bool>, k: nat) {
    k < |visible| && forall j :: 0 <= j < |visible| ==> (visible[j] <==> j == k)
  }

  /** The frame after `k` in a cycle of `n` frames, written the way the
      game code writes it: one more, back to 0 past the last frame. */
  function NextFrame(k: nat, n: nat): (r: nat)
    requires k < n
    ensures r < n && r == (k + 1) % n
  {
    if k + 1 > n - 1 then 0 else k + 1
  }

  /** The frame after m advances from frame k. */
  function AdvanceFrames(k: nat, n: nat, m: nat): (r: nat)
    requires k < n
    ensures r < n
  {
    if m == 0 then k else NextFrame(AdvanceFrames(k, n, m - 1), n)
  }

  /** Advancing m times from k shows frame (k + m) mod n. */
  lemma {:induction false} AdvanceFramesCycle(k: nat, n: nat, m: nat)
    requires k < n
    ensures AdvanceFrames(k, n, m) == (k + m) % n
  {
    if m > 0 {
      AdvanceFramesCycle(k, n, m - 1);
      ModSucc(k + m - 1, n);
    }
  }

  /** The animation is back at its starting frame after n advances. */
  lemma AdvanceFramesPeriod(k: nat, n: nat)
    requires k < n
    ensures AdvanceFrames(k, n, n) == k
  {
    AdvanceFramesCycle(k, n, n);
    DivModUnique(k + n, n, 1, k);
  }

  lemma ModSucc(a: nat, n: nat)
    requires n > 0
    ensures (a % n + 1) % n == (a + 1) % n
  {
    var q, r := a / n, a % n;
    if r + 1 < n {
      DivModUnique(a + 1, n, q, r + 1);
      DivModUnique(r + 1, n, 0, r + 1);
    } else {
      DivModUnique(a + 1, n, q + 1, 0);
      DivModUnique(r + 1, n, 1, 0);
    }
  }

  /** Hiding frame `last` and then showing frame `cur` moves the single
      visible frame from `last` to `cur` and touches no other frame. */
  lemma ChangeFrameMovesVisibility(visible: seq<bool>, last: nat, cur: nat)
    requires ExactlyOneVisible(visible, last) && cur < |visible|
    ensures ExactlyOneVisible(visible[last := false][cur := true], cur)
    ensures forall j :: 0 <= j < |visible| && j != last && j != cur ==>
      visible[last := false][cur := true][j] == visible[j]
  {
  }

  /** Builds the frames of a flipbook: a clone of each loaded frame, the
      first left as loaded (visible) and every other one hidden. */
  method CreateFrames(frameCount: nat) returns (visible: array<bool>)
    ensures fresh(visible) && visible.Length == frameCount
    ensures frameCount > 0 ==> ExactlyOneVisible(visible[..], 0)
  {
    visible := new bool[frameCount];
    var isFirstIteration := true;
    var i := 0;
    while i < frameCount
      invariant 0 <= i <= frameCount
      invariant isFirstIteration <==> i == 0
      invariant forall j :: 0 <= j < i ==> (visible[j] <==> j == 0)
    {
      visible[i] := true;
      if !isFirstIteration {
        visible[i] := false;
      }
      isFirstIteration := false;
      i := i + 1;
    }
  }

  /** changeFrame: hides frame `lastFrame` and shows frame `currentFrame`
      of one flipbook. */
  method ChangeFrame(frames: array<bool>, lastFrame: nat, currentFrame: nat)
    requires lastFrame < frames.Length && currentFrame < frames.Length
    modifies frames
    ensures frames[..] == old(frames[..])[lastFrame := false][currentFrame := true]
  {
    frames[lastFrame] := false;
    frames[currentFrame] := true;
  }
}
