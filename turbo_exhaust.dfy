/** The kart's pair of turbo-exhaust flipbooks: a left and a right exhaust,
    each a group of eight pre-modelled flame frames, advanced together one
    frame every 0.03 s. */
module Turbo {
  import opened Flipbook

  /** Seconds between two frames of the flame animation. */
  const TurboAnimationSpeed: real := 0.03
  /** Frames of each exhaust (the eight turbo models the kart assets load). */
  const TurboTotalFrames: nat := 8

  class TurboExhaust {
    /** Child 0: the `visible` flags of the left exhaust's frames. */
    var leftExhaust: array<bool>
    /** Child 1: the `visible` flags of the right (mirrored) exhaust's frames. */
    var rightExhaust: array<bool>
    /** The `visible` flags of the two exhaust groups themselves, as opposed
        to those of their frames: a hidden group shows none of its frames. */
    var leftVisible: bool
    var rightVisible: bool
    var currentFrame: nat
    /** The animation timer: the clock reading (seconds) it was last reset at. */
    var timerStart: real
    ghost var Repr: set<object>

    /** Both exhausts hold the eight frames, and in each exactly one frame
        is visible: frame `currentFrame`. */
    ghost predicate Valid()
      reads this, Repr
    {
      Repr == {this, leftExhaust, rightExhaust} && leftExhaust != rightExhaust &&
      leftExhaust.Length == TurboTotalFrames && rightExhaust.Length == TurboTotalFrames &&
      currentFrame < TurboTotalFrames &&
      ExactlyOneVisible(leftExhaust[..], currentFrame) &&
      ExactlyOneVisible(rightExhaust[..], currentFrame)
    }

    /** Creates both exhausts (createTurboObject twice) at frame 0, with
        both groups hidden; the animation timer starts at clock reading
        `now`. */
    constructor (now: real)
      ensures Valid() && fresh(Repr)
      ensures currentFrame == 0 && timerStart == now
      ensures !leftVisible && !rightVisible
    {
      var left := CreateFrames(TurboTotalFrames);
      var right := CreateFrames(TurboTotalFrames);
      leftExhaust, rightExhaust := left, right;
      leftVisible, rightVisible := false, false;
      currentFrame := 0;
      timerStart := now;
      Repr := {this, left, right};
    }

    /** getExhaustObject: the right exhaust when `isRight`, else the left;
        the boolean is used as the child index. */
    function GetExhaustObject(isRight: bool): (exhaust: array<bool>)
      reads this
      ensures exhaust == if isRight then rightExhaust else leftExhaust
    {
      [leftExhaust, rightExhaust][if isRight then 1 else 0]
    }

    /** The two exhausts always show the same frame. */
    lemma Lockstep()
      requires Valid()
      ensures leftExhaust[..] == rightExhaust[..]
    {
      assert forall j :: 0 <= j < TurboTotalFrames ==> leftExhaust[..][j] == rightExhaust[..][j];
    }

    /** nextTurboFrame: both exhausts move on to the next frame of the
        cycle; the single visible frame moves with `currentFrame`. */
    method NextTurboFrame()
      requires Valid()
      modifies Repr
      ensures Valid() && Repr == old(Repr)
      ensures leftExhaust == old(leftExhaust) && rightExhaust == old(rightExhaust)
      ensures currentFrame == NextFrame(old(currentFrame), TurboTotalFrames)
      ensures currentFrame == (old(currentFrame) + 1) % TurboTotalFrames
      ensures timerStart == old(timerStart)
      ensures leftVisible == old(leftVisible) && rightVisible == old(rightVisible)
    {
      var lastFrame := currentFrame;
      var nextFrame := lastFrame + 1;
      if nextFrame > TurboTotalFrames - 1 {
        nextFrame := 0;
      }
      ChangeFrameMovesVisibility(leftExhaust[..], lastFrame, nextFrame);
      ChangeFrameMovesVisibility(rightExhaust[..], lastFrame, nextFrame);
      ChangeFrame(GetExhaustObject(false), lastFrame, nextFrame);
      ChangeFrame(GetExhaustObject(true), lastFrame, nextFrame);
      currentFrame := nextFrame;
    }

    /** update: once at least 0.03 s have passed on the animation timer,
        resets the timer and advances exactly one frame; before that,
        changes nothing. */
    method Update(now: real) returns (advanced: bool)
      requires Valid()
      modifies Repr
      ensures Valid() && Repr == old(Repr)
      ensures leftExhaust == old(leftExhaust) && rightExhaust == old(rightExhaust)
      ensures leftVisible == old(leftVisible) && rightVisible == old(rightVisible)
      ensures advanced <==> now - old(timerStart) >= TurboAnimationSpeed
      ensures advanced ==> timerStart == now && currentFrame == NextFrame(old(currentFrame), TurboTotalFrames)
      ensures !advanced ==> timerStart == old(timerStart) && currentFrame == old(currentFrame)
      ensures !advanced ==> leftExhaust[..] == old(leftExhaust[..]) && rightExhaust[..] == old(rightExhaust[..])
    {
      var elapsed := now - timerStart;
      if elapsed < TurboAnimationSpeed {
        return false;
      }
      timerStart := now;
      NextTurboFrame();
      advanced := true;
    }
  }
}
