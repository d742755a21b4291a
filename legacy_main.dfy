/** The first, single-file iteration of the game loop: module-level state
    driven by key events, an integer speed model ticked at most once every
    0.03 s, the engine detune, and a turbo flipbook template whose current
    frame lives in the group's user data. */
module LegacyMain {
  import opened Flipbook

  /** Speed added per accepted tick while accelerating. */
  const Acceleration: int := 480
  /** Speed taken away per accepted tick otherwise. */
  const Deacceleration: int := 130
  /** Minimum clock time (seconds) between two accepted ticks. */
  const AccelerationIncrementInterval: real := 0.03
  /** Maximum speed without turbos. */
  const SpeedBase: int := 13140
  const DetuneStart: real := -1100.0
  const DetuneModifier: real := 0.12

  /** The speed after one accepted tick: plus 480 or minus 130, then
      clamped into [0, 13140]. */
  function TickSpeed(speed: int, accelerating: bool): (r: int)
    ensures 0 <= r <= SpeedBase
  {
    var newSpeed := speed + (if accelerating then Acceleration else -Deacceleration);
    if newSpeed > SpeedBase then SpeedBase
    else if newSpeed < 0 then 0
    else newSpeed
  }

  /** Within the bounds, a tick accelerating moves the speed up by 480 or
      to the cap, and a tick not accelerating moves it down by 130 or to
      zero. */
  lemma TickSpeedApproach(speed: int, accelerating: bool)
    requires 0 <= speed <= SpeedBase
    ensures accelerating ==> TickSpeed(speed, accelerating) >= speed
    ensures accelerating && speed < SpeedBase ==> TickSpeed(speed, accelerating) > speed
    ensures accelerating ==> TickSpeed(speed, accelerating) == if speed + 480 <= SpeedBase then speed + 480 else SpeedBase
    ensures !accelerating ==> TickSpeed(speed, accelerating) <= speed
    ensures !accelerating && speed > 0 ==> TickSpeed(speed, accelerating) < speed
    ensures !accelerating ==> TickSpeed(speed, accelerating) == if speed >= 130 then speed - 130 else 0
  {
  }

  /** The speed after n accepted ticks with the same key state. */
  function TicksSpeed(speed: int, accelerating: bool, n: nat): (r: int)
    ensures n > 0 ==> 0 <= r <= SpeedBase
  {
    if n == 0 then speed else TickSpeed(TicksSpeed(speed, accelerating, n - 1), accelerating)
  }

  /** Holding the accelerator from standstill: 480 per tick for 27 ticks,
      then the 28th tick reaches the cap exactly and it holds there. */
  lemma {:induction false} AccelerateFromStandstill(n: nat)
    ensures n <= 27 ==> TicksSpeed(0, true, n) == 480 * n
    ensures n >= 28 ==> TicksSpeed(0, true, n) == SpeedBase
  {
    if n > 0 {
      AccelerateFromStandstill(n - 1);
    }
  }

  /** The worked examples: ten held ticks give 4800, and one released tick
      from 4800 gives 4670. */
  lemma SpeedScenarios()
    ensures TicksSpeed(0, true, 10) == 4800
    ensures TicksSpeed(0, true, 28) == SpeedBase
    ensures TickSpeed(4800, false) == 4670
  {
    AccelerateFromStandstill(10);
    AccelerateFromStandstill(28);
  }

  /** The engine sound's detune for a speed. */
  function EngineDetune(speed: int): (detune: real)
    ensures 0 <= speed <= SpeedBase ==> DetuneStart <= detune <= DetuneStart + DetuneModifier * SpeedBase as real
  {
    DetuneStart + speed as real * DetuneModifier
  }

  /** A faster kart has a higher engine pitch. */
  lemma EngineDetuneIncreasing(a: int, b: int)
    requires a < b
    ensures EngineDetune(a) < EngineDetune(b)
  {
  }

  /** The module-level state of the game loop. */
  class GameState {
    var isAccelerating: bool
    var currentSpeed: int
    var targetSpeed: int
    var lastSpeedLogicTime: real
    var currentDetune: real
    var isSoundEnabled: bool
    var isSmokeDark: bool
    var isSmokeVisible: bool

    ghost predicate Valid()
      reads this
    {
      0 <= currentSpeed <= SpeedBase && (targetSpeed == 0 || targetSpeed == SpeedBase)
    }

    constructor ()
      ensures Valid()
      ensures !isAccelerating && currentSpeed == 0 && targetSpeed == 0 && lastSpeedLogicTime == 0.0
      ensures currentDetune == 0.0 && !isSoundEnabled && !isSmokeDark && isSmokeVisible
    {
      isAccelerating, currentSpeed, targetSpeed, lastSpeedLogicTime := false, 0, 0, 0.0;
      currentDetune := 0.0;
      isSoundEnabled, isSmokeDark, isSmokeVisible := false, false, true;
    }

    /** onKeyDown: "s", "b" and "n" toggle sound, dark smoke and smoke
        visibility; space presses the accelerator; every other key leaves
        this state alone. */
    method OnKeyDown(key: string)
      modifies this
      ensures isAccelerating == (key == " " || old(isAccelerating))
      ensures isSoundEnabled == (if key == "s" then !old(isSoundEnabled) else old(isSoundEnabled))
      ensures isSmokeDark == (if key == "b" then !old(isSmokeDark) else old(isSmokeDark))
      ensures isSmokeVisible == (if key == "n" then !old(isSmokeVisible) else old(isSmokeVisible))
      ensures currentSpeed == old(currentSpeed) && targetSpeed == old(targetSpeed)
      ensures lastSpeedLogicTime == old(lastSpeedLogicTime) && currentDetune == old(currentDetune)
    {
      if key == "s" { isSoundEnabled := !isSoundEnabled; }
      if key == "v" { return; }
      if key == "b" { isSmokeDark := !isSmokeDark; }
      if key == "n" { isSmokeVisible := !isSmokeVisible; }
      if key == " " { isAccelerating := true; }
    }

    /** onKeyUp: releasing space releases the accelerator. */
    method OnKeyUp(key: string)
      modifies this
      ensures isAccelerating == (key != " " && old(isAccelerating))
      ensures currentSpeed == old(currentSpeed) && targetSpeed == old(targetSpeed)
      ensures lastSpeedLogicTime == old(lastSpeedLogicTime) && currentDetune == old(currentDetune)
      ensures isSoundEnabled == old(isSoundEnabled) && isSmokeDark == old(isSmokeDark)
      ensures isSmokeVisible == old(isSmokeVisible)
    {
      if key == " " { isAccelerating := false; }
    }

    /** doSpeedLogic: ignored until 0.03 s of clock time have passed since
        the last accepted tick; an accepted tick records the time, sets the
        target speed from the accelerator and moves the speed one tick. */
    method DoSpeedLogic(elapsedClock: real)
      requires Valid()
      modifies this
      ensures Valid()
      ensures elapsedClock - old(lastSpeedLogicTime) < AccelerationIncrementInterval ==>
        currentSpeed == old(currentSpeed) && targetSpeed == old(targetSpeed) &&
        lastSpeedLogicTime == old(lastSpeedLogicTime)
      ensures elapsedClock - old(lastSpeedLogicTime) >= AccelerationIncrementInterval ==>
        lastSpeedLogicTime == elapsedClock &&
        targetSpeed == (if isAccelerating then SpeedBase else 0) &&
        currentSpeed == TickSpeed(old(currentSpeed), isAccelerating)
      ensures isAccelerating == old(isAccelerating) && currentDetune == old(currentDetune)
      ensures isSoundEnabled == old(isSoundEnabled) && isSmokeDark == old(isSmokeDark)
      ensures isSmokeVisible == old(isSmokeVisible)
    {
      if elapsedClock - lastSpeedLogicTime < AccelerationIncrementInterval {
        return;
      }
      lastSpeedLogicTime := elapsedClock;

      if isAccelerating {
        targetSpeed := SpeedBase;
      } else {
        targetSpeed := 0;
      }

      var newSpeed := if isAccelerating then Acceleration else -Deacceleration;
      currentSpeed := currentSpeed + newSpeed;

      if currentSpeed > SpeedBase {
        currentSpeed := SpeedBase;
      } else if currentSpeed < 0 {
        currentSpeed := 0;
      }
    }

    /** doKartSound, without the audio: the detune follows the speed. */
    method DoKartSound()
      modifies this`currentDetune
      ensures currentDetune == EngineDetune(currentSpeed)
    {
      currentDetune := DetuneStart + (currentSpeed as real * DetuneModifier);
    }
  }

  /** A turbo flipbook group built by createTurboTemplate: the frames'
      `visible` flags and, as user data, the current frame. */
  class TurboTemplate {
    var children: array<bool>
    var currentFrame: nat

    ghost predicate Valid()
      reads this, children
    {
      ExactlyOneVisible(children[..], currentFrame)
    }

    /** createTurboTemplate: every loaded frame but the first hidden, the
        current frame 0. */
    constructor (frameCount: nat)
      ensures fresh(children) && children.Length == frameCount && currentFrame == 0
      ensures frameCount > 0 ==> Valid()
    {
      var frames := CreateFrames(frameCount);
      children := frames;
      currentFrame := 0;
    }

    /** nextTurboFrame: the next frame of the cycle becomes the one visible
        frame. */
    method NextTurboFrame()
      requires Valid()
      modifies this, children
      ensures Valid() && children == old(children)
      ensures currentFrame == (old(currentFrame) + 1) % children.Length
      ensures children[..] == old(children[..])[old(currentFrame) := false][currentFrame := true]
    {
      var lastFrame := currentFrame;
      ChangeFrameMovesVisibility(children[..], lastFrame, NextFrame(lastFrame, children.Length));
      currentFrame := currentFrame + 1;
      if currentFrame > children.Length - 1 {
        currentFrame := 0;
        children[lastFrame] := false;
      }
      children[lastFrame] := false;
      children[currentFrame] := true;
    }
  }
}
