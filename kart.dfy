/** The player's kart: key state, the speed and steering angle integrated
    per frame, the visual lean of the model while turning, the engine
    detune, and the parts it owns and updates every frame (tires, turbo
    exhausts, smoke). The physics engine's rigid body is outside the model:
    its ray-cast result, velocity and translation are inputs, and the
    impulses the kart would apply are outputs. */
module Vehicle {
  import opened Numeric
  import opened Utils
  import TireSprites
  import Turbo
  import Smoke
  import Flipbook

  /** Speed added per 0.03 s while accelerating. */
  const Acceleration: real := 30.0
  /** Speed taken away per 0.03 s otherwise. */
  const Deceleration: real := 8.125
  const AccelerationIncrementInterval: real := 0.03
  /** Maximum speed without turbos. */
  const SpeedBase: real := 821.25
  const TurnAngleDegree: real := 32.0
  const TurnAngleRate: real := 0.03
  const ModelRotationTurningTime: real := 0.5
  /** The largest lean of the model, in degrees. */
  const ModelRotationTurningAngle: real := 30.0
  /** Fraction of the lean rate applied by the idle adjustment. */
  const IdleRatio: real := 0.25
  const DetuneStart: real := -1100.0
  const DetuneModifier: real := 1.95
  /** Radius of the kart's ball collider. */
  const CharacterRigidBodySize: real := 0.26

  /** The steering directions. */
  const Left: int := -1
  const NoDirection: int := 0
  const Right: int := 1

  /** The speed after a frame of `deltaTime`: the per-interval acceleration
      (or deceleration) turned into a rate, times the frame time, then kept
      within [0, 821.25]. */
  function SpeedAfter(speed: real, accelerating: bool, deltaTime: real): (r: real)
    ensures 0.0 <= r <= SpeedBase
  {
    var equivalentAcceleration := Acceleration / AccelerationIncrementInterval;
    var equivalentDeceleration := Deceleration / AccelerationIncrementInterval;
    var acceleration := if accelerating then equivalentAcceleration else -equivalentDeceleration;
    Clamp(speed + acceleration * deltaTime, 0.0, SpeedBase)
  }

  /** For a non-negative frame time, accelerating adds 1000 per second up
      to the cap and never slows the kart down; otherwise 812.5/3 per second
      is taken away down to zero and the kart never speeds up. */
  lemma SpeedAfterMonotone(speed: real, accelerating: bool, deltaTime: real)
    requires 0.0 <= speed <= SpeedBase && deltaTime >= 0.0
    ensures accelerating ==> SpeedAfter(speed, accelerating, deltaTime) == Min(speed + 1000.0 * deltaTime, SpeedBase)
    ensures accelerating ==> SpeedAfter(speed, accelerating, deltaTime) >= speed
    ensures !accelerating ==> SpeedAfter(speed, accelerating, deltaTime) == Max(speed - 812.5 / 3.0 * deltaTime, 0.0)
    ensures !accelerating ==> SpeedAfter(speed, accelerating, deltaTime) <= speed
  {
    assert Acceleration / AccelerationIncrementInterval == 1000.0;
    assert Deceleration / AccelerationIncrementInterval == 812.5 / 3.0;
    MulNonneg(1000.0, deltaTime);
    MulNonneg(812.5 / 3.0, deltaTime);
  }

  /** From standstill, holding the accelerator for 0.5 s gives speed 500,
      and top speed is reached after 0.82125 s. */
  lemma SpeedFromStandstill()
    ensures SpeedAfter(0.0, true, 0.5) == 500.0
    ensures SpeedAfter(0.0, true, 0.82125) == SpeedBase
    ensures SpeedAfter(SpeedBase, true, 0.1) == SpeedBase
    ensures SpeedAfter(0.0, false, 0.1) == 0.0
  {
  }

  /** The steering direction after a key press: an arrow sets its own
      direction; other keys leave it. */
  function SteerAfterKeyDown(steer: int, key: string): (r: int)
    ensures key == "arrowleft" ==> r == Left
    ensures key == "arrowright" ==> r == Right
    ensures key != "arrowleft" && key != "arrowright" ==> r == steer
  {
    var afterLeft := if key == "arrowleft" then Left else steer;
    if key == "arrowright" then Right else afterLeft
  }

  /** The steering direction after a key release: releasing an arrow
      straightens only when that arrow is the current direction. */
  function SteerAfterKeyUp(steer: int, key: string): (r: int)
    ensures (key == "arrowleft" && steer == Left) || (key == "arrowright" && steer == Right) ==> r == NoDirection
    ensures !((key == "arrowleft" && steer == Left) || (key == "arrowright" && steer == Right)) ==> r == steer
  {
    var afterLeft := if key == "arrowleft" && steer == Left then NoDirection else steer;
    if key == "arrowright" && afterLeft == Right then NoDirection else afterLeft
  }

  /** Holding left, pressing right, then releasing left keeps steering
      right; pressing and releasing one arrow straightens. */
  lemma SteeringSequences(steer: int)
    ensures SteerAfterKeyUp(SteerAfterKeyDown(SteerAfterKeyDown(steer, "arrowleft"), "arrowright"), "arrowleft") == Right
    ensures SteerAfterKeyUp(SteerAfterKeyDown(steer, "arrowleft"), "arrowleft") == NoDirection
    ensures SteerAfterKeyUp(SteerAfterKeyDown(steer, "arrowright"), "arrowright") == NoDirection
  {
  }

  /** Releasing an arrow never turns the kart to a direction it was not
      already steering. */
  lemma KeyUpNeverTurns(steer: int, key: string)
    ensures SteerAfterKeyUp(steer, key) == steer || SteerAfterKeyUp(steer, key) == NoDirection
  {
  }

  /** The change of heading in a frame, from the speed the kart had before
      the frame's speed update: none at standstill. */
  function AngleAfter(angle: real, speed: real, steer: int, deltaTime: real): (r: real)
  {
    var rotationRate := TurnAngleDegree / TurnAngleRate;
    var angleChange := rotationRate * steer as real * deltaTime / 1000.0;
    angle - (if speed != 0.0 then angleChange else 0.0)
  }

  /** At standstill the heading is kept; moving, steering left (-1) turns
      the heading up and right turns it down, by 32/30 of the frame time. */
  lemma AngleAfterSteering(angle: real, speed: real, steer: int, deltaTime: real)
    ensures speed == 0.0 ==> AngleAfter(angle, speed, steer, deltaTime) == angle
    ensures speed != 0.0 ==> AngleAfter(angle, speed, steer, deltaTime) == angle - steer as real * deltaTime * 32.0 / 30.0
    ensures speed != 0.0 && deltaTime > 0.0 && steer == Left ==> AngleAfter(angle, speed, steer, deltaTime) > angle
    ensures speed != 0.0 && deltaTime > 0.0 && steer == Right ==> AngleAfter(angle, speed, steer, deltaTime) < angle
    ensures steer == NoDirection ==> AngleAfter(angle, speed, steer, deltaTime) == angle
  {
    assert TurnAngleDegree / TurnAngleRate == 3200.0 / 3.0;
  }

  /** The lean the model turns towards: the steering direction times 30
      degrees, only while the accelerator is held. */
  function LeanTarget(accelerating: bool, steer: int): (r: real)
    ensures -1 <= steer <= 1 ==> Abs(r) <= ModelRotationTurningAngle
    ensures !accelerating ==> r == 0.0
    ensures accelerating ==> r == steer as real * ModelRotationTurningAngle
  {
    var currentSteerDirection := if accelerating then steer else 0;
    if currentSteerDirection != 0 then currentSteerDirection as real * ModelRotationTurningAngle else 0.0
  }

  /** The rate of the lean, in degrees per second. */
  const LeanRate: real := ModelRotationTurningAngle / ModelRotationTurningTime

  /** One lean step towards `target`: at most the rate times the frame time,
      scaled up the further the lean is from its target. */
  function LeanStep(current: real, target: real, deltaTime: real): real {
    var rotationDifference := Abs(target - current);
    var scalingFactor := 1.0 + (rotationDifference / ModelRotationTurningAngle);
    var maxRotationChange := LeanRate * deltaTime * scalingFactor;
    var rotationDiff := target - current;
    current + Sign(rotationDiff) * Min(Abs(rotationDiff), maxRotationChange)
  }

  /** For a non-negative frame time the step lands between the current lean
      and the target, moves by at most 60 * dt * (1 + |target - current| / 30),
      and either reaches the target or moves by that whole amount. */
  lemma LeanStepToward(current: real, target: real, deltaTime: real)
    requires deltaTime >= 0.0
    ensures var r := LeanStep(current, target, deltaTime);
      Min(current, target) <= r <= Max(current, target) &&
      Abs(r - current) <= 60.0 * deltaTime * (1.0 + Abs(target - current) / 30.0) &&
      (r == target || Abs(r - current) == 60.0 * deltaTime * (1.0 + Abs(target - current) / 30.0))
  {
    var m := LeanRate * deltaTime * (1.0 + Abs(target - current) / ModelRotationTurningAngle);
    assert LeanRate == 60.0;
    MulNonneg(60.0 * deltaTime, 1.0 + Abs(target - current) / 30.0);
    assert m >= 0.0;
  }

  /** The idle adjustment as the kart applies it: the lean plus its own sign
      times the smaller of its magnitude and a quarter of the rate times the
      frame time. */
  function IdleAdjust(current: real, deltaTime: real): real {
    var decreaseAmount := LeanRate * deltaTime * IdleRatio;
    current + Sign(current) * Min(Abs(current), decreaseAmount)
  }

  /** The idle adjustment moves a lean away from zero, by up to 15 degrees
      per second, never past twice the lean. */
  lemma IdleAdjustAwayFromZero(current: real, deltaTime: real)
    requires deltaTime >= 0.0
    ensures Abs(IdleAdjust(current, deltaTime)) == Abs(current) + Min(Abs(current), 15.0 * deltaTime)
    ensures current != 0.0 && deltaTime > 0.0 ==> Abs(IdleAdjust(current, deltaTime)) > Abs(current)
  {
    assert LeanRate * deltaTime * IdleRatio == 15.0 * deltaTime;
  }

  /** The lean after doModelRotation: a step towards the target, clamped to
      plus or minus 30 degrees, then the idle adjustment when the kart is
      not steering under acceleration. */
  function LeanAfter(current: real, accelerating: bool, steer: int, deltaTime: real): real {
    var currentSteerDirection := if accelerating then steer else 0;
    var target := LeanTarget(accelerating, steer);
    var stepped := LeanStep(current, target, deltaTime);
    var clamped := Clamp(stepped, -ModelRotationTurningAngle, ModelRotationTurningAngle);
    if currentSteerDirection == 0 then IdleAdjust(clamped, deltaTime) else clamped
  }

  /** Without steering under acceleration, the idle step first pulls the
      lean towards zero by at least 60 * dt and then pushes it out by at most
      15 * dt, so its magnitude never grows. */
  lemma IdleLeanShrinks(current: real, deltaTime: real)
    requires deltaTime >= 0.0 && Abs(current) <= ModelRotationTurningAngle
    ensures Abs(IdleAdjust(Clamp(LeanStep(current, 0.0, deltaTime), -ModelRotationTurningAngle, ModelRotationTurningAngle), deltaTime)) <= Abs(current)
  {
    LeanStepToward(current, 0.0, deltaTime);
    var stepped := LeanStep(current, 0.0, deltaTime);
    var m := 60.0 * deltaTime * (1.0 + Abs(current) / 30.0);
    MulNonneg(60.0 * deltaTime, Abs(current) / 30.0);
    assert m >= 60.0 * deltaTime;
    assert Abs(stepped) <= Abs(current);
    assert Abs(stepped) == 0.0 || Abs(stepped) <= Abs(current) - 60.0 * deltaTime;
    var clamped := Clamp(stepped, -ModelRotationTurningAngle, ModelRotationTurningAngle);
    assert clamped == stepped;
    IdleAdjustAwayFromZero(clamped, deltaTime);
  }

  /** The idle case never grows the lean, and a lean of at most 30 degrees
      stays at most 30 degrees in every case. */
  lemma LeanAfterBounded(current: real, accelerating: bool, steer: int, deltaTime: real)
    requires deltaTime >= 0.0 && -1 <= steer <= 1
    requires Abs(current) <= ModelRotationTurningAngle
    ensures (!accelerating || steer == 0) ==> Abs(LeanAfter(current, accelerating, steer, deltaTime)) <= Abs(current)
    ensures Abs(LeanAfter(current, accelerating, steer, deltaTime)) <= ModelRotationTurningAngle
  {
    if !accelerating || steer == 0 {
      assert LeanTarget(accelerating, steer) == 0.0;
      IdleLeanShrinks(current, deltaTime);
    }
  }

  /** The engine sound's detune for a speed. */
  function EngineDetune(speed: real): (detune: real)
    ensures 0.0 <= speed <= SpeedBase ==> DetuneStart <= detune <= DetuneStart + DetuneModifier * SpeedBase
  {
    DetuneStart + (speed * DetuneModifier)
  }

  /** A faster kart has a higher engine pitch: the detune rises from -1100
      at standstill to 501.4375 at top speed. */
  lemma EngineDetuneRange(a: real, b: real)
    requires a < b
    ensures EngineDetune(a) < EngineDetune(b)
    ensures EngineDetune(0.0) == -1100.0 && EngineDetune(SpeedBase) == 501.4375
  {
  }

  class Kart {
    var isAccelerationPressed: bool
    var steerDirection: int
    var currentAngle: real
    var currentSpeed: real
    var isGround: bool
    var currentModelRotation: real
    var targetModelRotation: real
    var currentDetune: real
    var isTurboVisible: bool
    /** The kart group's position and Euler rotation. */
    var position: Vec3
    var rotation: Vec3

    var tires: TireSprites.Tires
    var turbo: Turbo.TurboExhaust
    var smokeHolder: Smoke.SmokeHolder
    ghost var Repr: set<object>

    ghost predicate Valid()
      reads this, Repr
    {
      this in Repr && tires in Repr && turbo in Repr && smokeHolder in Repr &&
      tires.Repr <= Repr && turbo.Repr <= Repr &&
      this !in tires.Repr && this !in turbo.Repr &&
      smokeHolder !in tires.Repr && smokeHolder !in turbo.Repr &&
      tires.Repr !! turbo.Repr &&
      tires.Valid() && turbo.Valid() && smokeHolder.Valid() &&
      0.0 <= currentSpeed <= SpeedBase &&
      -1 <= steerDirection <= 1 &&
      Abs(currentModelRotation) <= ModelRotationTurningAngle
    }

    /** A kart at rest, not steering, with its tires, exhausts and smoke
        holder created at clock reading `now`. */
    constructor (now: real)
      ensures Valid() && fresh(Repr)
      ensures !isAccelerationPressed && steerDirection == NoDirection
      ensures currentAngle == 0.0 && currentSpeed == 0.0 && currentModelRotation == 0.0
      ensures targetModelRotation == 0.0 && currentDetune == 0.0 && !isGround
      ensures position == Vec3(0.0, 0.0, 0.0) && rotation == Vec3(0.0, 0.0, 0.0)
      ensures isTurboVisible
      ensures smokeHolder.currentSmokes == [] && smokeHolder.spawnTimerStart == now
      ensures turbo.currentFrame == 0 && turbo.timerStart == now && !turbo.leftVisible && !turbo.rightVisible
    {
      isAccelerationPressed := false;
      steerDirection := NoDirection;
      currentAngle, currentSpeed, isGround := 0.0, 0.0, false;
      currentModelRotation, targetModelRotation, currentDetune := 0.0, 0.0, 0.0;
      isTurboVisible := true;
      position, rotation := Vec3(0.0, 0.0, 0.0), Vec3(0.0, 0.0, 0.0);
      var t := new TireSprites.Tires(now);
      var e := new Turbo.TurboExhaust(now);
      var s := new Smoke.SmokeHolder(now);
      tires, turbo, smokeHolder := t, e, s;
      Repr := {this, s} + t.Repr + e.Repr;
    }

    /** handleKeyDown: "x" presses the accelerator; an arrow sets the
        steering direction. */
    method HandleKeyDown(key: string)
      modifies this`isAccelerationPressed, this`steerDirection
      ensures isAccelerationPressed == (key == "x" || old(isAccelerationPressed))
      ensures steerDirection == SteerAfterKeyDown(old(steerDirection), key)
      ensures -1 <= old(steerDirection) <= 1 ==> -1 <= steerDirection <= 1
    {
      if key == "x" { isAccelerationPressed := true; }
      if key == "arrowleft" { steerDirection := Left; }
      if key == "arrowright" { steerDirection := Right; }
    }

    /** handleKeyUp: "x" releases the accelerator; an arrow straightens the
        kart only if it is the direction being steered. */
    method HandleKeyUp(key: string)
      modifies this`isAccelerationPressed, this`steerDirection
      ensures isAccelerationPressed == (key != "x" && old(isAccelerationPressed))
      ensures steerDirection == SteerAfterKeyUp(old(steerDirection), key)
      ensures -1 <= old(steerDirection) <= 1 ==> -1 <= steerDirection <= 1
    {
      if key == "x" { isAccelerationPressed := false; }
      if key == "arrowleft" && steerDirection == Left { steerDirection := NoDirection; }
      if key == "arrowright" && steerDirection == Right { steerDirection := NoDirection; }
    }

    /** doSpeedLogic. */
    method DoSpeedLogic(deltaTime: real)
      modifies this`currentSpeed
      ensures currentSpeed == SpeedAfter(old(currentSpeed), isAccelerationPressed, deltaTime)
    {
      var equivalentAcceleration := Acceleration / AccelerationIncrementInterval;
      var equivalentDeceleration := Deceleration / AccelerationIncrementInterval;
      var acceleration := if isAccelerationPressed then equivalentAcceleration else -equivalentDeceleration;
      var speedChange := acceleration * deltaTime;
      currentSpeed := currentSpeed + speedChange;
      currentSpeed := Min(Max(currentSpeed, 0.0), SpeedBase);
    }

    /** computePhysics. `groundHit` is whether the ray cast down from the
        body hit anything and `linvel` the body's velocity. Returns the
        forward impulse (along the kart's heading, before the heading is
        applied), whether it is applied at all, and the damping impulse. */
    method ComputePhysics(deltaTime: real, groundHit: bool, linvel: Vec3)
      returns (forwardImpulse: real, impulseApplied: bool, damping: Vec3)
      modifies this`isGround, this`currentAngle, this`currentSpeed
      ensures isGround == groundHit
      ensures currentAngle == AngleAfter(old(currentAngle), old(currentSpeed), steerDirection, deltaTime)
      ensures currentSpeed == SpeedAfter(old(currentSpeed), isAccelerationPressed, deltaTime)
      ensures forwardImpulse == currentSpeed * 0.01
      ensures impulseApplied <==> currentSpeed != 0.0
      ensures damping == Vec3(-linvel.x * 0.4, 0.0, -linvel.z * 0.4)
    {
      isGround := groundHit;

      var rotationRate := TurnAngleDegree / TurnAngleRate;
      var angleChange := rotationRate * steerDirection as real * deltaTime / 1000.0;
      currentAngle := currentAngle - (if currentSpeed != 0.0 then angleChange else 0.0);

      DoSpeedLogic(deltaTime);

      forwardImpulse := currentSpeed * 0.01;
      impulseApplied := Abs(forwardImpulse) > 0.0;
      damping := Vec3(-linvel.x * 0.4, 0.0, -linvel.z * 0.4);
    }

    /** doKartSound, without the audio: the detune follows the speed. */
    method DoKartSound()
      modifies this`currentDetune
      ensures currentDetune == EngineDetune(currentSpeed)
    {
      currentDetune := DetuneStart + (currentSpeed * DetuneModifier);
    }

    /** doModelRotation: sets the lean target and moves the lean. The model,
        tires, exhausts, shadow and smoke holder all take this lean as
        their rotation. */
    method DoModelRotation(deltaTime: real)
      modifies this`currentModelRotation, this`targetModelRotation
      ensures targetModelRotation == LeanTarget(isAccelerationPressed, steerDirection)
      ensures currentModelRotation == LeanAfter(old(currentModelRotation), isAccelerationPressed, steerDirection, deltaTime)
      ensures deltaTime >= 0.0 && -1 <= steerDirection <= 1 && Abs(old(currentModelRotation)) <= ModelRotationTurningAngle ==>
        Abs(currentModelRotation) <= ModelRotationTurningAngle
    {
      ghost var start := currentModelRotation;
      var currentSteerDirection := if isAccelerationPressed then steerDirection else 0;
      targetModelRotation := LeanTarget(isAccelerationPressed, steerDirection);

      currentModelRotation := LeanStep(currentModelRotation, targetModelRotation, deltaTime);

      currentModelRotation := Clamp(currentModelRotation, -ModelRotationTurningAngle, ModelRotationTurningAngle);

      if currentSteerDirection == 0 {
        currentModelRotation := IdleAdjust(currentModelRotation, deltaTime);
      }

      if deltaTime >= 0.0 && -1 <= steerDirection <= 1 && Abs(start) <= ModelRotationTurningAngle {
        LeanAfterBounded(start, isAccelerationPressed, steerDirection, deltaTime);
      }
    }

    /** copyPhysicsPositionsToObject3D: the kart stands on the ground under
        the centre of its ball collider and faces its heading. */
    method CopyPhysicsPositionsToObject3D(bodyTranslation: Vec3)
      modifies this`position, this`rotation
      ensures position == Vec3(bodyTranslation.x, bodyTranslation.y - CharacterRigidBodySize, bodyTranslation.z)
      ensures rotation == Vec3(0.0, currentAngle, 0.0)
    {
      position := Vec3(bodyTranslation.x, bodyTranslation.y - CharacterRigidBodySize, bodyTranslation.z);
      rotation := Vec3(0.0, currentAngle, 0.0);
    }

    /** update: physics, lean, sound, copy from physics, then the tires, the
        turbo exhausts when visible, and the smoke. The frame's clock
        reading `now`, the physics engine's answers, the tires' views of
        the camera and the random draws are inputs. */
    method Update(deltaTime: real, now: real, groundHit: bool, linvel: Vec3, bodyTranslation: Vec3,
                  views: seq<TireSprites.CameraView>, randomSpeed: int, coin: real, spreads: seq<real>)
      returns (forwardImpulse: real, impulseApplied: bool, damping: Vec3)
      requires Valid() && deltaTime >= 0.0 && |views| == 4
      requires 1 <= randomSpeed <= 2 && 0.0 <= coin < 1.0
      requires |spreads| == |smokeHolder.currentSmokes| + 2 && Smoke.SpreadsInRange(spreads)
      modifies Repr
      ensures Valid() && Repr == old(Repr)
      ensures currentSpeed == SpeedAfter(old(currentSpeed), isAccelerationPressed, deltaTime)
      ensures currentAngle == AngleAfter(old(currentAngle), old(currentSpeed), steerDirection, deltaTime)
      ensures currentModelRotation == LeanAfter(old(currentModelRotation), isAccelerationPressed, steerDirection, deltaTime)
      ensures currentDetune == EngineDetune(currentSpeed)
      ensures position == Vec3(bodyTranslation.x, bodyTranslation.y - CharacterRigidBodySize, bodyTranslation.z)
      ensures rotation == Vec3(0.0, currentAngle, 0.0) && isGround == groundHit
      ensures forwardImpulse == currentSpeed * 0.01 && (impulseApplied <==> currentSpeed != 0.0)
      ensures damping == Vec3(-linvel.x * 0.4, 0.0, -linvel.z * 0.4)
      ensures isAccelerationPressed == old(isAccelerationPressed) && steerDirection == old(steerDirection)
      ensures isTurboVisible == old(isTurboVisible)
      ensures tires == old(tires) && turbo == old(turbo) && smokeHolder == old(smokeHolder)
      ensures tires.colorTimerStart == old(tires.colorTimerStart)
      ensures forall i :: 0 <= i < 4 ==>
        var s := TireSprites.SelectTireSprite(views[i]);
        tires.materials[i].Window() == SpriteWindow(TireSprites.TireSheet, s.frameIndex, s.isMirror) &&
        tires.materials[i].rotationDegrees == s.rotationDegree &&
        tires.materials[i].color == TireSprites.TireColor(now - tires.colorTimerStart, currentSpeed)
      ensures isTurboVisible && now - old(turbo.timerStart) >= Turbo.TurboAnimationSpeed ==>
        turbo.timerStart == now && turbo.currentFrame == Flipbook.NextFrame(old(turbo.currentFrame), Turbo.TurboTotalFrames)
      ensures !(isTurboVisible && now - old(turbo.timerStart) >= Turbo.TurboAnimationSpeed) ==>
        turbo.timerStart == old(turbo.timerStart) && turbo.currentFrame == old(turbo.currentFrame)
      ensures turbo.leftVisible == old(turbo.leftVisible) && turbo.rightVisible == old(turbo.rightVisible)
      ensures |smokeHolder.currentSmokes| <= old(|smokeHolder.currentSmokes|) + 2
      ensures now - old(smokeHolder.spawnTimerStart) < Smoke.SmokeSpawnInterval ==>
        smokeHolder.spawnTimerStart == old(smokeHolder.spawnTimerStart) &&
        smokeHolder.currentSmokes == Smoke.Pass(old(smokeHolder.currentSmokes), 0, now, spreads[..old(|smokeHolder.currentSmokes|)])
      ensures now - old(smokeHolder.spawnTimerStart) >= Smoke.SmokeSpawnInterval ==>
        smokeHolder.spawnTimerStart == now &&
        smokeHolder.currentSmokes == Smoke.Pass(old(smokeHolder.currentSmokes) +
          Smoke.SpawnPair(old(smokeHolder.nextId), if coin < 0.5 then -randomSpeed else randomSpeed, now), 0, now, spreads)
    {
      forwardImpulse, impulseApplied, damping := UpdateMotion(deltaTime, groundHit, linvel, bodyTranslation);
      UpdateEffects(now, views, randomSpeed, coin, spreads);
    }

    /** The first half of update: physics, lean, sound and the copy from
        physics, all on the kart's own fields. */
    method UpdateMotion(deltaTime: real, groundHit: bool, linvel: Vec3, bodyTranslation: Vec3)
      returns (forwardImpulse: real, impulseApplied: bool, damping: Vec3)
      requires Valid() && deltaTime >= 0.0
      modifies this`isGround, this`currentAngle, this`currentSpeed, this`currentModelRotation,
        this`targetModelRotation, this`currentDetune, this`position, this`rotation
      ensures Valid() && isGround == groundHit
      ensures forwardImpulse == currentSpeed * 0.01 && (impulseApplied <==> currentSpeed != 0.0)
      ensures damping == Vec3(-linvel.x * 0.4, 0.0, -linvel.z * 0.4)
      ensures currentSpeed == SpeedAfter(old(currentSpeed), isAccelerationPressed, deltaTime)
      ensures currentAngle == AngleAfter(old(currentAngle), old(currentSpeed), steerDirection, deltaTime)
      ensures currentModelRotation == LeanAfter(old(currentModelRotation), isAccelerationPressed, steerDirection, deltaTime)
      ensures currentDetune == EngineDetune(currentSpeed)
      ensures position == Vec3(bodyTranslation.x, bodyTranslation.y - CharacterRigidBodySize, bodyTranslation.z)
      ensures rotation == Vec3(0.0, currentAngle, 0.0)
    {
      forwardImpulse, impulseApplied, damping := ComputePhysics(deltaTime, groundHit, linvel);
      DoModelRotation(deltaTime);
      DoKartSound();
      CopyPhysicsPositionsToObject3D(bodyTranslation);
    }

    /** The second half of update: the tires, the turbo exhausts when
        visible, and the smoke, each in its own frame. */
    method UpdateEffects(now: real, views: seq<TireSprites.CameraView>, randomSpeed: int, coin: real, spreads: seq<real>)
      requires Valid() && |views| == 4
      requires 1 <= randomSpeed <= 2 && 0.0 <= coin < 1.0
      requires |spreads| == |smokeHolder.currentSmokes| + 2 && Smoke.SpreadsInRange(spreads)
      modifies tires.Repr, turbo.Repr, smokeHolder
      ensures Valid()
      ensures tires.Repr == old(tires.Repr) && turbo.Repr == old(turbo.Repr)
      ensures tires.colorTimerStart == old(tires.colorTimerStart)
      ensures forall i :: 0 <= i < 4 ==>
        var s := TireSprites.SelectTireSprite(views[i]);
        tires.materials[i].Window() == SpriteWindow(TireSprites.TireSheet, s.frameIndex, s.isMirror) &&
        tires.materials[i].rotationDegrees == s.rotationDegree &&
        tires.materials[i].color == TireSprites.TireColor(now - tires.colorTimerStart, currentSpeed)
      ensures isTurboVisible && now - old(turbo.timerStart) >= Turbo.TurboAnimationSpeed ==>
        turbo.timerStart == now && turbo.currentFrame == Flipbook.NextFrame(old(turbo.currentFrame), Turbo.TurboTotalFrames)
      ensures !(isTurboVisible && now - old(turbo.timerStart) >= Turbo.TurboAnimationSpeed) ==>
        turbo.timerStart == old(turbo.timerStart) && turbo.currentFrame == old(turbo.currentFrame)
      ensures turbo.leftVisible == old(turbo.leftVisible) && turbo.rightVisible == old(turbo.rightVisible)
      ensures |smokeHolder.currentSmokes| <= old(|smokeHolder.currentSmokes|) + 2
      ensures now - old(smokeHolder.spawnTimerStart) < Smoke.SmokeSpawnInterval ==>
        smokeHolder.spawnTimerStart == old(smokeHolder.spawnTimerStart) &&
        smokeHolder.currentSmokes == Smoke.Pass(old(smokeHolder.currentSmokes), 0, now, spreads[..old(|smokeHolder.currentSmokes|)])
      ensures now - old(smokeHolder.spawnTimerStart) >= Smoke.SmokeSpawnInterval ==>
        smokeHolder.spawnTimerStart == now &&
        smokeHolder.currentSmokes == Smoke.Pass(old(smokeHolder.currentSmokes) +
          Smoke.SpawnPair(old(smokeHolder.nextId), if coin < 0.5 then -randomSpeed else randomSpeed, now), 0, now, spreads)
    {
      tires.Update(now, currentSpeed, views);
      if isTurboVisible {
        var _ := turbo.Update(now);
      }
      smokeHolder.Update(now, randomSpeed, coin, spreads);
    }
  }
}
