/** The kart's four billboard tires. Each tire shows one frame of a
    17-frame sprite strip chosen from the angles between the tire and the
    camera (the angles themselves come from the scene's trigonometry and
    are inputs here), mirrored when seen from behind, and rotated to the
    camera's roll in steps of 8.5 degrees. All four tires flash between two
    colours at a rate proportional to the kart's speed. */
module TireSprites {
  import opened Numeric
  import opened Utils

  const TireTotalFrames: int := 17
  /** The tire sheet: 17 frames of 32x32 pixels in a 544x32 strip. */
  const TireSheet: SpriteSheet := SpriteSheet(17, 32.0, 32.0, 544.0, 32.0)
  const TireScale: real := 0.5
  const TirePositionOffsetY: real := 0.25
  const TirePositionOffsetBackX: real := 0.575
  const TirePositionOffsetFrontX: real := 0.575
  const TirePositionOffsetBackZ: real := 0.4
  const TirePositionOffsetFrontZ: real := 0.8
  /** Milliseconds per colour frame at full speed. */
  const TireFrameChangeRate: real := 3.0
  const TireFrame1Color: int := 0xffffff
  const TireFrame2Color: int := 0xbfbfbf
  /** The kart's top speed without turbos, the unit of the colour rate. */
  const KartSpeedBase: real := 821.25

  /** The positions of the tires: back right, front right, back left,
      front left. The left tires are the right tires mirrored in x. */
  function TirePositions(): (positions: seq<Vec3>)
    ensures |positions| == 4
    ensures forall i :: 0 <= i < 2 ==>
      positions[i + 2] == Vec3(-positions[i].x, positions[i].y, positions[i].z)
    ensures positions[0].z < 0.0 < positions[1].z && positions[0].x < 0.0
  {
    [Vec3(-TirePositionOffsetBackX, TirePositionOffsetY, -TirePositionOffsetBackZ),
     Vec3(-TirePositionOffsetFrontX, TirePositionOffsetY, TirePositionOffsetFrontZ),
     Vec3(TirePositionOffsetBackX, TirePositionOffsetY, -TirePositionOffsetBackZ),
     Vec3(TirePositionOffsetFrontX, TirePositionOffsetY, TirePositionOffsetFrontZ)]
  }

  /** The tire is seen from behind (and the frame mirrored) when the
      horizontal angle to the camera is beyond 90 degrees either way. */
  function IsMirror(angleToCameraX: real): bool {
    angleToCameraX < -90.0 || angleToCameraX > 90.0
  }

  /** The frame for the horizontal angle to the camera, before the height
      correction: 17 frames per quarter turn, mirrored across the axes. An
      angle that matches none of the four ranges (exactly -90, or +-180 and
      beyond) leaves frame 0. */
  function FrameFromAngleX(angleX: real): (frame: int)
    ensures 0 <= frame <= TireTotalFrames
  {
    var n := TireTotalFrames as real;
    if angleX >= 0.0 && angleX <= 90.0 then (n - (angleX / 90.0) * n).Floor
    else if angleX > -90.0 && angleX < 0.0 then (n - (-angleX / 90.0) * n).Floor
    else if angleX > -180.0 && angleX < -90.0 then (n - ((180.0 + angleX) / 90.0) * n).Floor
    else if angleX > 90.0 && angleX < 180.0 then (n - ((180.0 - angleX) / 90.0) * n).Floor
    else 0
  }

  /** The frame is scaled down as the camera rises above or sinks below the
      tire, to 0 when it looks straight down or up. */
  function HeightScaledFrame(frame: int, angleY: real): (r: int)
    ensures 0 <= frame && -90.0 <= angleY <= 90.0 ==> 0 <= r <= frame
  {
    var heightFactor := (angleY + 90.0) / 180.0;
    var scale := 1.0 - Abs(heightFactor - 0.5) * 2.0;
    assert -90.0 <= angleY <= 90.0 ==> 0.0 <= scale <= 1.0;
    if 0 <= frame && -90.0 <= angleY <= 90.0 then
      MulUnitBound(frame as real, scale);
      (frame as real * scale).Floor
    else
      (frame as real * scale).Floor
  }

  lemma MulUnitBound(a: real, s: real)
    requires a >= 0.0 && 0.0 <= s <= 1.0
    ensures 0.0 <= a * s <= a
  {
    MulNonneg(a, s);
    MulNonneg(a, 1.0 - s);
  }

  /** The sprite's roll: 180 degrees minus the camera's relative roll,
      rounded to a multiple of half the frame count. */
  function TireRotationDegree(relativeCameraRotationZ: real): real {
    ClosestStepValue(180.0 - relativeCameraRotationZ, TireTotalFrames as real / 2.0)
  }

  /** The angles between one tire and the camera, in degrees. */
  datatype CameraView = CameraView(angleToCameraX: real, angleToCameraY: real, relativeCameraRotationZ: real)

  /** What changeTireSpriteBasedOnCamera shows on one tire. */
  datatype TireSprite = TireSprite(frameIndex: int, isMirror: bool, rotationDegree: real)

  /** The frame, mirroring and roll chosen for a view. */
  function SelectTireSprite(view: CameraView): (s: TireSprite)
    ensures -90.0 <= view.angleToCameraY <= 90.0 ==> 0 <= s.frameIndex <= TireTotalFrames
    ensures s.frameIndex <= FrameFromAngleX(view.angleToCameraX) || view.angleToCameraY < -90.0 || view.angleToCameraY > 90.0
    ensures s.isMirror <==> view.angleToCameraX < -90.0 || view.angleToCameraX > 90.0
  {
    TireSprite(
      HeightScaledFrame(FrameFromAngleX(view.angleToCameraX), view.angleToCameraY),
      IsMirror(view.angleToCameraX),
      TireRotationDegree(view.relativeCameraRotationZ))
  }

  /** Facing the camera side-on gives the full 17, end-on gives 0; the
      angles no range matches give 0 as well. */
  lemma FrameAtLandmarks()
    ensures FrameFromAngleX(0.0) == 17
    ensures FrameFromAngleX(45.0) == 8
    ensures FrameFromAngleX(90.0) == 0 && FrameFromAngleX(-90.0) == 0
    ensures FrameFromAngleX(180.0) == 0 && FrameFromAngleX(-180.0) == 0
    ensures FrameFromAngleX(179.0) == 16
  {
    assert (17.0 - (45.0 / 90.0) * 17.0) == 8.5;
    assert (17.0 - ((180.0 - 179.0) / 90.0) * 17.0) == 17.0 - 17.0 / 90.0;
  }

  /** For an angle in [0, 90] the frame is floor(17 - angle/90 * 17). */
  lemma FrameQuarterTurn(angleX: real)
    requires 0.0 <= angleX <= 90.0
    ensures FrameFromAngleX(angleX) == (17.0 - angleX / 90.0 * 17.0).Floor
  {
  }

  /** The frame does not depend on the side the camera is on. */
  lemma FrameSymmetricInSign(angleX: real)
    ensures FrameFromAngleX(angleX) == FrameFromAngleX(-angleX)
  {
  }

  /** Inside the open half turn, the back view uses the same frame as the
      front view it mirrors. */
  lemma FrameSymmetricFrontBack(angleX: real)
    requires 0.0 < angleX < 180.0
    ensures FrameFromAngleX(angleX) == FrameFromAngleX(180.0 - angleX)
    ensures angleX != 90.0 ==> IsMirror(angleX) != IsMirror(180.0 - angleX)
  {
  }

  /** Turning the tire away from side-on never shows a larger frame. */
  lemma FrameMonotone(a: real, b: real)
    requires 0.0 <= a <= b <= 90.0
    ensures FrameFromAngleX(a) >= FrameFromAngleX(b)
  {
    var x, y := 17.0 - a / 90.0 * 17.0, 17.0 - b / 90.0 * 17.0;
    assert y <= x;
    FloorMonotone(y, x);
  }

  lemma FloorMonotone(x: real, y: real)
    requires x <= y
    ensures x.Floor <= y.Floor
  {
  }

  /** Looking straight down or up shows frame 0; level with the tire the
      height correction keeps the frame. */
  lemma HeightScaledFrameEnds(frame: nat)
    ensures HeightScaledFrame(frame, 90.0) == 0
    ensures HeightScaledFrame(frame, -90.0) == 0
    ensures HeightScaledFrame(frame, 0.0) == frame
  {
  }

  /** The roll is a multiple of 8.5 degrees, within 4.25 of the exact
      value. */
  lemma TireRotationStep(relativeCameraRotationZ: real)
    ensures var r := TireRotationDegree(relativeCameraRotationZ);
      (r / 8.5).Floor as real == r / 8.5 && Abs(r - (180.0 - relativeCameraRotationZ)) <= 4.25
  {
    ClosestStepValueNearest(180.0 - relativeCameraRotationZ, 8.5);
  }

  /** On the tire sheet, frames 0..16 sit at i/17 across the one row; frame
      17 (a tire side-on to the camera) falls off the strip: its row offset
      is -1. */
  lemma TireSheetWindows(i: nat)
    requires i < 17
    ensures SpriteWindow(TireSheet, i, false).offsetX == i as real / 17.0
    ensures SpriteWindow(TireSheet, i, false).offsetY == 0.0
    ensures SpriteWindow(TireSheet, 17, false).offsetX == 0.0
    ensures SpriteWindow(TireSheet, 17, false).offsetY == -1.0
  {
    SpriteStripFrame(TireSheet, i);
    SpriteWindowRowColumn(TireSheet, 1, 0);
  }

  /** The colour of all four tires after `elapsed` seconds on the colour
      timer at speed `speed`. The colour period is 3 ms scaled by the
      fraction of top speed; at speed 0 the period is infinite, so the
      elapsed count of periods is 0 and the first colour shows. */
  function TireColor(elapsed: real, speed: real): (color: int)
    ensures color == TireFrame1Color || color == TireFrame2Color
  {
    if speed == 0.0 then TireFrame1Color
    else
      var frameDuration := TireFrameChangeRate / (speed / KartSpeedBase);
      var currentTimeMS := elapsed * 1000.0;
      if (currentTimeMS / frameDuration).Floor % 2 == 0 then TireFrame1Color else TireFrame2Color
  }

  /** Moving, the first colour shows exactly when the number of whole
      periods elapsed, ms * speed / (3 * 821.25), is even. */
  lemma TireColorParity(elapsed: real, speed: real)
    requires speed > 0.0
    ensures TireColor(elapsed, speed) == TireFrame1Color <==>
      (elapsed * 1000.0 * speed / (TireFrameChangeRate * KartSpeedBase)).Floor % 2 == 0
  {
    var ms := elapsed * 1000.0;
    var periods := ms / (TireFrameChangeRate / (speed / KartSpeedBase));
    PeriodsElapsed(ms, speed);
    assert TireColor(elapsed, speed) == if periods.Floor % 2 == 0 then TireFrame1Color else TireFrame2Color;
    assert periods == elapsed * 1000.0 * speed / (TireFrameChangeRate * KartSpeedBase);
  }

  /** The number of colour periods in `ms` milliseconds at speed `speed`. */
  lemma PeriodsElapsed(ms: real, speed: real)
    requires speed > 0.0
    ensures ms / (TireFrameChangeRate / (speed / KartSpeedBase)) == ms * speed / (TireFrameChangeRate * KartSpeedBase)
  {
    DivByQuotient(TireFrameChangeRate, speed, KartSpeedBase);
    DivByQuotient(ms, TireFrameChangeRate * KartSpeedBase, speed);
  }

  lemma DivByQuotient(a: real, b: real, c: real)
    requires b != 0.0 && c != 0.0
    ensures a / (b / c) == (a * c) / b
  {
    var t := b / c;
    assert t * c == b;
    var x := a / t;
    assert x * t == a;
    assert x * b == a * c by {
      assert x * b == x * (t * c);
      assert x * (t * c) == (x * t) * c;
    }
  }

  /** The tire group: the four tire sprites' materials, their positions and
      the colour timer. */
  class Tires {
    var materials: seq<SpriteMaterial>
    var positions: seq<Vec3>
    /** The colour timer: the clock reading (seconds) it was started at. */
    var colorTimerStart: real
    ghost var Repr: set<object>

    ghost predicate Valid()
      reads this
    {
      Repr == {this} + (set m | m in materials :: m as object) &&
      |materials| == 4 && |positions| == 4 &&
      (forall i :: 0 <= i < 4 ==> materials[i] in Repr) &&
      (forall i, j :: 0 <= i < j < 4 ==> materials[i] != materials[j])
    }

    /** initialize: four tires at the four positions, each showing frame 0
        of the sheet; the colour timer starts at `now`. */
    constructor (now: real)
      ensures Valid() && fresh(Repr)
      ensures positions == TirePositions() && colorTimerStart == now
      ensures forall i :: 0 <= i < 4 ==> materials[i].Window() == SpriteWindow(TireSheet, 0, false)
    {
      var created: seq<SpriteMaterial> := [];
      var i := 0;
      while i < 4
        invariant 0 <= i <= 4 && |created| == i
        invariant forall k :: 0 <= k < i ==> fresh(created[k])
        invariant forall k, l :: 0 <= k < l < i ==> created[k] != created[l]
        invariant forall k :: 0 <= k < i ==> created[k].Window() == SpriteWindow(TireSheet, 0, false)
      {
        var tire := new SpriteMaterial();
        SetSpriteFrame(tire, TireSheet, 0, false, 0.0);
        created := created + [tire];
        i := i + 1;
      }
      assert forall k :: 0 <= k < 4 ==> created[k] in created;
      materials := created;
      positions := TirePositions();
      colorTimerStart := now;
      Repr := {this} + (set m | m in created :: m as object);
    }

    /** updateKartTireFrames: every tire shows the frame, mirroring and roll
        chosen for its own view of the camera. */
    method UpdateKartTireFrames(views: seq<CameraView>)
      requires Valid() && |views| == 4
      modifies Repr
      ensures Valid() && Repr == old(Repr) && materials == old(materials)
      ensures positions == old(positions) && colorTimerStart == old(colorTimerStart)
      ensures forall i :: 0 <= i < 4 ==>
        var s := SelectTireSprite(views[i]);
        materials[i].Window() == SpriteWindow(TireSheet, s.frameIndex, s.isMirror) &&
        materials[i].rotationDegrees == s.rotationDegree &&
        materials[i].color == old(materials[i].color)
    {
      var i := 0;
      while i < 4
        invariant 0 <= i <= 4 && Valid()
        invariant materials == old(materials) && positions == old(positions)
        invariant colorTimerStart == old(colorTimerStart) && Repr == old(Repr)
        invariant forall k :: 0 <= k < i ==>
          var s := SelectTireSprite(views[k]);
          materials[k].Window() == SpriteWindow(TireSheet, s.frameIndex, s.isMirror) &&
          materials[k].rotationDegrees == s.rotationDegree
        invariant forall k :: 0 <= k < 4 ==> materials[k].color == old(materials[k].color)
      {
        var s := SelectTireSprite(views[i]);
        SetSpriteFrame(materials[i], TireSheet, s.frameIndex, s.isMirror, s.rotationDegree);
        i := i + 1;
      }
    }

    /** doTireColorChange: all four tires take the same colour, the one
        for the colour timer's elapsed time at speed `speed`. */
    method DoTireColorChange(now: real, speed: real)
      requires Valid()
      modifies Repr
      ensures Valid() && Repr == old(Repr) && materials == old(materials)
      ensures positions == old(positions) && colorTimerStart == old(colorTimerStart)
      ensures forall i :: 0 <= i < 4 ==>
        materials[i].color == TireColor(now - colorTimerStart, speed) &&
        materials[i].Window() == old(materials[i].Window()) &&
        materials[i].rotationDegrees == old(materials[i].rotationDegrees)
    {
      var selectedFrame := TireColor(now - colorTimerStart, speed);
      var i := 0;
      while i < 4
        invariant 0 <= i <= 4 && Valid()
        invariant materials == old(materials) && positions == old(positions)
        invariant colorTimerStart == old(colorTimerStart) && Repr == old(Repr)
        invariant forall k :: 0 <= k < i ==> materials[k].color == selectedFrame
        invariant forall k :: 0 <= k < 4 ==>
          materials[k].Window() == old(materials[k].Window()) &&
          materials[k].rotationDegrees == old(materials[k].rotationDegrees)
      {
        materials[i].color := selectedFrame;
        i := i + 1;
      }
    }

    /** update: the frames first, then the colour. */
    method Update(now: real, speed: real, views: seq<CameraView>)
      requires Valid() && |views| == 4
      modifies Repr
      ensures Valid() && Repr == old(Repr) && materials == old(materials)
      ensures positions == old(positions) && colorTimerStart == old(colorTimerStart)
      ensures forall i :: 0 <= i < 4 ==>
        var s := SelectTireSprite(views[i]);
        materials[i].Window() == SpriteWindow(TireSheet, s.frameIndex, s.isMirror) &&
        materials[i].rotationDegrees == s.rotationDegree &&
        materials[i].color == TireColor(now - colorTimerStart, speed)
    {
      UpdateKartTireFrames(views);
      DoTireColorChange(now, speed);
    }
  }
}
