/** The numeric and sprite-sheet helpers of the game code: number
    reversal, normalisation, scaling, step rounding, texture windows of a
    sprite sheet, and the triangle index list of a mesh. */
module Utils {
  import opened Numeric

  // ---------------------------------------------------------------------
  // Small numeric helpers

  /** reverseNumber: reflects `current` inside the range [start, max]. */
  function ReverseNumber(start: real, current: real, max: real): (r: real)
    ensures r == start + max - current
  {
    start + (max - start + 1.0) - (current - start + 1.0)
  }

  lemma ReverseNumberProperties(start: real, current: real, max: real)
    ensures ReverseNumber(start, start, max) == max
    ensures ReverseNumber(start, max, max) == start
    ensures ReverseNumber(start, ReverseNumber(start, current, max), max) == current
    ensures ReverseNumber(start, current, max) - start == max - current
  {
  }

  /** normalizeToMax: the fraction of `max` that `current` is. */
  function NormalizeToMax(current: real, max: real): (r: real)
    requires max != 0.0
    ensures r * max == current
  {
    current / max
  }

  /** scaleValue: maps `current`, measured against `originalMax`, onto a
      scale whose maximum is `scaleMax`. */
  function ScaleValue(current: real, scaleMax: real, originalMax: real): (r: real)
    requires originalMax != 0.0
    ensures r == NormalizeToMax(current, originalMax) * scaleMax
  {
    (current * scaleMax) / originalMax
  }

  lemma ScaleValueEndpoints(scaleMax: real, originalMax: real)
    requires originalMax != 0.0
    ensures ScaleValue(originalMax, scaleMax, originalMax) == scaleMax
    ensures ScaleValue(0.0, scaleMax, originalMax) == 0.0
    ensures NormalizeToMax(originalMax, originalMax) == 1.0
  {
  }

  /** JavaScript's Math.round on a real: the nearest integer, halves
      rounded towards positive infinity. */
  function JsRound(x: real): (k: int)
    ensures x - 0.5 < k as real <= x + 0.5
  {
    (x + 0.5).Floor
  }

  /** closestStepValue: the multiple of `step` nearest to `value`. */
  function ClosestStepValue(value: real, step: real): (r: real)
    requires step != 0.0
  {
    JsRound(value / step) as real * step
  }

  /** The result is an integer multiple of the step, no further than half
      a step from the value. */
  lemma ClosestStepValueNearest(value: real, step: real)
    requires step != 0.0
    ensures (ClosestStepValue(value, step) / step).Floor as real == ClosestStepValue(value, step) / step
    ensures Abs(ClosestStepValue(value, step) - value) <= Abs(step) / 2.0
  {
    var q := value / step;
    var k := JsRound(q);
    var r := k as real * step;
    MulDivCancel(k as real, step);
    assert q * step == value;
    var d := k as real - q;
    assert r - value == d * step by {
      assert d * step == k as real * step - q * step;
    }
    HalfStepBound(d, step);
    assert ClosestStepValue(value, step) == r;
    assert r / step == k as real;
    assert (r / step).Floor == k;
  }

  lemma HalfStepBound(d: real, step: real)
    requires -0.5 <= d <= 0.5 && step != 0.0
    ensures Abs(d * step) <= Abs(step) / 2.0
  {
    if step > 0.0 {
      MulNonneg(0.5 - d, step);
      MulNonneg(d + 0.5, step);
    } else {
      MulNonneg(0.5 - d, -step);
      MulNonneg(d + 0.5, -step);
    }
  }

  lemma MulNonneg(a: real, b: real)
    requires a >= 0.0 && b >= 0.0
    ensures a * b >= 0.0
  {
  }

  lemma MulDivCancel(a: real, b: real)
    requires b != 0.0
    ensures (a * b) / b == a
  {
  }

  /** Rounding to a step twice is rounding once. */
  lemma ClosestStepValueIdempotent(value: real, step: real)
    requires step != 0.0
    ensures ClosestStepValue(ClosestStepValue(value, step), step) == ClosestStepValue(value, step)
  {
    var k := JsRound(value / step);
    assert ClosestStepValue(value, step) / step == k as real;
    assert JsRound(k as real) == k;
  }

  // ---------------------------------------------------------------------
  // Sprite sheets

  /** The layout of a sprite sheet: frames per row and pixel sizes. */
  datatype SpriteSheet = SpriteSheet(
    totalFrames: int,
    frameWidth: real,
    frameHeight: real,
    textureWidth: real,
    textureHeight: real)
  {
    ghost predicate Valid() {
      totalFrames > 0 && textureWidth != 0.0 && textureHeight != 0.0
    }
  }

  /** The window of the texture a material shows: its offset and repeat. */
  datatype TextureWindow = TextureWindow(offsetX: real, offsetY: real, repeatX: real, repeatY: real)

  /** JavaScript's `%` on integers: the remainder takes the sign of the
      dividend. */
  function JsRem(a: int, b: int): (r: int)
    requires b > 0
    ensures a >= 0 ==> 0 <= r < b
    ensures a < 0 ==> -b < r <= 0
  {
    if a >= 0 then a % b else -((-a) % b)
  }

  /** The texture window setSpriteFrame gives frame `frameIndex` of a
      sheet, mirrored horizontally or not. */
  function SpriteWindow(sheet: SpriteSheet, frameIndex: int, mirror: bool): TextureWindow
    requires sheet.Valid()
  {
    var x := JsRem(frameIndex, sheet.totalFrames) as real * sheet.frameWidth;
    var y := (frameIndex / sheet.totalFrames) as real * sheet.frameHeight;
    var offsetX := x / sheet.textureWidth;
    var offsetY := 1.0 - (y + sheet.frameHeight) / sheet.textureHeight;
    var repeatX := sheet.frameWidth / sheet.textureWidth;
    var repeatY := sheet.frameHeight / sheet.textureHeight;
    if mirror then TextureWindow(offsetX + repeatX, offsetY, -repeatX, repeatY)
    else TextureWindow(offsetX, offsetY, repeatX, repeatY)
  }

  /** Frame `row * totalFrames + col` is column `col` of row `row`, rows
      counted downwards from the top of the texture. */
  lemma {:induction false} SpriteWindowRowColumn(sheet: SpriteSheet, row: nat, col: nat)
    requires sheet.Valid() && col < sheet.totalFrames
    ensures var w := SpriteWindow(sheet, row * sheet.totalFrames + col, false);
      w.offsetX == (col as real * sheet.frameWidth) / sheet.textureWidth &&
      w.offsetY == 1.0 - (row as real * sheet.frameHeight + sheet.frameHeight) / sheet.textureHeight &&
      w.repeatX == sheet.frameWidth / sheet.textureWidth &&
      w.repeatY == sheet.frameHeight / sheet.textureHeight
  {
    var n := sheet.totalFrames;
    var i := row * n + col;
    DivModUnique(i, n, row, col);
    MulNatNonneg(row, n);
    assert JsRem(i, n) == col;
    assert SpriteWindow(sheet, i, false) == TextureWindow(
      (col as real * sheet.frameWidth) / sheet.textureWidth,
      1.0 - (row as real * sheet.frameHeight + sheet.frameHeight) / sheet.textureHeight,
      sheet.frameWidth / sheet.textureWidth,
      sheet.frameHeight / sheet.textureHeight);
  }

  lemma MulNatNonneg(a: nat, b: nat)
    ensures a * b >= 0
  {
  }

  lemma DivCancel(a: real, b: real, c: real)
    requires b != 0.0 && c != 0.0
    ensures (a * c) / (b * c) == a / b
  {
    var x := a / b;
    assert x * b == a;
    assert x * (b * c) == a * c;
  }

  /** On a one-row strip of `totalFrames` equal frames, frame i starts at
      i/totalFrames across and fills the whole height. */
  lemma SpriteStripFrame(sheet: SpriteSheet, i: nat)
    requires sheet.Valid() && i < sheet.totalFrames && sheet.frameWidth != 0.0
    requires sheet.textureWidth == sheet.totalFrames as real * sheet.frameWidth
    requires sheet.textureHeight == sheet.frameHeight
    ensures var w := SpriteWindow(sheet, i, false);
      w.offsetX == i as real / sheet.totalFrames as real && w.offsetY == 0.0 &&
      w.repeatX == 1.0 / sheet.totalFrames as real && w.repeatY == 1.0
  {
    SpriteWindowRowColumn(sheet, 0, i);
    assert 0 * sheet.totalFrames + i == i;
    var w := SpriteWindow(sheet, i, false);
    var n := sheet.totalFrames as real;
    assert (0 as nat) as real * sheet.frameHeight + sheet.frameHeight == sheet.textureHeight;
    assert w.offsetY == 1.0 - sheet.textureHeight / sheet.textureHeight;
    assert w.repeatY == sheet.textureHeight / sheet.textureHeight;
    DivCancel(i as real, n, sheet.frameWidth);
    DivCancel(1.0, n, sheet.frameWidth);
  }

  /** Mirroring shows the same window read right to left: its left edge is
      the plain window's right edge and the other way round. */
  lemma SpriteMirrorSameWindow(sheet: SpriteSheet, frameIndex: int)
    requires sheet.Valid()
    ensures var plain := SpriteWindow(sheet, frameIndex, false);
      var mirrored := SpriteWindow(sheet, frameIndex, true);
      mirrored.repeatX == -plain.repeatX &&
      mirrored.offsetX == plain.offsetX + plain.repeatX &&
      mirrored.offsetX + mirrored.repeatX == plain.offsetX &&
      mirrored.offsetY == plain.offsetY && mirrored.repeatY == plain.repeatY
  {
  }

  /** The material of a sprite: the texture offset and repeat, the
      rotation (kept in degrees) and the colour (a 24-bit RGB value). */
  class SpriteMaterial {
    var offsetX: real
    var offsetY: real
    var repeatX: real
    var repeatY: real
    var rotationDegrees: real
    var color: int

    constructor ()
      ensures offsetX == 0.0 && offsetY == 0.0 && repeatX == 1.0 && repeatY == 1.0
      ensures rotationDegrees == 0.0 && color == 0xffffff
    {
      offsetX, offsetY, repeatX, repeatY := 0.0, 0.0, 1.0, 1.0;
      rotationDegrees, color := 0.0, 0xffffff;
    }

    function Window(): TextureWindow
      reads this
    {
      TextureWindow(offsetX, offsetY, repeatX, repeatY)
    }
  }

  /** setSpriteFrame: shows frame `frameIndex` of the sheet on the
      material, mirrored if asked, rotated by `rotationDegree`. */
  method SetSpriteFrame(sprite: SpriteMaterial, sheet: SpriteSheet, frameIndex: int, mirror: bool, rotationDegree: real)
    requires sheet.Valid()
    modifies sprite
    ensures sprite.Window() == SpriteWindow(sheet, frameIndex, mirror)
    ensures sprite.rotationDegrees == rotationDegree
    ensures sprite.color == old(sprite.color)
  {
    var x := JsRem(frameIndex, sheet.totalFrames) as real * sheet.frameWidth;
    var y := (frameIndex / sheet.totalFrames) as real * sheet.frameHeight;
    var offsetX := x / sheet.textureWidth;
    var offsetY := 1.0 - (y + sheet.frameHeight) / sheet.textureHeight;
    var repeatX := sheet.frameWidth / sheet.textureWidth;
    var repeatY := sheet.frameHeight / sheet.textureHeight;
    sprite.offsetX, sprite.offsetY := offsetX, offsetY;
    sprite.repeatX, sprite.repeatY := repeatX, repeatY;
    sprite.rotationDegrees := rotationDegree;
    assert sprite.Window() == SpriteWindow(sheet, frameIndex, false);
    if mirror {
      sprite.repeatX := sprite.repeatX * -1.0;
      sprite.offsetX := sprite.offsetX + repeatX;
    }
  }

  // ---------------------------------------------------------------------
  // Mesh index list

  /** A JavaScript number stored into a Uint16Array: taken modulo 2^16. */
  function ToUint16(v: int): (r: int)
    ensures 0 <= r < 0x1_0000 && (v - r) % 0x1_0000 == 0
  {
    v % 0x1_0000
  }

  /** generateIndexes: one triangle (i, i+1, i+2) per three vertices,
      stored as the mesh's 16-bit index attribute. The list covers the
      vertex count rounded up to a multiple of three, and entry k is k
      (modulo 2^16, the width of the attribute). */
  method GenerateIndexes(vertexCount: nat) returns (index: seq<int>)
    ensures |index| == 3 * ((vertexCount + 2) / 3)
    ensures forall k :: 0 <= k < |index| ==> index[k] == ToUint16(k)
  {
    var indices: seq<int> := [];
    var i := 0;
    while i < vertexCount
      invariant i % 3 == 0 && i <= vertexCount + 2
      invariant i == 3 * ((vertexCount + 2) / 3) || i < vertexCount
      invariant |indices| == i
      invariant forall k :: 0 <= k < i ==> indices[k] == k
    {
      indices := indices + [i, i + 1, i + 2];
      i := i + 3;
    }
    index := seq(|indices|, k requires 0 <= k < |indices| => ToUint16(indices[k]));
  }
}
