/** The kart's exhaust smoke: a group holding the live smoke sprites. Every
    0.03 s of its spawn timer it spawns one smoke at each exhaust; every
    update it ages the smokes, removing those older than 0.16 s from the
    list and from the group while walking that same list. */
module Smoke {
  import opened Numeric
  import opened Utils

  const SmokeUpAngle: real := 0.5
  /** Seconds of the spawn timer between two spawns. */
  const SmokeSpawnInterval: real := 0.03
  /** Seconds a smoke lives. */
  const SmokeLifetime: real := 0.16
  const SmokeScaleMin: real := 0.5
  const SmokeScaleMax: real := 1.0
  const SmokeMoveSpeed: real := 0.02
  const SmokeSpread: real := 0.5

  /** The kart's exhaust markers, in kart space. */
  const LeftExhaustPosition: Vec3 := Vec3(0.2835, 0.715, -0.783)
  const RightExhaustPosition: Vec3 := Vec3(-0.2835, 0.715, -0.783)
  /** A little up, because the smoke's first frame is offset, and a little
      behind the exhaust. */
  const SpawnOffset: Vec3 := Vec3(0.0, 0.1, -0.05)

  /** The smoke texture: a single 32x32 frame. */
  const SmokeSheet: SpriteSheet := SpriteSheet(1, 32.0, 32.0, 32.0, 32.0)

  /** One smoke sprite. `id` stands for the sprite object's identity;
      `timerStart` is the clock reading its own timer was created at. */
  datatype Sprite = Sprite(
    id: nat,
    position: Vec3,
    scale: Vec3,
    rotationDegree: real,
    rotateSpeed: int,
    timerStart: real)

  /** The smoke sprite's material always shows the whole texture. */
  lemma SmokeSheetWindow()
    ensures SmokeSheet.Valid()
    ensures SpriteWindow(SmokeSheet, 0, false) == TextureWindow(0.0, 0.0, 1.0, 1.0)
  {
  }

  /** The ids of a list of sprites, in order. */
  function Ids(s: seq<Sprite>): (ids: seq<nat>)
    ensures |ids| == |s| && forall k :: 0 <= k < |s| ==> ids[k] == s[k].id
  {
    seq(|s|, k requires 0 <= k < |s| => s[k].id)
  }

  ghost predicate DistinctIds(s: seq<Sprite>) {
    forall a, b :: 0 <= a < b < |s| ==> s[a].id != s[b].id
  }

  /** Array.prototype.indexOf: the first position holding `x`, or -1. */
  function IndexOf(xs: seq<nat>, x: nat): (r: int)
    ensures -1 <= r < |xs|
    ensures r >= 0 ==> xs[r] == x && x !in xs[..r]
    ensures r == -1 <==> x !in xs
  {
    if |xs| == 0 then -1
    else if xs[0] == x then 0
    else
      var r := IndexOf(xs[1..], x);
      assert xs[1..][..if r < 0 then 0 else r] == xs[1..if r < 0 then 1 else r + 1];
      if r == -1 then -1 else r + 1
  }

  /** With distinct ids, looking up the id of the smoke at position i finds
      position i. */
  lemma IndexOfDistinct(s: seq<Sprite>, i: nat)
    requires DistinctIds(s) && i < |s|
    ensures IndexOf(Ids(s), s[i].id) == i
  {
  }

  /** The smoke has outlived its lifetime at clock reading `now`. */
  predicate Expired(s: Sprite, now: real) {
    now - s.timerStart > SmokeLifetime
  }

  /** MathUtils.lerp. */
  function Lerp(x: real, y: real, t: real): real {
    (1.0 - t) * x + t * y
  }

  /** One animation step of a live smoke at clock reading `now`, with random
      sideways spread `spread`: it drifts up and back, turns by its rotate
      speed (degrees) and grows with its age. */
  function Animate(s: Sprite, now: real, spread: real): Sprite {
    var forward := Vec3(spread, SmokeUpAngle, -1.0).Scale(SmokeMoveSpeed);
    var rotationDegree := -(s.rotateSpeed as real) + s.rotationDegree;
    var ratio := (now - s.timerStart) / SmokeLifetime;
    var current := Lerp(SmokeScaleMin, SmokeScaleMax, ratio);
    s.(position := s.position.Add(forward),
       scale := Vec3(current, current, 1.0),
       rotationDegree := rotationDegree)
  }

  /** An animated smoke keeps its identity, rotate speed and timer, moves by
      (0.02 * spread, 0.01, -0.02), turns by minus its rotate speed, and
      while its age is within the lifetime its scale is between 0.5 and 1,
      growing with age. A spread drawn from its range moves it sideways by
      at most 0.01. */
  lemma AnimateSmoke(s: Sprite, now: real, spread: real)
    ensures var a := Animate(s, now, spread);
      a.id == s.id && a.rotateSpeed == s.rotateSpeed && a.timerStart == s.timerStart &&
      a.position == Vec3(s.position.x + 0.02 * spread, s.position.y + 0.01, s.position.z - 0.02) &&
      a.rotationDegree == s.rotationDegree - s.rotateSpeed as real &&
      a.scale.x == a.scale.y && a.scale.z == 1.0
    ensures 0.0 <= now - s.timerStart <= SmokeLifetime ==>
      SmokeScaleMin <= Animate(s, now, spread).scale.x <= SmokeScaleMax
    ensures Animate(s, now, spread).scale.x == 0.5 + (now - s.timerStart) / 0.32
    ensures -SmokeSpread <= spread <= SmokeSpread ==>
      -0.01 <= Animate(s, now, spread).position.x - s.position.x <= 0.01
  {
    var t := (now - s.timerStart) / SmokeLifetime;
    assert Lerp(SmokeScaleMin, SmokeScaleMax, t) == 0.5 + 0.5 * t;
    assert 0.5 * t == (now - s.timerStart) / 0.32;
  }

  /** Every spread is a draw of randFloat(-SMOKE_SPREAD, SMOKE_SPREAD). */
  predicate SpreadsInRange(spreads: seq<real>) {
    forall k :: 0 <= k < |spreads| ==> -SmokeSpread <= spreads[k] <= SmokeSpread
  }

  /** An older smoke is never smaller than a younger one. */
  lemma AnimateScaleGrows(s: Sprite, u: Sprite, now: real, spread: real, spread': real)
    requires now - s.timerStart <= now - u.timerStart
    ensures Animate(s, now, spread).scale.x <= Animate(u, now, spread').scale.x
  {
    AnimateSmoke(s, now, spread);
    AnimateSmoke(u, now, spread');
  }

  /** What one pass of forEach over the list does from position j on, where
      `rest` is the list from position j at the moment position j is
      visited. A live smoke is animated with the spread drawn at that
      position. An expired smoke is spliced out, which shifts the next smoke
      into position j: the walk moves on to position j + 1, so that smoke
      is left as it was for this pass. */
  function Pass(rest: seq<Sprite>, j: nat, now: real, spreads: seq<real>): (r: seq<Sprite>)
    requires j + |rest| <= |spreads|
    ensures |r| <= |rest|
    decreases |rest|
  {
    if |rest| == 0 then []
    else if Expired(rest[0], now) then
      if |rest| == 1 then [] else [rest[1]] + Pass(rest[2..], j + 1, now, spreads)
    else [Animate(rest[0], now, spreads[j])] + Pass(rest[1..], j + 1, now, spreads)
  }

  /** `a` is an order-preserving subsequence of `b`. */
  ghost predicate Subsequence(a: seq<nat>, b: seq<nat>)
    decreases |b|
  {
    |a| == 0 || (|b| > 0 && ((a[0] == b[0] && Subsequence(a[1..], b[1..])) || Subsequence(a, b[1..])))
  }

  /** The smokes left after a pass are some of the smokes before it, in the
      same order. */
  lemma {:induction false} PassKeepsOrder(rest: seq<Sprite>, j: nat, now: real, spreads: seq<real>)
    requires j + |rest| <= |spreads|
    ensures Subsequence(Ids(Pass(rest, j, now, spreads)), Ids(rest))
    decreases |rest|
  {
    var r := Pass(rest, j, now, spreads);
    if |rest| == 0 {
    } else if Expired(rest[0], now) {
      if |rest| == 1 {
      } else {
        var tail := Pass(rest[2..], j + 1, now, spreads);
        PassKeepsOrder(rest[2..], j + 1, now, spreads);
        assert Ids(r)[1..] == Ids(tail);
        assert Ids(rest)[1..][1..] == Ids(rest[2..]);
        assert Subsequence(Ids(r), Ids(rest)[1..]);
      }
    } else {
      var tail := Pass(rest[1..], j + 1, now, spreads);
      PassKeepsOrder(rest[1..], j + 1, now, spreads);
      assert Ids(r)[1..] == Ids(tail);
      assert Ids(rest)[1..] == Ids(rest[1..]);
    }
  }

  /** A smoke still within its lifetime survives the pass. */
  lemma {:induction false} PassKeepsLive(rest: seq<Sprite>, j: nat, now: real, spreads: seq<real>, k: nat)
    requires j + |rest| <= |spreads| && k < |rest| && !Expired(rest[k], now)
    ensures rest[k].id in Ids(Pass(rest, j, now, spreads))
    decreases |rest|
  {
    var r := Pass(rest, j, now, spreads);
    if Expired(rest[0], now) {
      if k == 1 {
        assert r[0] == rest[1];
      } else {
        PassKeepsLive(rest[2..], j + 1, now, spreads, k - 2);
        assert Ids(r)[1..] == Ids(Pass(rest[2..], j + 1, now, spreads));
      }
    } else if k == 0 {
      assert r[0].id == rest[0].id;
    } else {
      PassKeepsLive(rest[1..], j + 1, now, spreads, k - 1);
      assert Ids(r)[1..] == Ids(Pass(rest[1..], j + 1, now, spreads));
    }
  }

  /** The smoke right behind a removed one is skipped: it stays in the list
      exactly as it was, neither aged, moved nor rescaled, even when it has
      expired itself. */
  lemma PassSkipsAfterRemoval(rest: seq<Sprite>, j: nat, now: real, spreads: seq<real>)
    requires j + |rest| <= |spreads| && |rest| >= 2 && Expired(rest[0], now)
    ensures Pass(rest, j, now, spreads)[0] == rest[1]
    ensures Expired(rest[1], now) ==> rest[1].id in Ids(Pass(rest, j, now, spreads))
  {
  }

  /** When no smoke has expired, the pass animates every smoke, each with
      the spread drawn at its own position. */
  lemma {:induction false} PassAnimatesAllLive(rest: seq<Sprite>, j: nat, now: real, spreads: seq<real>)
    requires j + |rest| <= |spreads|
    requires forall k :: 0 <= k < |rest| ==> !Expired(rest[k], now)
    ensures Pass(rest, j, now, spreads) == seq(|rest|, k requires 0 <= k < |rest| => Animate(rest[k], now, spreads[j + k]))
    decreases |rest|
  {
    if |rest| > 0 {
      PassAnimatesAllLive(rest[1..], j + 1, now, spreads);
    }
  }

  /** The left and then the right smoke of one spawn: at their exhaust
      plus the spawn offset, unscaled, sharing one rotate speed. */
  function SpawnPair(id: nat, rotateSpeed: int, now: real): (pair: seq<Sprite>)
    ensures |pair| == 2 && pair[0].id == id && pair[1].id == id + 1
    ensures pair[0].position == Vec3(0.2835, 0.815, -0.833) && pair[1].position == Vec3(-0.2835, 0.815, -0.833)
    ensures forall k :: 0 <= k < 2 ==>
      pair[k].rotateSpeed == rotateSpeed && pair[k].timerStart == now && pair[k].scale == Vec3(0.0, 0.0, 0.0)
  {
    [Sprite(id, LeftExhaustPosition.Add(SpawnOffset), Vec3(0.0, 0.0, 0.0), 0.0, rotateSpeed, now),
     Sprite(id + 1, RightExhaustPosition.Add(SpawnOffset), Vec3(0.0, 0.0, 0.0), 0.0, rotateSpeed, now)]
  }

  /** A pass creates no smoke: every smoke after it was there before, and
      distinct smokes stay distinct. */
  lemma PassNoNewSmokes(rest: seq<Sprite>, j: nat, now: real, spreads: seq<real>)
    requires j + |rest| <= |spreads| && DistinctIds(rest)
    ensures DistinctIds(Pass(rest, j, now, spreads))
    ensures forall x :: x in Ids(Pass(rest, j, now, spreads)) ==> x in Ids(rest)
  {
    var r := Pass(rest, j, now, spreads);
    PassKeepsOrder(rest, j, now, spreads);
    SubsequenceDistinct(Ids(r), Ids(rest));
  }

  /** An expired smoke the pass visits is spliced out: with distinct ids,
      the first smoke of a pass that has expired is gone afterwards. */
  lemma PassRemovesExpired(rest: seq<Sprite>, j: nat, now: real, spreads: seq<real>)
    requires j + |rest| <= |spreads| && |rest| >= 1 && Expired(rest[0], now)
    requires DistinctIds(rest)
    ensures rest[0].id !in Ids(Pass(rest, j, now, spreads))
  {
    if |rest| >= 2 {
      var tail := Pass(rest[2..], j + 1, now, spreads);
      assert DistinctIds(rest[2..]) by {
        forall a, b | 0 <= a < b < |rest[2..]|
          ensures rest[2..][a].id != rest[2..][b].id
        {
          assert rest[2..][a] == rest[a + 2] && rest[2..][b] == rest[b + 2];
        }
      }
      PassNoNewSmokes(rest[2..], j + 1, now, spreads);
      assert rest[0].id !in Ids(rest[2..]) by {
        forall x | 0 <= x < |rest[2..]|
          ensures Ids(rest[2..])[x] != rest[0].id
        {
          assert rest[2..][x] == rest[x + 2];
        }
      }
      assert rest[1].id != rest[0].id;
      assert Ids(Pass(rest, j, now, spreads)) == [rest[1].id] + Ids(tail);
    }
  }

  /** The pass's callback runs on the smoke at position k of its input:
      the first smoke is visited, and a later one is visited unless the
      smoke before it was visited and spliced out, which moves it into the
      slot the walk has already passed. */
  ghost predicate Visited(rest: seq<Sprite>, k: nat, now: real)
    requires k < |rest|
    decreases k
  {
    k == 0 || !(Visited(rest, k - 1, now) && Expired(rest[k - 1], now))
  }

  /** The smoke at position k is still in the list after the pass: it was
      skipped, or it was visited while within its lifetime. */
  ghost predicate Survives(rest: seq<Sprite>, k: nat, now: real)
    requires k < |rest|
  {
    !Visited(rest, k, now) || !Expired(rest[k], now)
  }

  /** From a visited position d on, visiting the input agrees with visiting
      the input with its first d smokes dropped. */
  lemma {:induction false} VisitedShift(rest: seq<Sprite>, d: nat, k: nat, now: real)
    requires d + k < |rest| && Visited(rest, d, now)
    ensures Visited(rest, d + k, now) == Visited(rest[d..], k, now)
    decreases k
  {
    if k > 0 {
      VisitedShift(rest, d, k - 1, now);
      assert rest[d..][k - 1] == rest[d + k - 1];
    }
  }

  /** Past the first smoke (when it is live) or the first two (when the
      first has expired), survival is decided as on the rest of the list. */
  lemma SurvivesShift(rest: seq<Sprite>, d: nat, now: real)
    requires 1 <= d <= |rest| && d == (if Expired(rest[0], now) then 2 else 1)
    ensures forall k :: d <= k < |rest| ==> Survives(rest, k, now) == Survives(rest[d..], k - d, now)
  {
    forall k | d <= k < |rest|
      ensures Survives(rest, k, now) == Survives(rest[d..], k - d, now)
    {
      assert Visited(rest, d, now);
      VisitedShift(rest, d, k - d, now);
      assert rest[d..][k - d] == rest[k];
    }
  }

  /** The smokes a pass keeps are exactly those it skips and the visited
      ones still within their lifetime. */
  lemma {:induction false} PassSurvivors(rest: seq<Sprite>, j: nat, now: real, spreads: seq<real>)
    requires j + |rest| <= |spreads|
    ensures forall x :: x in Ids(Pass(rest, j, now, spreads)) <==>
      exists k :: 0 <= k < |rest| && rest[k].id == x && Survives(rest, k, now)
    decreases |rest|
  {
    var r := Pass(rest, j, now, spreads);
    if |rest| == 0 {
    } else if Expired(rest[0], now) && |rest| == 1 {
      assert !Survives(rest, 0, now);
    } else {
      var d := if Expired(rest[0], now) then 2 else 1;
      var tail := Pass(rest[d..], j + 1, now, spreads);
      PassSurvivors(rest[d..], j + 1, now, spreads);
      assert Ids(r) == [rest[d - 1].id] + Ids(tail);
      assert Survives(rest, d - 1, now);
      assert forall k :: 0 <= k < d - 1 ==> !Survives(rest, k, now);
      SurvivesShift(rest, d, now);
      forall x
        ensures x in Ids(r) <==> exists k :: 0 <= k < |rest| && rest[k].id == x && Survives(rest, k, now)
      {
        if x in Ids(r) && x != rest[d - 1].id {
          assert x in Ids(tail);
          var k' :| 0 <= k' < |rest[d..]| && rest[d..][k'].id == x && Survives(rest[d..], k', now);
          assert rest[k' + d] == rest[d..][k'];
        }
        if exists k :: 0 <= k < |rest| && rest[k].id == x && Survives(rest, k, now) {
          var k :| 0 <= k < |rest| && rest[k].id == x && Survives(rest, k, now);
          if k != d - 1 {
            assert rest[d..][k - d] == rest[k];
            assert x in Ids(tail);
          }
        }
      }
    }
  }

  /** Ids that are distinct stay distinct in a subsequence. */
  lemma {:induction false} SubsequenceDistinct(a: seq<nat>, b: seq<nat>)
    requires Subsequence(a, b)
    requires forall x, y :: 0 <= x < y < |b| ==> b[x] != b[y]
    ensures forall x, y :: 0 <= x < y < |a| ==> a[x] != a[y]
    ensures forall x :: x in a ==> x in b
    decreases |b|
  {
    if |a| > 0 {
      if a[0] == b[0] && Subsequence(a[1..], b[1..]) {
        SubsequenceDistinct(a[1..], b[1..]);
        forall y | 0 < y < |a|
          ensures a[0] != a[y]
        {
          assert a[y] == a[1..][y - 1];
          assert a[y] in b[1..];
          var m :| 0 <= m < |b[1..]| && b[1..][m] == a[y];
          assert b[m + 1] == a[y];
        }
        forall x | x in a
          ensures x in b
        {
          if x != a[0] {
            assert x in a[1..];
          }
        }
      } else {
        SubsequenceDistinct(a, b[1..]);
      }
    }
  }

  /** The smokes of the kart: the list walked by the animation and the
      group's children (by id), with the two timers' state. */
  class SmokeHolder {
    var currentSmokes: seq<Sprite>
    /** The ids of the sprites added to this group, in order. */
    var children: seq<nat>
    /** The spawn timer: the clock reading it was last reset at. */
    var spawnTimerStart: real
    /** The id the next created sprite gets. */
    var nextId: nat

    /** Every smoke in the list is a child of the group and the other way
        round, in the same order; each sprite is a different object. */
    ghost predicate Valid()
      reads this
    {
      children == Ids(currentSmokes) && DistinctIds(currentSmokes) && IdsBelow(currentSmokes, nextId)
    }

    constructor (now: real)
      ensures Valid() && currentSmokes == [] && spawnTimerStart == now
    {
      currentSmokes, children := [], [];
      spawnTimerStart := now;
      nextId := 0;
    }

    /** createSprite: a new sprite at frame 0 with rotation 0, scaled to
        nothing until its first animation step. */
    method CreateSprite(now: real) returns (s: Sprite)
      modifies this`nextId
      ensures nextId == old(nextId) + 1
      ensures s == Sprite(old(nextId), Vec3(0.0, 0.0, 0.0), Vec3(0.0, 0.0, 0.0), 0.0, 0, now)
    {
      s := Sprite(nextId, Vec3(0.0, 0.0, 0.0), Vec3(0.0, 0.0, 0.0), 0.0, 0, now);
      nextId := nextId + 1;
    }

    /** doSmokeSpawning at clock reading `now`. `randomSpeed` is the value
        drawn from {1, 2} and `coin` the one drawn from [0, 1), which
        inverts the speed below 0.5. Before 0.03 s on the spawn timer
        nothing changes; after, the timer is reset and a left and then a
        right smoke are appended to the list and added to the group, both
        at their exhaust plus the offset and sharing one rotate speed. */
    method DoSmokeSpawning(now: real, randomSpeed: int, coin: real)
      requires Valid()
      requires 1 <= randomSpeed <= 2 && 0.0 <= coin < 1.0
      modifies this
      ensures Valid()
      ensures now - old(spawnTimerStart) < SmokeSpawnInterval ==>
        currentSmokes == old(currentSmokes) && children == old(children) &&
        spawnTimerStart == old(spawnTimerStart) && nextId == old(nextId)
      ensures now - old(spawnTimerStart) >= SmokeSpawnInterval ==>
        spawnTimerStart == now && nextId == old(nextId) + 2 &&
        currentSmokes == old(currentSmokes) + SpawnPair(old(nextId), if coin < 0.5 then -randomSpeed else randomSpeed, now) &&
        children == old(children) + [old(nextId), old(nextId) + 1]
    {
      if now - spawnTimerStart < SmokeSpawnInterval {
        return;
      }
      spawnTimerStart := now;

      var leftMarkerPosition := LeftExhaustPosition;
      var rightMarkerPosition := RightExhaustPosition;

      var smokeLeft := CreateSprite(now);
      var smokeRight := CreateSprite(now);

      smokeLeft := smokeLeft.(position := leftMarkerPosition.Add(SpawnOffset));
      smokeRight := smokeRight.(position := rightMarkerPosition.Add(SpawnOffset));

      var speed := randomSpeed;
      if coin < 0.5 {
        speed := speed * -1;
      }
      smokeLeft := smokeLeft.(rotateSpeed := speed);
      smokeRight := smokeRight.(rotateSpeed := speed);

      ghost var before := currentSmokes;
      currentSmokes := currentSmokes + [smokeLeft];
      currentSmokes := currentSmokes + [smokeRight];
      children := children + [smokeLeft.id];
      children := children + [smokeRight.id];
      assert Ids(currentSmokes) == Ids(before) + [smokeLeft.id, smokeRight.id] by {
        assert forall k :: 0 <= k < |currentSmokes| ==>
          Ids(currentSmokes)[k] == (Ids(before) + [smokeLeft.id, smokeRight.id])[k];
      }
    }

    /** animateSmokes at clock reading `now`: forEach over the list, with
        `spreads[i]` the sideways spread drawn when position i is visited.
        The walk runs over the positions the list had when it started. */
    method AnimateSmokes(now: real, spreads: seq<real>)
      requires Valid() && |spreads| == |currentSmokes| && SpreadsInRange(spreads)
      modifies this
      ensures Valid()
      ensures currentSmokes == Pass(old(currentSmokes), 0, now, spreads)
      ensures spawnTimerStart == old(spawnTimerStart) && nextId == old(nextId)
    {
      ghost var start := currentSmokes;
      var len := |currentSmokes|;
      var i := 0;
      WalkedStart(currentSmokes, now, spreads);
      while i < len
        invariant 0 <= i <= len && |currentSmokes| <= len
        invariant Valid() && nextId == old(nextId) && spawnTimerStart == old(spawnTimerStart)
        invariant Pass(start, 0, now, spreads) == Walked(currentSmokes, i, now, spreads)
      {
        if i < |currentSmokes| {
          VisitSmoke(i, now, spreads);
        }
        i := i + 1;
      }
      WalkedDone(currentSmokes, i, now, spreads);
    }

    /** The forEach callback on the smoke at position i: an expired smoke
        is spliced out of the list at its index and removed from the
        group; a live one is animated in place. */
    method VisitSmoke(i: nat, now: real, spreads: seq<real>)
      requires Valid() && i < |currentSmokes| <= |spreads|
      modifies this
      ensures Valid() && nextId == old(nextId) && spawnTimerStart == old(spawnTimerStart)
      ensures |currentSmokes| <= old(|currentSmokes|)
      ensures Walked(old(currentSmokes), i, now, spreads) == Walked(currentSmokes, i + 1, now, spreads)
    {
      var sprite := currentSmokes[i];
      ghost var cur := currentSmokes;
      if now - sprite.timerStart > SmokeLifetime {
        IndexOfDistinct(cur, i);
        RemovePreserves(cur, i, nextId);
        PassStepRemove(cur, i, now, spreads);
        var at := IndexOf(Ids(currentSmokes), sprite.id);
        assert at == i;
        currentSmokes := currentSmokes[..at] + currentSmokes[at + 1..];
        var child := IndexOf(children, sprite.id);
        assert child == i;
        children := children[..child] + children[child + 1..];
      } else {
        AnimatePreserves(cur, i, Animate(sprite, now, spreads[i]));
        PassStepAnimate(cur, i, now, spreads);
        currentSmokes := currentSmokes[i := Animate(sprite, now, spreads[i])];
      }
    }

    /** update: spawn, then animate the list including the new pair. */
    method Update(now: real, randomSpeed: int, coin: real, spreads: seq<real>)
      requires Valid()
      requires 1 <= randomSpeed <= 2 && 0.0 <= coin < 1.0
      requires |spreads| == |currentSmokes| + 2 && SpreadsInRange(spreads)
      modifies this
      ensures Valid()
      ensures |currentSmokes| <= old(|currentSmokes|) + 2
      ensures now - old(spawnTimerStart) < SmokeSpawnInterval ==>
        spawnTimerStart == old(spawnTimerStart) && nextId == old(nextId) &&
        currentSmokes == Pass(old(currentSmokes), 0, now, spreads[..|old(currentSmokes)|])
      ensures now - old(spawnTimerStart) >= SmokeSpawnInterval ==>
        spawnTimerStart == now && nextId == old(nextId) + 2 &&
        currentSmokes == Pass(old(currentSmokes) + SpawnPair(old(nextId), if coin < 0.5 then -randomSpeed else randomSpeed, now), 0, now, spreads)
    {
      DoSmokeSpawning(now, randomSpeed, coin);
      assert |currentSmokes| == |spreads| ==> spreads[..|currentSmokes|] == spreads;
      AnimateSmokes(now, spreads[..|currentSmokes|]);
    }
  }

  /** Every smoke id in `s` is below `bound`, the next id to be issued. */
  ghost predicate IdsBelow(s: seq<Sprite>, bound: nat) {
    forall k :: 0 <= k < |s| ==> s[k].id < bound
  }

  /** Before the walk, the rest of it is the whole pass. */
  lemma WalkedStart(cur: seq<Sprite>, now: real, spreads: seq<real>)
    requires |cur| <= |spreads|
    ensures Walked(cur, 0, now, spreads) == Pass(cur, 0, now, spreads)
  {
    assert cur[..0] == [] && cur[0..] == cur;
  }

  /** A walk past the end of the list leaves the list as it is. */
  lemma WalkedDone(cur: seq<Sprite>, i: nat, now: real, spreads: seq<real>)
    requires |cur| <= |spreads| && |cur| <= i
    ensures Walked(cur, i, now, spreads) == cur
  {
    if i == |cur| {
      assert cur[..i] == cur && cur[i..] == [];
    }
  }

  /** The state of a pass after visiting positions 0 .. i-1 of the list
      `cur` it has made so far: the visited prefix, then the rest of the
      pass from position i. A walk that has run off the end is `cur`. */
  function Walked(cur: seq<Sprite>, i: nat, now: real, spreads: seq<real>): seq<Sprite>
    requires |cur| <= |spreads|
  {
    if i <= |cur| then cur[..i] + Pass(cur[i..], i, now, spreads) else cur
  }

  /** One visit that splices out an expired smoke, in terms of Pass. */
  lemma PassStepRemove(cur: seq<Sprite>, i: nat, now: real, spreads: seq<real>)
    requires i < |cur| <= |spreads| && Expired(cur[i], now)
    ensures Walked(cur, i, now, spreads) == Walked(cur[..i] + cur[i + 1..], i + 1, now, spreads)
  {
    var next := cur[..i] + cur[i + 1..];
    assert cur[i..][0] == cur[i];
    if i + 1 < |cur| {
      assert cur[i..][1] == cur[i + 1];
      assert cur[i..][2..] == cur[i + 2..] == next[i + 1..];
      assert next[..i + 1] == cur[..i] + [cur[i + 1]];
    } else {
      assert next == cur[..i];
    }
  }

  /** One visit that animates a live smoke, in terms of Pass. */
  lemma PassStepAnimate(cur: seq<Sprite>, i: nat, now: real, spreads: seq<real>)
    requires i < |cur| <= |spreads| && !Expired(cur[i], now)
    ensures Walked(cur, i, now, spreads) == Walked(cur[i := Animate(cur[i], now, spreads[i])], i + 1, now, spreads)
  {
    var next := cur[i := Animate(cur[i], now, spreads[i])];
    assert cur[i..][0] == cur[i];
    assert cur[i..][1..] == cur[i + 1..] == next[i + 1..];
    assert next[..i + 1] == cur[..i] + [Animate(cur[i], now, spreads[i])];
  }

  /** Splicing out position i keeps the ids distinct and the group's
      children in step with the list. */
  lemma RemovePreserves(s: seq<Sprite>, i: nat, bound: nat)
    requires DistinctIds(s) && i < |s|
    requires IdsBelow(s, bound)
    ensures DistinctIds(s[..i] + s[i + 1..]) && IdsBelow(s[..i] + s[i + 1..], bound)
    ensures Ids(s[..i] + s[i + 1..]) == Ids(s)[..i] + Ids(s)[i + 1..]
  {
    var t := s[..i] + s[i + 1..];
    assert forall k :: 0 <= k < |t| ==> t[k] == s[if k < i then k else k + 1];
    forall a, b | 0 <= a < b < |t|
      ensures t[a].id != t[b].id
    {
      var a' := if a < i then a else a + 1;
      var b' := if b < i then b else b + 1;
      assert t[a] == s[a'] && t[b] == s[b'];
    }
  }

  /** Replacing a smoke by its animated self keeps the ids. */
  lemma AnimatePreserves(s: seq<Sprite>, i: nat, a: Sprite)
    requires i < |s| && a.id == s[i].id
    ensures Ids(s[i := a]) == Ids(s)
    ensures DistinctIds(s) ==> DistinctIds(s[i := a])
    ensures forall bound: nat :: IdsBelow(s, bound) ==> IdsBelow(s[i := a], bound)
  {
  }
}
