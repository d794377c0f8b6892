/// The attributes a burst gives each new particle. Every random draw of the
/// spawn is one field of a `Draws` record: a uniform value in [0, 1) for each
/// `Random.nextFloat()` and a bounded index for each `Random.nextInt(n)`.
/// The trigonometric functions are passed in.
module Bursts {
  import opened Particles

  /** Two pi as the source writes it for angles and phases: the 32-bit float nearest to 2π, rounded to 6.2831855. */
  const TwoPi: real := 6.2831855

  /** The shapes in declaration order, as indexed by the shape draw. */
  const Shapes: seq<ConfettiShape> := [Paper, Square, Ribbon, Star, Circle]

  /** The twelve packed ARGB colours a particle can take. */
  const Palette: seq<int> := [
    0xFFFF6B6B, 0xFF4ECDC4, 0xFFFFE66D, 0xFF95E1D3,
    0xFFF38181, 0xFFAA96DA, 0xFFFF9FF3, 0xFF54A0FF,
    0xFF5F27CD, 0xFF00D2D3, 0xFFFF9F43, 0xFF10AC84]

  /** The random draws made for one particle. */
  datatype Draws = Draws(
    angle: real, speed: real, shapeIndex: int, colorIndex: int,
    size: real, aspectRatio: real, rotation: real, rotationSpeed: real,
    flipSpeed: real, flipPhase: real,
    wobbleSpeed: real, wobbleAmplitude: real, wobblePhase: real, drag: real)
  {
    predicate InRange() {
      0 <= shapeIndex < |Shapes| && 0 <= colorIndex < |Palette| &&
      0.0 <= angle < 1.0 && 0.0 <= speed < 1.0 &&
      0.0 <= size < 1.0 && 0.0 <= aspectRatio < 1.0 &&
      0.0 <= rotation < 1.0 && 0.0 <= rotationSpeed < 1.0 &&
      0.0 <= flipSpeed < 1.0 && 0.0 <= flipPhase < 1.0 &&
      0.0 <= wobbleSpeed < 1.0 && 0.0 <= wobbleAmplitude < 1.0 &&
      0.0 <= wobblePhase < 1.0 && 0.0 <= drag < 1.0
    }
  }

  /** A record of draws that is in range, so that a draw always exists. */
  const SomeDraws: Draws := Draws(0.0, 0.0, 0, 0, 0.0, 0.0, 0.0, 0.0, 0.0, 0.0, 0.0, 0.0, 0.0, 0.0)

  /** The initial velocity of a particle thrown at `angle` with base speed `speed`
      and multiplier `m`: the polar projection plus an upward bias of 240 times `m`. */
  function Launch(angle: real, speed: real, m: real, cos: real -> real, sin: real -> real): (real, real) {
    (cos(angle) * (speed * m), sin(angle) * (speed * m) - 240.0 * m)
  }

  /** The attributes of one burst particle at (x, y) with speed multiplier `m`:
      it starts at exactly (x, y), moves at angle `angle` with speed in
      [100, 280] times `m` plus an upward bias of 240 times `m`, and its looks
      come from fixed ranges (ribbons are longer than the other shapes). */
  function Spawn(x: real, y: real, m: real, d: Draws, cos: real -> real, sin: real -> real): (a: Attrs)
    requires d.InRange()
    ensures a.x == x && a.y == y
    ensures a.colorLong in Palette && a.shape in Shapes
    ensures 8.0 <= a.size <= 18.0
    ensures a.shape == Ribbon ==> 3.0 <= a.aspectRatio <= 5.0
    ensures a.shape != Ribbon ==> 0.5 <= a.aspectRatio < 2.0
    ensures 0.0 <= a.rotation < 360.0
    ensures -150.0 <= a.rotationSpeed < 150.0
    ensures 2.0 <= a.flipSpeed < 7.0
    ensures 0.0 <= a.flipPhase < TwoPi && 0.0 <= a.wobblePhase < TwoPi
    ensures 1.0 <= a.wobbleSpeed < 3.5
    ensures 5.0 <= a.wobbleAmplitude <= 20.0
    ensures 1.2 <= a.drag <= 2.0
    ensures exists angle: real, speed: real ::
              0.0 <= angle < TwoPi && 100.0 <= speed <= 280.0 &&
              (a.velocityX, a.velocityY) == Launch(angle, speed, m, cos, sin)
  {
    var angle := d.angle * TwoPi;
    var speed := d.speed * 180.0 + 100.0;
    var shape := Shapes[d.shapeIndex];
    var v := Launch(angle, speed, m, cos, sin);
    Attrs(
      x, y,
      v.0, v.1,
      Palette[d.colorIndex],
      d.size * 10.0 + 8.0,
      if shape == Ribbon then d.aspectRatio * 2.0 + 3.0 else d.aspectRatio * 1.5 + 0.5,
      d.rotation * 360.0,
      d.rotationSpeed * 300.0 - 150.0,
      d.flipSpeed * 5.0 + 2.0,
      d.flipPhase * TwoPi,
      d.wobbleSpeed * 2.5 + 1.0,
      d.wobbleAmplitude * 15.0 + 5.0,
      d.wobblePhase * TwoPi,
      d.drag * 0.8 + 1.2,
      shape)
  }

  /** `a` is an attribute record that a burst at (x, y) with multiplier `m` can produce. */
  ghost predicate Spawned(a: Attrs, x: real, y: real, m: real, cos: real -> real, sin: real -> real) {
    exists d: Draws :: d.InRange() && Spawn(x, y, m, d, cos, sin) == a
  }

  /** Every particle a burst produces starts at the burst's origin, with a
      colour from the palette and a size in [8, 18]. */
  lemma SpawnedAtOrigin(a: Attrs, x: real, y: real, m: real, cos: real -> real, sin: real -> real)
    requires Spawned(a, x, y, m, cos, sin)
    ensures a.x == x && a.y == y
    ensures a.colorLong in Palette && 8.0 <= a.size <= 18.0
  {
  }
}
