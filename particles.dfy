/// One confetti particle: its record of attributes, the mutable object that holds
/// them, and the per-frame physics that the engine applies to it.
/// Floating-point values are modelled as exact reals; the transcendental parts
/// (the exponential drag decay and the sine wobble) are passed in as functions.
module Particles {

  /** Longest simulated time step, in seconds (about 40 frames per second). */
  const MaxDt: real := 0.025
  /** Downward acceleration, in units per second squared. */
  const Gravity: real := 450.0
  /** Fall speed up to which gravity accelerates a particle. */
  const TerminalVelocity: real := 280.0
  /** Smallest horizontal squash applied when drawing a flipping particle. */
  const MinScaleX: real := 0.15

  datatype ConfettiShape = Paper | Square | Ribbon | Star | Circle

  /** Every attribute of a particle except its liveness flag. */
  datatype Attrs = Attrs(
    x: real, y: real,
    velocityX: real, velocityY: real,
    colorLong: int,
    size: real, aspectRatio: real,
    rotation: real, rotationSpeed: real,
    flipSpeed: real, flipPhase: real,
    wobbleSpeed: real, wobbleAmplitude: real, wobblePhase: real,
    drag: real,
    shape: ConfettiShape)

  /** The contents of one particle record (a `MutableParticle` object);
      `alive` is false once the particle is retired. */
  datatype Particle = Particle(attrs: Attrs, alive: bool)

  /** What one call of the engine's update uses for every particle: the clamped
      time step, the retirement line below the screen, and the two transcendental
      functions of the integration (`exp` for drag, `sin` for wobble). */
  datatype FrameStep = FrameStep(dt: real, bottom: real, exp: real -> real, sin: real -> real)

  /** What one update does to a particle. */
  datatype Fate = Survives | Retires | Skipped

  function Min(a: real, b: real): real {
    if a <= b then a else b
  }

  function Abs(a: real): real {
    if a < 0.0 then -a else a
  }

  /** A record's address in the arena. */
  type Handle = nat

  /** Every handle of `hs` is below `n`. */
  ghost predicate Within(hs: seq<Handle>, n: nat) {
    forall i :: 0 <= i < |hs| ==> hs[i] < n
  }

  /** The particle records in memory. Allocating a record appends a slot, so a
      fresh record's handle is the number of records allocated before it; two
      references to the same object are two copies of the same handle. */
  class Arena {
    var slots: seq<Particle>

    /** Every handle of `hs` addresses an allocated record. */
    ghost predicate Owns(hs: seq<Handle>)
      reads this
    {
      Within(hs, |slots|)
    }

    constructor ()
      ensures slots == []
    {
      slots := [];
    }

    /** Allocates a new live record with attributes `a`. */
    method New(a: Attrs) returns (h: Handle)
      modifies this
      ensures h == |old(slots)| && slots == old(slots) + [Particle(a, true)]
    {
      h := |slots|;
      slots := slots + [Particle(a, true)];
    }
  }

  /** The handles that `k` allocations give when `lo` records exist: lo, lo + 1, ... */
  function Allocated(lo: nat, k: nat): (r: seq<Handle>)
    ensures |r| == k
    ensures forall j :: 0 <= j < k ==> r[j] == lo + j
  {
    if k == 0 then [] else Allocated(lo, k - 1) + [lo + k - 1]
  }

  /** The frame's time step: the elapsed nanoseconds in seconds, capped at MaxDt. */
  function FrameDt(deltaNanos: int): (dt: real)
    ensures dt <= MaxDt
    ensures dt <= deltaNanos as real / 1000000000.0
    ensures dt == MaxDt || dt == deltaNanos as real / 1000000000.0
    ensures deltaNanos >= 0 ==> dt >= 0.0
  {
    Min(deltaNanos as real / 1000000000.0, MaxDt)
  }

  /** Vertical velocity after gravity: a particle slower than terminal velocity is
      accelerated but not past it; a faster one is left alone, never slowed down. */
  function FallSpeed(velocityY: real, dt: real): (r: real)
    ensures velocityY >= TerminalVelocity ==> r == velocityY
    ensures velocityY < TerminalVelocity ==> r <= TerminalVelocity
    ensures velocityY < TerminalVelocity ==> r == TerminalVelocity || r == velocityY + Gravity * dt
    ensures dt >= 0.0 ==> r >= velocityY
  {
    if velocityY < TerminalVelocity then Min(velocityY + Gravity * dt, TerminalVelocity) else velocityY
  }

  /** One integration step of a live particle over `dt` seconds. */
  function Advance(a: Attrs, dt: real, exp: real -> real, sin: real -> real): (r: Attrs)
    ensures r.velocityX == a.velocityX * exp(-a.drag * dt)
    ensures r.velocityY == FallSpeed(a.velocityY, dt)
    ensures r.y == a.y + r.velocityY * dt
    ensures r.x == a.x + r.velocityX * dt + sin(r.wobblePhase) * a.wobbleAmplitude * dt
    ensures r.wobblePhase == a.wobblePhase + a.wobbleSpeed * dt
    ensures r.rotation == a.rotation + a.rotationSpeed * dt
    ensures r.flipPhase == a.flipPhase + a.flipSpeed * dt
    ensures r.(x := a.x, y := a.y, velocityX := a.velocityX, velocityY := a.velocityY,
               rotation := a.rotation, flipPhase := a.flipPhase, wobblePhase := a.wobblePhase) == a
  {
    var vx := a.velocityX * exp(-a.drag * dt);
    var vy := FallSpeed(a.velocityY, dt);
    var wobblePhase := a.wobblePhase + a.wobbleSpeed * dt;
    var wobble := sin(wobblePhase) * a.wobbleAmplitude * dt;
    a.(x := a.x + vx * dt + wobble, y := a.y + vy * dt,
       velocityX := vx, velocityY := vy,
       rotation := a.rotation + a.rotationSpeed * dt,
       flipPhase := a.flipPhase + a.flipSpeed * dt,
       wobblePhase := wobblePhase)
  }

  /** Drag never reverses the horizontal velocity: with a decay factor in [0, 1]
      (as exp(-drag * dt) is for non-negative drag and dt) the new velocity has
      the same sign and no greater magnitude. */
  lemma DragDecays(a: Attrs, dt: real, exp: real -> real, sin: real -> real)
    requires 0.0 <= exp(-a.drag * dt) <= 1.0
    ensures Abs(Advance(a, dt, exp, sin).velocityX) <= Abs(a.velocityX)
    ensures a.velocityX >= 0.0 ==> Advance(a, dt, exp, sin).velocityX >= 0.0
    ensures a.velocityX <= 0.0 ==> Advance(a, dt, exp, sin).velocityX <= 0.0
  {
    var e := exp(-a.drag * dt);
    var v := a.velocityX;
    assert Advance(a, dt, exp, sin).velocityX == v * e;
    if v >= 0.0 {
      assert 0.0 <= v * e <= v * 1.0;
    } else {
      assert 0.0 <= (-v) * e <= (-v) * 1.0;
      assert v * e == -((-v) * e);
    }
  }

  /** What an update does to a particle in state `s`: a dead one is skipped,
      a live one is stepped and then retires when it has passed the bottom line. */
  function FateOf(s: Particle, f: FrameStep): (k: Fate)
    ensures k == Skipped <==> !s.alive
    ensures k == Retires <==> s.alive && Advance(s.attrs, f.dt, f.exp, f.sin).y > f.bottom
  {
    if !s.alive then Skipped
    else if Advance(s.attrs, f.dt, f.exp, f.sin).y > f.bottom then Retires
    else Survives
  }

  /** The state of a particle after an update. */
  function Next(s: Particle, f: FrameStep): (r: Particle)
    ensures !s.alive ==> r == s
    ensures s.alive ==> r.attrs == Advance(s.attrs, f.dt, f.exp, f.sin)
    ensures r.alive <==> FateOf(s, f) == Survives
  {
    if !s.alive then s
    else Particle(Advance(s.attrs, f.dt, f.exp, f.sin), FateOf(s, f) == Survives)
  }

  /** The horizontal squash used when drawing: |flipValue| clamped to [MinScaleX, 1]. */
  function ScaleX(flipValue: real): (r: real)
    ensures MinScaleX <= r <= 1.0
    ensures MinScaleX <= Abs(flipValue) <= 1.0 ==> r == Abs(flipValue)
    ensures Abs(flipValue) < MinScaleX ==> r == MinScaleX
    ensures Abs(flipValue) > 1.0 ==> r == 1.0
  {
    var v := Abs(flipValue);
    if v < MinScaleX then MinScaleX else if v > 1.0 then 1.0 else v
  }
}
