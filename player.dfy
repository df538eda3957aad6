/**
 * The first-person player controller (Player): Quake-style ground friction
 * and acceleration, air strafing with air control, jump consumption, ground
 * detection and the respawn below the death plane.
 *
 * The physics body is reduced to the state the controller reads and writes:
 * the transform it last put on the body, and the body's linear and angular
 * velocity. What the engine reports back (the motion state's origin, the
 * ground ray's hit) and the camera's orientation are inputs.
 */
module PlayerMovement {
  import opened Optional
  import opened Geometry
  import opened Input

  /** A ground ray hit closer than this below the player means standing. */
  const GroundThreshold := 1.5
  /** Below this height the player has fallen out of the world. */
  const DeathPlane := -50.0
  /** The default arguments of `repositionPlayer`. */
  const RespawnPoint := Vec3(0.0, 5.0, 0.0)
  /** Below this magnitude `_airControl` treats an input as absent. */
  const AirControlGuard := 0.001
  /** The base gain of `_airControl`. */
  const AirControlGain := 32.0

  /** One movement regime: ground, air or strafe. */
  datatype Settings = Settings(maxSpeed: real, acceleration: real, deceleration: real)

  /** The constructor's `config` object; `None` is an absent property. */
  datatype Config = Config(
    position: Option<Vec3>, gravity: Option<real>, jumpForce: Option<real>,
    friction: Option<real>, airControl: Option<real>, groundSettings: Option<Settings>,
    airSettings: Option<Settings>, strafeSettings: Option<Settings>)

  /** The configuration the game passes in. */
  const GameConfig := Config(
    Some(Vec3(0.0, 128.0, 0.0)), Some(26.0), Some(12.0), Some(6.0), Some(1.0),
    Some(Settings(7.0, 14.0, 10.0)), Some(Settings(7.0, 2.0, 2.0)), Some(Settings(1.0, 50.0, 50.0)))

  /** `value || fallback` on a number: a missing value and 0 both fall back. */
  function OrDefault(value: Option<real>, fallback: real): (r: real)
    ensures r == fallback || (value.Some? && r == value.value)
    ensures r == fallback <==> value.None? || value.value == 0.0 || value.value == fallback
  {
    if value.Some? && value.value != 0.0 then value.value else fallback
  }

  /** `value || fallback` on an object, which is never falsy. */
  function SettingsOr(value: Option<Settings>, fallback: Settings): (r: Settings)
    ensures value.Some? ==> r == value.value
    ensures value.None? ==> r == fallback
  {
    if value.Some? then value.value else fallback
  }

  /** One movement axis from its two keys: -1, 0 or 1, and opposing keys cancel. */
  function MoveAxis(negative: bool, positive: bool): (r: int)
    ensures -1 <= r <= 1
    ensures r == 0 <==> negative == positive
    ensures r == 1 <==> positive && !negative
    ensures r == -1 <==> negative && !positive
  {
    (if negative then -1 else 0) + (if positive then 1 else 0)
  }

  /** The camera's horizontal viewing direction, normalised. */
  function CameraForward(look: Vec3, len: Vec3 -> real): Vec3
  {
    Direction(Flat(look), len)
  }

  /** The camera's right-hand direction, normalised. */
  function CameraRight(forward: Vec3, up: Vec3, len: Vec3 -> real): Vec3
  {
    Direction(Cross(forward, up), len)
  }

  /** The wished velocity: the axes combined over the camera's horizontal basis. */
  function WishVelocity(moveX: int, moveZ: int, forward: Vec3, right: Vec3): Vec3
  {
    Vec3(moveX as real * right.x + moveZ as real * forward.x, 0.0,
         moveX as real * right.z + moveZ as real * forward.z)
  }

  /** The wished velocity for the camera looking along `look` with up vector `up`. */
  function PlayerWish(moveX: int, moveZ: int, look: Vec3, up: Vec3, len: Vec3 -> real): Vec3
  {
    WishVelocity(moveX, moveZ, CameraForward(look, len), CameraRight(CameraForward(look, len), up, len))
  }

  /** The wished direction: the wished velocity normalised, which stays horizontal. */
  function WishDirection(moveX: int, moveZ: int, look: Vec3, up: Vec3, len: Vec3 -> real): (r: Vec3)
    ensures r.y == 0.0
  {
    Direction(PlayerWish(moveX, moveZ, look, up, len), len)
  }

  /** The speed `_applyFriction` leaves: reduced by the friction drop when grounded, never below 0. */
  function FrictionSpeed(speed: real, onGround: bool, deceleration: real, friction: real,
                         t: real, delta: real): real
  {
    var drop := if onGround then Min(speed, deceleration) * friction * t * delta else 0.0;
    var newSpeed := speed - drop;
    if newSpeed < 0.0 then 0.0 else newSpeed
  }

  /** Friction never speeds the player up and never reverses it; in the air it does nothing. */
  lemma FrictionBounds(speed: real, onGround: bool, deceleration: real, friction: real,
                       t: real, delta: real)
    requires speed >= 0.0 && deceleration >= 0.0 && friction >= 0.0 && t >= 0.0 && delta >= 0.0
    ensures 0.0 <= FrictionSpeed(speed, onGround, deceleration, friction, t, delta) <= speed
    ensures !onGround ==> FrictionSpeed(speed, onGround, deceleration, friction, t, delta) == speed
    ensures onGround && Min(speed, deceleration) * friction * t * delta >= speed ==>
      FrictionSpeed(speed, onGround, deceleration, friction, t, delta) == 0.0
  {
    var control := Min(speed, deceleration);
    MulNonnegative(control, friction);
    MulNonnegative(control * friction, t);
    MulNonnegative(control * friction * t, delta);
  }

  /**
   * `_applyFriction`: scales the horizontal velocity `vxz` (whose length the
   * engine reports as `speed`) to the speed friction leaves.
   */
  function ApplyFriction(vxz: Vec3, speed: real, onGround: bool, deceleration: real,
                         friction: real, t: real, delta: real): Vec3
  {
    var newSpeed := FrictionSpeed(speed, onGround, deceleration, friction, t, delta);
    Scale(vxz, if speed > 0.0 then newSpeed / speed else newSpeed)
  }

  /** In the air friction leaves a moving velocity as it is. */
  lemma AirFrictionIdle(vxz: Vec3, speed: real, deceleration: real, friction: real, t: real, delta: real)
    requires speed > 0.0
    ensures ApplyFriction(vxz, speed, false, deceleration, friction, t, delta) == vxz
  {
    DivSelf(speed);
  }

  /**
   * Friction keeps the direction of a moving player: the new velocity is
   * the old one shrunk by a factor in [0, 1], with exactly the reduced speed.
   */
  lemma FrictionRescales(vxz: Vec3, speed: real, onGround: bool, deceleration: real,
                         friction: real, t: real, delta: real)
    requires IsLengthOf(speed, vxz) && speed > 0.0
    requires deceleration >= 0.0 && friction >= 0.0 && t >= 0.0 && delta >= 0.0
    ensures var c := FrictionSpeed(speed, onGround, deceleration, friction, t, delta) / speed;
      0.0 <= c <= 1.0 && ApplyFriction(vxz, speed, onGround, deceleration, friction, t, delta) == Scale(vxz, c)
    ensures var newSpeed := FrictionSpeed(speed, onGround, deceleration, friction, t, delta);
      IsLengthOf(newSpeed, ApplyFriction(vxz, speed, onGround, deceleration, friction, t, delta))
  {
    var newSpeed := FrictionSpeed(speed, onGround, deceleration, friction, t, delta);
    FrictionBounds(speed, onGround, deceleration, friction, t, delta);
    var k := newSpeed / speed;
    assert 0.0 <= k <= 1.0;
    ScaleLength(vxz, speed, k);
    assert k * speed == newSpeed;
  }

  /**
   * `_accelerate`: if the velocity's projection on `dir` is below
   * `targetSpeed`, add along `dir` the smaller of `accel·delta·targetSpeed`
   * and the missing speed.
   */
  function Accelerate(vxz: Vec3, dir: Vec3, targetSpeed: real, accel: real, delta: real): (r: Vec3)
    ensures r.y == vxz.y
    ensures targetSpeed - Dot(vxz, dir) <= 0.0 ==> r == vxz
  {
    var addSpeed := targetSpeed - Dot(vxz, dir);
    if addSpeed <= 0.0 then vxz
    else
      var accelSpeed := Min(accel * delta * targetSpeed, addSpeed);
      Vec3(vxz.x + accelSpeed * dir.x, vxz.y, vxz.z + accelSpeed * dir.z)
  }

  /**
   * Along a horizontal unit direction, acceleration raises the projection by
   * exactly the added speed and never past the target.
   */
  lemma AccelerateProjection(vxz: Vec3, dir: Vec3, targetSpeed: real, accel: real, delta: real)
    requires dir.y == 0.0 && IsLengthOf(1.0, dir)
    requires targetSpeed - Dot(vxz, dir) > 0.0
    ensures var r := Accelerate(vxz, dir, targetSpeed, accel, delta);
      && Dot(r, dir) == Dot(vxz, dir) + Min(accel * delta * targetSpeed, targetSpeed - Dot(vxz, dir))
      && Dot(r, dir) <= targetSpeed
      && (accel * delta * targetSpeed >= 0.0 ==> Dot(r, dir) >= Dot(vxz, dir))
  {
    var a := Min(accel * delta * targetSpeed, targetSpeed - Dot(vxz, dir));
    var r := Accelerate(vxz, dir, targetSpeed, accel, delta);
    assert dir.x * dir.x + dir.z * dir.z == 1.0;
    calc {
      Dot(r, dir);
      (vxz.x + a * dir.x) * dir.x + vxz.y * dir.y + (vxz.z + a * dir.z) * dir.z;
      Dot(vxz, dir) + a * (dir.x * dir.x + dir.z * dir.z);
      Dot(vxz, dir) + a;
    }
  }

  /**
   * `_airControl`: with forward input and a wished speed, turn the horizontal
   * velocity toward `dir` by a gain growing with the squared alignment, then
   * restore the original horizontal speed.
   */
  function AirControl(vxz: Vec3, dir: Vec3, targetSpeed: real, delta: real, moveZ: int,
                      airControl: real, len: Vec3 -> real): (r: Vec3)
    ensures Abs(moveZ as real) < AirControlGuard || Abs(targetSpeed) < AirControlGuard ==> r == vxz
  {
    if Abs(moveZ as real) < AirControlGuard || Abs(targetSpeed) < AirControlGuard then vxz
    else
      var speed := len(vxz);
      var v := Normalize(vxz, speed);
      var dot := Dot(v, dir);
      var u := if dot > 0.0 then SteeredDirection(v, dir, speed, AirGain(airControl, dot, delta), len) else v;
      Rescaled(u, speed)
  }

  /** The steering gain: the base gain times the air control, the squared alignment and the frame time. */
  function AirGain(airControl: real, dot: real, delta: real): real
  {
    AirControlGain * (airControl * dot * dot * delta)
  }

  lemma AirGainNonnegative(airControl: real, dot: real, delta: real)
    requires airControl >= 0.0 && dot > 0.0 && delta >= 0.0
    ensures AirGain(airControl, dot, delta) >= 0.0
  {
    MulNonnegative(airControl, dot);
    MulNonnegative(airControl * dot, dot);
    MulNonnegative(airControl * dot * dot, delta);
  }

  /** The horizontal components of `u` scaled by `speed`. */
  function Rescaled(u: Vec3, speed: real): Vec3
  {
    Vec3(u.x * speed, u.y, u.z * speed)
  }

  /** The steered velocity normalised back to a direction. */
  function SteeredDirection(v: Vec3, dir: Vec3, speed: real, k: real, len: Vec3 -> real): (r: Vec3)
    ensures v.y == 0.0 ==> r.y == 0.0
  {
    Normalize(Steered(v, dir, speed, k), len(Steered(v, dir, speed, k)))
  }

  /** The velocity `v·speed` pushed toward `dir` by the gain `k`. */
  function Steered(v: Vec3, dir: Vec3, speed: real, k: real): Vec3
  {
    Vec3(v.x * speed + dir.x * k, v.y, v.z * speed + dir.z * k)
  }

  /** Pushing a moving horizontal unit direction toward an aligned direction never cancels it. */
  lemma SteeredNonzero(v: Vec3, dir: Vec3, speed: real, k: real)
    requires IsLengthOf(1.0, v) && v.y == 0.0 && dir.y == 0.0
    requires speed > 0.0 && k >= 0.0 && Dot(v, dir) > 0.0
    ensures Steered(v, dir, speed, k) != Zero
  {
    MulNonnegative(k, Dot(v, dir));
    SteerProjection(v, dir, speed, k);
    assert Dot(Steered(v, dir, speed, k), v) > 0.0;
  }

  /** A Euclidean length function at one vector. */
  lemma EuclideanAt(len: Vec3 -> real, v: Vec3)
    requires Euclidean(len)
    ensures IsLengthOf(len(v), v) && (len(v) == 0.0 <==> v == Zero)
  {
  }

  /** A horizontal unit direction scaled in its horizontal components has the scale as its length. */
  lemma RescaleUnit(u: Vec3, speed: real)
    requires IsLengthOf(1.0, u) && u.y == 0.0 && speed >= 0.0
    ensures IsLengthOf(speed, Rescaled(u, speed)) && Rescaled(u, speed).y == 0.0
  {
    assert Rescaled(u, speed) == Scale(u, speed);
    ScaleLength(u, 1.0, speed);
  }

  /** The steered vector's projection on the old direction `v`. */
  lemma SteerProjection(v: Vec3, d: Vec3, s: real, k: real)
    requires v.y == 0.0 && d.y == 0.0
    ensures Dot(Vec3(v.x * s + d.x * k, v.y, v.z * s + d.z * k), v) == s * Dot(v, v) + k * Dot(v, d)
  {
    assert (v.x * s + d.x * k) * v.x == s * (v.x * v.x) + k * (v.x * d.x);
    assert (v.z * s + d.z * k) * v.z == s * (v.z * v.z) + k * (v.z * d.z);
  }

  /** Air control leaves a standing player standing. */
  lemma StillAirControl(vxz: Vec3, dir: Vec3, targetSpeed: real, delta: real, moveZ: int,
                        airControl: real, len: Vec3 -> real)
    requires len(vxz) == 0.0 && vxz.y == 0.0
    ensures AirControl(vxz, dir, targetSpeed, delta, moveZ, airControl, len) ==
      (if Abs(moveZ as real) < AirControlGuard || Abs(targetSpeed) < AirControlGuard then vxz else Zero)
  {
    if !(Abs(moveZ as real) < AirControlGuard || Abs(targetSpeed) < AirControlGuard) {
      var v := Normalize(vxz, 0.0);
      var dot := Dot(v, dir);
      var u := if dot > 0.0 then SteeredDirection(v, dir, 0.0, AirGain(airControl, dot, delta), len) else v;
      assert u.y == 0.0;
      assert AirControl(vxz, dir, targetSpeed, delta, moveZ, airControl, len) == Rescaled(u, 0.0);
    }
  }

  /** Air control steers without changing the horizontal speed. */
  lemma AirControlKeepsSpeed(vxz: Vec3, dir: Vec3, targetSpeed: real, delta: real, moveZ: int,
                             airControl: real, len: Vec3 -> real)
    requires Euclidean(len)
    requires vxz.y == 0.0 && dir.y == 0.0 && airControl >= 0.0 && delta >= 0.0
    ensures var r := AirControl(vxz, dir, targetSpeed, delta, moveZ, airControl, len);
      r.y == 0.0 && IsLengthOf(len(vxz), r)
  {
    var r := AirControl(vxz, dir, targetSpeed, delta, moveZ, airControl, len);
    var speed := len(vxz);
    EuclideanAt(len, vxz);
    if Abs(moveZ as real) < AirControlGuard || Abs(targetSpeed) < AirControlGuard {
      assert r == vxz;
    } else if speed == 0.0 {
      StillAirControl(vxz, dir, targetSpeed, delta, moveZ, airControl, len);
    } else {
      assert r.y == 0.0 && IsLengthOf(speed, r) by {
        var v := Normalize(vxz, speed);
        var dot := Dot(v, dir);
        assert IsLengthOf(1.0, v) && v.y == 0.0;
        if dot > 0.0 {
          var k := AirGain(airControl, dot, delta);
          AirGainNonnegative(airControl, dot, delta);
          SteeredNonzero(v, dir, speed, k);
          EuclideanAt(len, Steered(v, dir, speed, k));
          var u := SteeredDirection(v, dir, speed, k, len);
          RescaleUnit(u, speed);
          assert r == Rescaled(u, speed);
        } else {
          RescaleUnit(v, speed);
          assert r == Rescaled(v, speed);
        }
      }
    }
  }

  /** The wished speed and acceleration `_airMove` settles on. */
  datatype Wish = Wish(speed: real, accel: real)

  /**
   * Air strafing: decelerate when the velocity opposes the wished direction;
   * with sideways input only, cap the wished speed at the strafe maximum and
   * use the strafe acceleration.
   */
  function AirParameters(vxz: Vec3, wishDir: Vec3, wishSpeed: real, moveX: int, moveZ: int,
                         air: Settings, strafe: Settings): (r: Wish)
    ensures moveZ == 0 && moveX != 0 ==>
      r.accel == strafe.acceleration && r.speed == Min(wishSpeed, strafe.maxSpeed)
    ensures !(moveZ == 0 && moveX != 0) ==> r.speed == wishSpeed
    ensures !(moveZ == 0 && moveX != 0) && Dot(vxz, wishDir) < 0.0 ==> r.accel == air.deceleration
    ensures !(moveZ == 0 && moveX != 0) && Dot(vxz, wishDir) >= 0.0 ==> r.accel == air.acceleration
  {
    var accel := if Dot(vxz, wishDir) < 0.0 then air.deceleration else air.acceleration;
    if moveZ == 0 && moveX != 0 then
      Wish(if wishSpeed > strafe.maxSpeed then strafe.maxSpeed else wishSpeed, strafe.acceleration)
    else
      Wish(wishSpeed, accel)
  }

  /** Whether a ground ray hit at height `hitY` (if any) counts as standing at `p`. */
  predicate Grounded(p: Vec3, hitY: Option<real>)
  {
    hitY.Some? && p.y - hitY.value < GroundThreshold
  }

  /** The `config.x || default` fallbacks give the game's configuration unchanged, and a 0 falls back. */
  lemma ConfigFallbacks()
    ensures OrDefault(GameConfig.gravity, 26.0) == 26.0
    ensures OrDefault(GameConfig.airControl, 0.0) == 1.0
    ensures OrDefault(Some(0.0), 6.0) == 6.0
    ensures OrDefault(None, 12.0) == 12.0
  {
  }

  class Player {
    const gravity: real
    const jumpForce: real
    const friction: real
    const airControl: real
    const groundSettings: Settings
    const airSettings: Settings
    const strafeSettings: Settings

    var position: Vec3
    var onGround: bool
    /** The transform last written to the physics body. */
    var bodyOrigin: Vec3
    /** The physics body's linear velocity. */
    var velocity: Vec3
    /** The physics body's angular velocity. */
    var angularVelocity: Vec3
    var cameraPosition: Vec3

    constructor (config: Config)
      ensures position == (if config.position.Some? then config.position.value else Vec3(0.0, 2.0, 0.0))
      ensures bodyOrigin == position && velocity == Zero && angularVelocity == Zero && !onGround
      ensures gravity == OrDefault(config.gravity, 26.0)
      ensures jumpForce == OrDefault(config.jumpForce, 12.0)
      ensures friction == OrDefault(config.friction, 6.0)
      ensures airControl == OrDefault(config.airControl, 0.0)
      ensures groundSettings == SettingsOr(config.groundSettings, Settings(7.0, 14.0, 10.0))
      ensures airSettings == SettingsOr(config.airSettings, Settings(7.0, 2.0, 2.0))
      ensures strafeSettings == SettingsOr(config.strafeSettings, Settings(1.0, 50.0, 50.0))
    {
      position := if config.position.Some? then config.position.value else Vec3(0.0, 2.0, 0.0);
      gravity := OrDefault(config.gravity, 26.0);
      jumpForce := OrDefault(config.jumpForce, 12.0);
      friction := OrDefault(config.friction, 6.0);
      airControl := OrDefault(config.airControl, 0.0);
      groundSettings := SettingsOr(config.groundSettings, Settings(7.0, 14.0, 10.0));
      airSettings := SettingsOr(config.airSettings, Settings(7.0, 2.0, 2.0));
      strafeSettings := SettingsOr(config.strafeSettings, Settings(1.0, 50.0, 50.0));
      onGround := false;
      bodyOrigin := if config.position.Some? then config.position.value else Vec3(0.0, 2.0, 0.0);
      velocity := Zero;
      angularVelocity := Zero;
      cameraPosition := Zero;
    }

    /** The wished speed and acceleration of an air move. */
    function AirWish(vel: Vec3, moveX: int, moveZ: int, look: Vec3, up: Vec3, len: Vec3 -> real): Wish
    {
      var wishVel := PlayerWish(moveX, moveZ, look, up, len);
      AirParameters(Flat(vel), Direction(wishVel, len), len(wishVel) * airSettings.maxSpeed,
                    moveX, moveZ, airSettings, strafeSettings)
    }

    /** The horizontal velocity after air acceleration, before air control. */
    function AirAccelerated(vel: Vec3, moveX: int, moveZ: int, look: Vec3, up: Vec3,
                            delta: real, len: Vec3 -> real): Vec3
    {
      var wish := AirWish(vel, moveX, moveZ, look, up, len);
      Accelerate(Flat(vel), WishDirection(moveX, moveZ, look, up, len), wish.speed, wish.accel, delta)
    }

    /** `_airMove`: air acceleration and air control on the horizontal velocity; the vertical one passes through. */
    function AirVelocity(vel: Vec3, moveX: int, moveZ: int, look: Vec3, up: Vec3,
                         delta: real, len: Vec3 -> real): (r: Vec3)
      ensures r.y == vel.y
    {
      var accelerated := AirAccelerated(vel, moveX, moveZ, look, up, delta, len);
      var controlled :=
        if airControl > 0.0
        then AirControl(accelerated, WishDirection(moveX, moveZ, look, up, len),
                        AirWish(vel, moveX, moveZ, look, up, len).speed, delta, moveZ, airControl, len)
        else accelerated;
      Vec3(controlled.x, vel.y, controlled.z)
    }

    /**
     * `_groundMove` as a value: friction, then ground acceleration; the
     * vertical velocity becomes the jump force when `jumping`, else passes
     * through.
     */
    function GroundVelocity(vel: Vec3, moveX: int, moveZ: int, look: Vec3, up: Vec3,
                            grounded: bool, jumping: bool, delta: real, len: Vec3 -> real): (r: Vec3)
      ensures r.y == (if jumping then jumpForce else vel.y)
    {
      var wishVel := PlayerWish(moveX, moveZ, look, up, len);
      var vxz := Flat(vel);
      var slowed := ApplyFriction(vxz, len(vxz), grounded, groundSettings.deceleration, friction, 1.0, delta);
      var accelerated := Accelerate(slowed, WishDirection(moveX, moveZ, look, up, len),
                                    len(wishVel) * groundSettings.maxSpeed, groundSettings.acceleration, delta);
      Vec3(accelerated.x, if jumping then jumpForce else vel.y, accelerated.z)
    }

    /** Without movement keys the ground move is friction alone (the zero vector having length 0). */
    lemma GroundIdleIsFriction(vel: Vec3, look: Vec3, up: Vec3, grounded: bool, jumping: bool,
                               delta: real, len: Vec3 -> real)
      requires len(Zero) == 0.0
      ensures var r := GroundVelocity(vel, 0, 0, look, up, grounded, jumping, delta, len);
        var slowed := ApplyFriction(Flat(vel), len(Flat(vel)), grounded, groundSettings.deceleration,
                                    friction, 1.0, delta);
        r.x == slowed.x && r.z == slowed.z
    {
      assert PlayerWish(0, 0, look, up, len) == Zero;
    }

    /** In the air with air control on, the move keeps the horizontal speed acceleration produced. */
    lemma AirControlSpeed(vel: Vec3, moveX: int, moveZ: int, look: Vec3, up: Vec3,
                          delta: real, len: Vec3 -> real)
      requires Euclidean(len) && airControl > 0.0 && delta >= 0.0
      ensures IsLengthOf(len(AirAccelerated(vel, moveX, moveZ, look, up, delta, len)),
                         Flat(AirVelocity(vel, moveX, moveZ, look, up, delta, len)))
    {
      var accelerated := AirAccelerated(vel, moveX, moveZ, look, up, delta, len);
      AirControlKeepsSpeed(accelerated, WishDirection(moveX, moveZ, look, up, len),
                           AirWish(vel, moveX, moveZ, look, up, len).speed, delta, moveZ, airControl, len);
    }

    /** `_checkGround`, given where the downward ray hit (if it hit). */
    method CheckGround(hitY: Option<real>)
      modifies this`onGround
      ensures onGround <==> Grounded(position, hitY)
    {
      if hitY.Some? {
        var distance := position.y - hitY.value;
        onGround := distance < GroundThreshold;
      } else {
        onGround := false;
      }
    }

    /** `_groundMove`: computes the new velocity and consumes the jump it performs. */
    method GroundMove(delta: real, vel: Vec3, input: InputHandler, look: Vec3, up: Vec3,
                      len: Vec3 -> real) returns (newVel: Vec3)
      modifies input
      ensures var jumping := old(input.actions.jump) && onGround;
        && newVel == GroundVelocity(vel, MoveAxis(old(input.actions.left), old(input.actions.right)),
                                    MoveAxis(old(input.actions.backward), old(input.actions.forward)),
                                    look, up, onGround, jumping, delta, len)
        && input.actions == (if jumping then old(input.actions).Set(Jump, false) else old(input.actions))
    {
      KeyNames();
      var moveX := MoveAxis(input.IsKeyDown("left"), input.IsKeyDown("right"));
      var moveZ := MoveAxis(input.IsKeyDown("backward"), input.IsKeyDown("forward"));
      var jumping := false;
      if input.IsKeyDown("jump") && onGround {
        jumping := true;
        input.ClearJump();
      }
      newVel := GroundVelocity(vel, moveX, moveZ, look, up, onGround, jumping, delta, len);
    }

    /** `repositionPlayer`: put the body and the player at `start` and stop all motion. */
    method Reposition(start: Vec3)
      modifies this`bodyOrigin, this`velocity, this`angularVelocity, this`position
      ensures position == start && bodyOrigin == start
      ensures velocity == Zero && angularVelocity == Zero
    {
      bodyOrigin := start;
      velocity := Zero;
      angularVelocity := Zero;
      position := start;
    }

    /**
     * One frame: read back where physics moved the body (`motionOrigin`, if
     * the body has a motion state), classify the ground from the ray hit
     * `hitY`, set the ground or air velocity, respawn below the death plane
     * and move the camera onto the player.
     */
    method Update(delta: real, motionOrigin: Option<Vec3>, hitY: Option<real>, input: InputHandler,
                  look: Vec3, up: Vec3, len: Vec3 -> real)
      modifies this`position, this`onGround, this`bodyOrigin, this`velocity, this`angularVelocity
      modifies this`cameraPosition, input
      ensures var p := if motionOrigin.Some? then motionOrigin.value else old(position);
        && (onGround <==> Grounded(p, hitY))
        && (p.y < DeathPlane ==>
              position == RespawnPoint && bodyOrigin == RespawnPoint
              && velocity == Zero && angularVelocity == Zero)
        && (p.y >= DeathPlane ==>
              position == p && bodyOrigin == old(bodyOrigin) && angularVelocity == old(angularVelocity))
        && cameraPosition == position
      ensures var p := if motionOrigin.Some? then motionOrigin.value else old(position);
        var moveX := MoveAxis(old(input.actions.left), old(input.actions.right));
        var moveZ := MoveAxis(old(input.actions.backward), old(input.actions.forward));
        p.y >= DeathPlane ==>
          velocity == (if onGround
                       then GroundVelocity(old(velocity), moveX, moveZ, look, up, true,
                                           old(input.actions.jump), delta, len)
                       else AirVelocity(old(velocity), moveX, moveZ, look, up, delta, len))
      ensures input.actions ==
        (if onGround && old(input.actions.jump) then old(input.actions).Set(Jump, false)
         else old(input.actions))
    {
      if motionOrigin.Some? {
        position := motionOrigin.value;
      }
      CheckGround(hitY);
      var vel := velocity;
      var newVel;
      if onGround {
        newVel := GroundMove(delta, vel, input, look, up, len);
      } else {
        KeyNames();
        var moveX := MoveAxis(input.IsKeyDown("left"), input.IsKeyDown("right"));
        var moveZ := MoveAxis(input.IsKeyDown("backward"), input.IsKeyDown("forward"));
        newVel := AirVelocity(vel, moveX, moveZ, look, up, delta, len);
      }
      velocity := newVel;
      if position.y < DeathPlane {
        Reposition(RespawnPoint);
      }
      cameraPosition := position;
    }
  }

  /** The movement code reads the actions by these names. */
  lemma KeyNames()
    ensures ActionNamed("left") == Some(Left) && ActionNamed("right") == Some(Right)
    ensures ActionNamed("forward") == Some(Forward) && ActionNamed("backward") == Some(Backward)
    ensures ActionNamed("jump") == Some(Jump)
  {
    NameRoundTrip(Left);
    NameRoundTrip(Right);
    NameRoundTrip(Forward);
    NameRoundTrip(Backward);
    NameRoundTrip(Jump);
  }
}
