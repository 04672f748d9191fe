/**
 * The velocity and yaw commands the tracker sends to the vehicle.
 *
 * Position is steered without a PID: each axis has a dead-band, a
 * proportional gain and a clamp to the speed limit. Yaw goes through a PID
 * controller whose output is clamped again before it is sent. The PID
 * controller's own arithmetic belongs to a library and is not modelled: its
 * output for a given pixel offset is taken as an arbitrary number.
 */
module Control {
  import opened Basics

  /** Speed limit of every translational axis, in m/s. */
  const MAX_SPEED: real := 1.0
  /** Yaw rate limit, in degrees per second. */
  const MAX_YAW: real := 15.0

  const P_YAW: real := 0.18
  const I_YAW: real := 0.018
  const D_YAW: real := 0.0
  const P_ROLL: real := 0.135
  const I_ROLL: real := 0.182
  const D_ROLL: real := 0.0036

  /** Lateral gain (m/s per pixel) and dead-band (pixels). */
  const KX: real := 0.004
  const DEAD_X: real := 20.0
  /** Vertical gain (m/s per pixel) and dead-band (pixels). */
  const KY: real := 0.006
  const DEAD_Y: real := 15.0
  /** Forward gain (m/s per square pixel), dead-band and ideal box area (square pixels). */
  const KZ: real := 0.0005
  const DEAD_AREA: real := 400.0
  const AREA_REF: real := 3000.0

  /** The settings a PID object is built with: gains, set-point and output limits. */
  datatype PidSettings = PidSettings(kp: real, ki: real, kd: real, setpoint: real, lower: real, upper: real)

  /** What reaches the vehicle: a body-frame velocity held for `duration` seconds, or a relative yaw. */
  datatype VehicleCommand = NedVelocity(vx: real, vy: real, vz: real, duration: nat) | YawRelative(angle: real)

  /** A body-frame velocity: vx forward, vy right, vz down. */
  datatype Velocity = Velocity(vx: real, vy: real, vz: real)

  function Abs(x: real): real { if x < 0.0 then -x else x }

  /** `max(min(v, limit), -limit)`. */
  function Clamp(v: real, limit: real): (r: real)
    requires limit >= 0.0
    ensures -limit <= r <= limit
    ensures -limit <= v <= limit ==> r == v
    ensures v > limit ==> r == limit
    ensures v < -limit ==> r == -limit
  {
    var upper := if v < limit then v else limit;
    if upper > -limit then upper else -limit
  }

  /**
   * The velocity `send_position_control(dx, dy, area, areaRef)` sends for a
   * target whose box centre is `dx` pixels right of and `dy` pixels below
   * the frame centre and whose box covers `area` square pixels.
   */
  function PositionVelocity(dx: real, dy: real, area: real, areaRef: real): (v: Velocity)
    // every component within the speed limit
    ensures -MAX_SPEED <= v.vx <= MAX_SPEED && -MAX_SPEED <= v.vy <= MAX_SPEED && -MAX_SPEED <= v.vz <= MAX_SPEED
    // dead-bands
    ensures Abs(dx) <= DEAD_X ==> v.vy == 0.0
    ensures Abs(dy) <= DEAD_Y ==> v.vz == 0.0
    ensures Abs(areaRef - area) <= DEAD_AREA ==> v.vx == 0.0
    // outside a dead-band: the proportional command, limited
    ensures Abs(dx) > DEAD_X ==> v.vy == Clamp(KX * dx, MAX_SPEED)
    ensures Abs(dy) > DEAD_Y ==> v.vz == Clamp(-KY * dy, MAX_SPEED)
    ensures Abs(areaRef - area) > DEAD_AREA ==> v.vx == Clamp(KZ * (areaRef - area), MAX_SPEED)
    // signs: vy follows dx (right is positive); vz opposes dy (negative vz is up in the NED frame);
    // vx follows areaRef - area (a box smaller than the ideal one gives a forward command)
    ensures dx > DEAD_X ==> v.vy > 0.0
    ensures dx < -DEAD_X ==> v.vy < 0.0
    ensures dy > DEAD_Y ==> v.vz < 0.0
    ensures dy < -DEAD_Y ==> v.vz > 0.0
    ensures areaRef - area > DEAD_AREA ==> v.vx > 0.0
    ensures areaRef - area < -DEAD_AREA ==> v.vx < 0.0
  {
    var vy := if Abs(dx) > DEAD_X then KX * dx else 0.0;
    var vz := if Abs(dy) > DEAD_Y then -dy * KY else 0.0;
    var deltaArea := areaRef - area;
    var vx := if Abs(deltaArea) > DEAD_AREA then deltaArea * KZ else 0.0;
    Velocity(Clamp(vx, MAX_SPEED), Clamp(vy, MAX_SPEED), Clamp(vz, MAX_SPEED))
  }

  /** Each component depends on its own input only. */
  lemma PositionAxesIndependent(dx: real, dy: real, area: real, areaRef: real, dx': real, dy': real, area': real, areaRef': real)
    ensures dx == dx' ==> PositionVelocity(dx, dy, area, areaRef).vy == PositionVelocity(dx', dy', area', areaRef').vy
    ensures dy == dy' ==> PositionVelocity(dx, dy, area, areaRef).vz == PositionVelocity(dx', dy', area', areaRef').vz
    ensures areaRef - area == areaRef' - area' ==>
      PositionVelocity(dx, dy, area, areaRef).vx == PositionVelocity(dx', dy', area', areaRef').vx
  {
  }

  /** A centred target at the ideal area asks for no motion; 25 pixels right asks for 0.1 m/s right. */
  lemma PositionExamples()
    ensures PositionVelocity(0.0, 0.0, 3000.0, AREA_REF) == Velocity(0.0, 0.0, 0.0)
    ensures PositionVelocity(25.0, 0.0, 3000.0, AREA_REF) == Velocity(0.0, 0.1, 0.0)
    ensures PositionVelocity(20.0, 0.0, 3000.0, AREA_REF).vy == 0.0
    ensures PositionVelocity(21.0, 0.0, 3000.0, AREA_REF).vy > 0.0
  {
  }

  /** The control layer's state: the two PID objects, None until configured, and what has been sent. */
  class Controller {
    var pidYaw: Option<PidSettings>
    var pidRoll: Option<PidSettings>
    ghost var sent: seq<VehicleCommand>

    constructor ()
      ensures pidYaw == None && pidRoll == None && sent == []
    {
      pidYaw := None;
      pidRoll := None;
      sent := [];
    }

    /**
     * `configure_PID(mode)`: gains from the tables in "PID" mode, integral
     * and derivative switched off otherwise; limits ±15 °/s and ±1 m/s.
     */
    method ConfigurePID(mode: string)
      modifies this`pidYaw, this`pidRoll
      ensures mode == "PID" ==>
        pidYaw == Some(PidSettings(P_YAW, I_YAW, D_YAW, 0.0, -MAX_YAW, MAX_YAW)) &&
        pidRoll == Some(PidSettings(P_ROLL, I_ROLL, D_ROLL, 0.0, -MAX_SPEED, MAX_SPEED))
      ensures mode != "PID" ==>
        pidYaw == Some(PidSettings(P_YAW, 0.0, 0.0, 0.0, -MAX_YAW, MAX_YAW)) &&
        pidRoll == Some(PidSettings(P_ROLL, 0.0, 0.0, 0.0, -MAX_SPEED, MAX_SPEED))
    {
      var yaw, roll;
      if mode == "PID" {
        yaw := PidSettings(P_YAW, I_YAW, D_YAW, 0.0, 0.0, 0.0);
        roll := PidSettings(P_ROLL, I_ROLL, D_ROLL, 0.0, 0.0, 0.0);
      } else {
        yaw := PidSettings(P_YAW, 0.0, 0.0, 0.0, 0.0, 0.0);
        roll := PidSettings(P_ROLL, 0.0, 0.0, 0.0, 0.0, 0.0);
      }
      pidYaw := Some(yaw.(lower := -MAX_YAW, upper := MAX_YAW));
      pidRoll := Some(roll.(lower := -MAX_SPEED, upper := MAX_SPEED));
    }

    /** `stop_drone()`: a zero velocity held for one second. */
    method StopDrone()
      modifies this`sent
      ensures sent == old(sent) + [NedVelocity(0.0, 0.0, 0.0, 1)]
    {
      sent := sent + [NedVelocity(0.0, 0.0, 0.0, 1)];
    }

    /**
     * `send_yaw_control(dx)`. `pidOutput` is what the yaw PID returned for
     * the offset; it is limited to ±15 °/s and sent as a relative yaw.
     * Nothing is sent while the PID is not configured.
     */
    method SendYawControl(pidOutput: real)
      modifies this`sent
      ensures pidYaw.None? ==> sent == old(sent)
      ensures pidYaw.Some? ==> sent == old(sent) + [YawRelative(Clamp(pidOutput, MAX_YAW))]
      ensures forall i :: |old(sent)| <= i < |sent| ==> sent[i].YawRelative? && -MAX_YAW <= sent[i].angle <= MAX_YAW
    {
      if pidYaw.Some? {
        var yawSpeed := Clamp(pidOutput, MAX_YAW);
        sent := sent + [YawRelative(yawSpeed)];
      }
    }

    /** `send_position_control(dx, dy, area, areaRef)`: exactly one velocity command, held for one second. */
    method SendPositionControl(dx: real, dy: real, area: real, areaRef: real)
      modifies this`sent
      ensures var v := PositionVelocity(dx, dy, area, areaRef);
        sent == old(sent) + [NedVelocity(v.vx, v.vy, v.vz, 1)]
    {
      var v := PositionVelocity(dx, dy, area, areaRef);
      sent := sent + [NedVelocity(v.vx, v.vy, v.vz, 1)];
    }
  }
}
