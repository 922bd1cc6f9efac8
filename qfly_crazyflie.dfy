/**
 * `QualisysCrazyflie` (qfly/crazyflie.py): one Crazyflie flown inside a safe volume while
 * a motion-capture feed supplies its pose. Every effect on the vehicle goes through the
 * command log of `CrazyflieLink.Link`; the tracking-loss counter is the one the feed keeps.
 */
module QflyCrazyflie {
  import opened Wrappers
  import opened CrazyflieLink
  import Estimator

  datatype Point = Point(x: real, y: real, z: real)

  /** The safe volume: a cube of half-width `expanse` centred on `origin`. */
  datatype World = World(origin: Point, expanse: real)

  /** One axis of the containment test exactly as `is_safe` writes it: o + e < p < o - e. */
  predicate AxisInsideAsWritten(p: real, o: real, e: real) {
    o + e < p < o - e
  }

  predicate InsideAsWritten(w: World, p: Point) {
    AxisInsideAsWritten(p.x, w.origin.x, w.expanse) &&
    AxisInsideAsWritten(p.y, w.origin.y, w.expanse) &&
    AxisInsideAsWritten(p.z, w.origin.z, w.expanse)
  }

  /** The intended strict containment on one axis: o - e < p < o + e. */
  predicate AxisInside(p: real, o: real, e: real) {
    o - e < p < o + e
  }

  predicate Inside(w: World, p: Point) {
    AxisInside(p.x, w.origin.x, w.expanse) &&
    AxisInside(p.y, w.origin.y, w.expanse) &&
    AxisInside(p.z, w.origin.z, w.expanse)
  }

  /** As written, only a volume of negative expanse contains anything. */
  lemma AsWrittenContainsNothing(w: World, p: Point)
    ensures InsideAsWritten(w, p) ==> w.expanse < 0.0
  {
  }

  /** A point the intended test accepts and the written test rejects: the origin of the unit volume. */
  lemma AsWrittenRejectsOrigin()
    ensures Inside(World(Point(0.0, 0.0, 0.0), 1.0), Point(0.0, 0.0, 0.0))
    ensures !InsideAsWritten(World(Point(0.0, 0.0, 0.0), 1.0), Point(0.0, 0.0, 0.0))
  {
  }

  /** Boundary points are outside: a pose on any face of the volume is not contained. */
  lemma FaceIsOutside(w: World, p: Point)
    requires p.x == w.origin.x - w.expanse || p.x == w.origin.x + w.expanse ||
             p.y == w.origin.y - w.expanse || p.y == w.origin.y + w.expanse ||
             p.z == w.origin.z - w.expanse || p.z == w.origin.z + w.expanse
    ensures !Inside(w, p)
  {
  }

  /**
   * One axis of `Pose.clamp`. pose.py is not part of this model: the clamp is assumed to
   * limit each coordinate independently to [o - e, o + e].
   */
  function ClampAxis(v: real, o: real, e: real): (r: real)
    ensures e >= 0.0 ==> o - e <= r <= o + e
    ensures o - e <= v <= o + e ==> r == v
    ensures v < o - e ==> r == o - e
    ensures o + e < v && o - e <= o + e ==> r == o + e
  {
    if v < o - e then o - e else if v > o + e then o + e else v
  }

  /** A clamped point is strictly inside or lies on a face, never outside. */
  lemma ClampedInsideOrOnFace(w: World, p: Point)
    requires w.expanse >= 0.0
    ensures var c := Point(ClampAxis(p.x, w.origin.x, w.expanse),
                           ClampAxis(p.y, w.origin.y, w.expanse),
                           ClampAxis(p.z, w.origin.z, w.expanse));
            Inside(w, c) ||
            c.x == w.origin.x - w.expanse || c.x == w.origin.x + w.expanse ||
            c.y == w.origin.y - w.expanse || c.y == w.origin.y + w.expanse ||
            c.z == w.origin.z - w.expanse || c.z == w.origin.z + w.expanse
  {
  }

  /** A setpoint pose as the qfly library keeps it: position, optional yaw and rotation. */
  class Pose {
    var x: real
    var y: real
    var z: real
    var yaw: Option<real>
    var rotmatrix: Option<seq<seq<real>>>

    constructor (x: real, y: real, z: real, yaw: Option<real> := None)
      ensures this.x == x && this.y == y && this.z == z
      ensures this.yaw == yaw && rotmatrix == None
    {
      this.x, this.y, this.z := x, y, z;
      this.yaw := yaw;
      rotmatrix := None;
    }

    /** `target.clamp(world)`, in place, per the assumed per-axis contract. */
    method Clamp(w: World)
      modifies this
      ensures x == ClampAxis(old(x), w.origin.x, w.expanse)
      ensures y == ClampAxis(old(y), w.origin.y, w.expanse)
      ensures z == ClampAxis(old(z), w.origin.z, w.expanse)
      ensures yaw == old(yaw) && rotmatrix == old(rotmatrix)
    {
      x := ClampAxis(x, w.origin.x, w.expanse);
      y := ClampAxis(y, w.origin.y, w.expanse);
      z := ClampAxis(z, w.origin.z, w.expanse);
    }
  }

  /** `set_speed_limit(v)`: the horizontal and vertical velocity caps, both set to `v`. */
  function SpeedLimitCommands(v: real): (cs: seq<Command>)
    ensures |cs| == 2
    ensures cs[0] == SetParam("posCtlPid.xyVelMax", Real(v))
    ensures cs[1] == SetParam("posCtlPid.zVelMax", Real(v))
  {
    [SetParam("posCtlPid.xyVelMax", Real(v)), SetParam("posCtlPid.zVelMax", Real(v))]
  }

  /** The active-marker parameters, front, right, back and left, from the first four IDs. */
  function MarkerCommands(ids: seq<int>): (cs: seq<Command>)
    requires |ids| >= 4
    ensures |cs| == 4
    ensures cs[0] == SetParam("activeMarker.front", Int(ids[0]))
    ensures cs[1] == SetParam("activeMarker.right", Int(ids[1]))
    ensures cs[2] == SetParam("activeMarker.back", Int(ids[2]))
    ensures cs[3] == SetParam("activeMarker.left", Int(ids[3]))
  {
    [ SetParam("activeMarker.front", Int(ids[0])),
      SetParam("activeMarker.right", Int(ids[1])),
      SetParam("activeMarker.back", Int(ids[2])),
      SetParam("activeMarker.left", Int(ids[3])) ]
  }

  /** The hover setpoints at heights n/10, (n-1)/10, ..., 1/10 metres. */
  function Descent(n: nat): (cs: seq<Command>)
    ensures |cs| == n
    ensures forall k :: 0 <= k < |cs| ==> cs[k].HoverSetpoint?
  {
    if n == 0 then [] else [HoverSetpoint(0.0, 0.0, 0.0, n as real / 10.0)] + Descent(n - 1)
  }

  /** The k-th step of the descent from n is a hover at (n - k)/10 metres. */
  lemma {:induction false} DescentAt(n: nat, k: nat)
    requires k < n
    ensures |Descent(n)| == n
    ensures Descent(n)[k] == HoverSetpoint(0.0, 0.0, 0.0, (n - k) as real / 10.0)
  {
    if k > 0 {
      DescentAt(n - 1, k - 1);
    } else if n > 1 {
      DescentAt(n - 1, 0);
    }
  }

  const LandingSteps: nat := 5

  /** Everything `land` sends: conservative velocity caps, the staircase, then stop. */
  function LandingCommands(): (cs: seq<Command>)
    ensures |cs| == 2 + LandingSteps + 1
    ensures cs[0].SetParam? && cs[1].SetParam? && cs[|cs| - 1] == StopSetpoint
    ensures forall k :: 2 <= k < |cs| - 1 ==> cs[k].HoverSetpoint?
  {
    [SetParam("posCtlPid.xyVelMax", Real(0.3)), SetParam("posCtlPid.zVelMax", Real(0.03))]
      + Descent(LandingSteps) + [StopSetpoint]
  }

  /**
   * The landing sequence: two parameter writes, five hovers at strictly decreasing positive
   * heights 0.5 down to 0.1, and one stop, in that order and nothing else.
   */
  lemma LandingShape()
    ensures var cs := LandingCommands();
      |cs| == 8 &&
      cs[0] == SetParam("posCtlPid.xyVelMax", Real(0.3)) &&
      cs[1] == SetParam("posCtlPid.zVelMax", Real(0.03)) &&
      cs[7] == StopSetpoint &&
      (forall k :: 2 <= k < 7 ==> cs[k] == HoverSetpoint(0.0, 0.0, 0.0, (7 - k) as real / 10.0)) &&
      (forall k :: 2 <= k < 7 ==> cs[k].HoverSetpoint? && cs[k].height > 0.0) &&
      (forall j, k :: 2 <= j < k < 7 ==> cs[j].height > cs[k].height)
  {
    var cs := LandingCommands();
    forall k | 2 <= k < 7
      ensures cs[k] == HoverSetpoint(0.0, 0.0, 0.0, (7 - k) as real / 10.0)
    {
      DescentAt(LandingSteps, k - 2);
    }
  }

  /** The heights of the staircase are exactly 0.5, 0.4, 0.3, 0.2, 0.1. */
  lemma LandingHeights()
    ensures Descent(LandingSteps) ==
      [ HoverSetpoint(0.0, 0.0, 0.0, 0.5), HoverSetpoint(0.0, 0.0, 0.0, 0.4),
        HoverSetpoint(0.0, 0.0, 0.0, 0.3), HoverSetpoint(0.0, 0.0, 0.0, 0.2),
        HoverSetpoint(0.0, 0.0, 0.0, 0.1) ]
  {
    DescentAt(LandingSteps, 0);
    DescentAt(LandingSteps, 1);
    DescentAt(LandingSteps, 2);
    DescentAt(LandingSteps, 3);
    DescentAt(LandingSteps, 4);
  }

  class QualisysCrazyflie {
    const bodyName: string
    const uri: string
    const world: World
    const maxTrackingLoss: int
    const maxVel: real
    const markerIds: seq<int>
    /** The radio link (`self.scf`); `self.cf` becomes usable once it is open. */
    const link: Link

    /** `self.cf is not None`: set by `__enter__`. */
    var hasCf: bool
    /** `self.qtm.on_cf_pose` is wired to `_set_pose`. */
    var onPoseRegistered: bool
    var pose: Pose
    /** `self.qtm.tracking_loss`, the number of frames the feed has missed the body. */
    var trackingLoss: int

    constructor (bodyName: string, uri: string, world: World,
                 maxTrackingLoss: int := 200, maxVel: real := 1.0,
                 markerIds: seq<int> := [101, 102, 103, 104])
      ensures this.bodyName == bodyName && this.uri == uri && this.world == world
      ensures this.maxTrackingLoss == maxTrackingLoss && this.maxVel == maxVel
      ensures this.markerIds == markerIds
      ensures fresh(link) && link.log == []
      ensures !hasCf && !onPoseRegistered && trackingLoss == 0
      ensures fresh(pose) && pose.x == 0.0 && pose.y == 0.0 && pose.z == 0.0 && pose.yaw == None
    {
      this.bodyName, this.uri, this.world := bodyName, uri, world;
      this.maxTrackingLoss, this.maxVel, this.markerIds := maxTrackingLoss, maxVel, markerIds;
      link := new Link();
      hasCf, onPoseRegistered := false, false;
      pose := new Pose(0.0, 0.0, 0.0);
      trackingLoss := 0;
    }

    function Position(): Point
      reads this, pose
    {
      Point(pose.x, pose.y, pose.z)
    }

    /**
     * `is_safe`, as written: false once the feed has lost the body for more than
     * `maxTrackingLoss` frames, and otherwise the inverted containment test, so false for
     * every volume of non-negative expanse.
     */
    function IsSafe(): (safe: bool)
      reads this, pose
      ensures trackingLoss > maxTrackingLoss ==> !safe
      ensures safe ==> InsideAsWritten(world, Position())
      ensures world.expanse >= 0.0 ==> !safe
    {
      if trackingLoss > maxTrackingLoss then false
      else InsideAsWritten(world, Position())
    }

    /** `is_safe` with the evidently intended strict containment `o - e < p < o + e` on each axis. */
    function IsSafeIntended(): (safe: bool)
      reads this, pose
      ensures trackingLoss > maxTrackingLoss ==> !safe
      ensures safe ==> world.origin.x - world.expanse < pose.x < world.origin.x + world.expanse
      ensures safe ==> world.origin.y - world.expanse < pose.y < world.origin.y + world.expanse
      ensures safe ==> world.origin.z - world.expanse < pose.z < world.origin.z + world.expanse
      ensures (trackingLoss <= maxTrackingLoss && world.expanse > 0.0 &&
               pose.x == world.origin.x && pose.y == world.origin.y && pose.z == world.origin.z)
              ==> safe
      ensures (trackingLoss <= maxTrackingLoss &&
               world.origin.x - world.expanse < pose.x < world.origin.x + world.expanse &&
               world.origin.y - world.expanse < pose.y < world.origin.y + world.expanse &&
               world.origin.z - world.expanse < pose.z < world.origin.z + world.expanse)
              ==> safe
    {
      trackingLoss <= maxTrackingLoss && Inside(world, Position())
    }

    /** `set_speed_limit(v)`. */
    method SetSpeedLimit(v: real)
      requires hasCf
      modifies link
      ensures link.log == old(link.log) + SpeedLimitCommands(v)
    {
      link.Send(SetParam("posCtlPid.xyVelMax", Real(v)));
      link.Send(SetParam("posCtlPid.zVelMax", Real(v)));
    }

    /** `setup_estimator`, shared with the toolkit: reset, then wait on the variance stream. */
    method SetupEstimator(samples: seq<Estimator.Sample>) returns (steps: Option<nat>)
      requires hasCf
      modifies link
      ensures link.log == old(link.log) + Estimator.ResetCommands()
      ensures Estimator.ConvergesAt(samples, steps)
    {
      steps := Estimator.SetupEstimator(link, samples);
    }

    /**
     * `__enter__`: open the link, cap the speed at `maxVel`, program the four active
     * markers, wire the pose callback and bring up the estimator.
     */
    method Enter(samples: seq<Estimator.Sample>) returns (steps: Option<nat>)
      requires |markerIds| >= 4
      modifies this, link
      ensures link.log == old(link.log) + [OpenLink] + SpeedLimitCommands(maxVel)
                          + MarkerCommands(markerIds) + Estimator.ResetCommands()
      ensures hasCf && onPoseRegistered
      ensures pose == old(pose) && trackingLoss == old(trackingLoss)
      ensures Estimator.ConvergesAt(samples, steps)
    {
      link.Send(OpenLink);
      hasCf := true;
      SetSpeedLimit(maxVel);
      ghost var afterSpeed := link.log;
      link.Send(SetParam("activeMarker.front", Int(markerIds[0])));
      link.Send(SetParam("activeMarker.right", Int(markerIds[1])));
      link.Send(SetParam("activeMarker.back", Int(markerIds[2])));
      link.Send(SetParam("activeMarker.left", Int(markerIds[3])));
      assert link.log == afterSpeed + MarkerCommands(markerIds);
      onPoseRegistered := true;
      steps := SetupEstimator(samples);
    }

    /** `__exit__`: the motion-capture feed is closed before the radio link. */
    method Exit()
      modifies link
      ensures link.log == old(link.log) + [CloseFeed, CloseLink]
    {
      link.Send(CloseFeed);
      link.Send(CloseLink);
    }

    /** `land`: the fixed landing sequence, straight down from where the vehicle is. */
    method Land()
      requires hasCf
      modifies link
      ensures link.log == old(link.log) + LandingCommands()
    {
      link.Send(SetParam("posCtlPid.xyVelMax", Real(0.3)));
      link.Send(SetParam("posCtlPid.zVelMax", Real(0.03)));
      ghost var start := link.log;
      var z: nat := LandingSteps;
      while z > 0
        invariant z <= LandingSteps
        invariant link.log == start + Descent(LandingSteps)[..LandingSteps - z]
      {
        DescentAt(LandingSteps, LandingSteps - z);
        link.Send(HoverSetpoint(0.0, 0.0, 0.0, z as real / 10.0));
        assert Descent(LandingSteps)[..LandingSteps - z + 1]
            == Descent(LandingSteps)[..LandingSteps - z] + [Descent(LandingSteps)[LandingSteps - z]];
        z := z - 1;
      }
      DescentAt(LandingSteps, 0);
      assert Descent(LandingSteps)[..LandingSteps] == Descent(LandingSteps);
      link.Send(StopSetpoint);
    }

    /**
     * `safe_position_setpoint(target)`, gated by the intended safety test (`IsSafeIntended`;
     * the written test admits no pose of a real volume): when unsafe, nothing is sent and the target is left
     * alone; when safe, the target is clamped in place, an unset yaw becomes 0, and exactly
     * one position setpoint carrying the clamped target is sent.
     */
    method SafePositionSetpoint(target: Pose)
      requires hasCf
      modifies target, link
      ensures !old(IsSafeIntended()) ==> link.log == old(link.log) && unchanged(target)
      ensures old(IsSafeIntended()) ==>
        target.x == ClampAxis(old(target.x), world.origin.x, world.expanse) &&
        target.y == ClampAxis(old(target.y), world.origin.y, world.expanse) &&
        target.z == ClampAxis(old(target.z), world.origin.z, world.expanse) &&
        target.yaw == Some(old(target.yaw).GetOr(0.0)) &&
        target.rotmatrix == old(target.rotmatrix) &&
        link.log == old(link.log) + [PositionSetpoint(target.x, target.y, target.z, target.yaw.value)]
    {
      if IsSafeIntended() {
        target.Clamp(world);
        if target.yaw == None {
          target.yaw := Some(0.0);
        }
        link.Send(PositionSetpoint(target.x, target.y, target.z, target.yaw.value));
      }
    }

    /**
     * `_set_pose`: the pose callback stores the measured pose. The forwarding call after it
     * is not part of this model (see README).
     */
    method SetPose(p: Pose)
      modifies this
      ensures pose == p
      ensures hasCf == old(hasCf) && onPoseRegistered == old(onPoseRegistered)
      ensures trackingLoss == old(trackingLoss)
    {
      pose := p;
    }
  }
}
