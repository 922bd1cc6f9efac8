/**
 * The single-file toolkit (quadkit_crazyflie.py): poses built from the QTM 6DOF
 * components, the clamped square root, the body-name index table and the per-packet
 * update rule of the QTM wrapper. The estimator bring-up is `Estimator.SetupEstimator`.
 */
module Quadkit {
  import opened Wrappers

  /** A Python float as the motion-capture stream delivers it: a number, or NaN when the body is lost. */
  datatype Float = NaN | Num(r: real)

  /** `v / 1000`: millimetres to metres; NaN stays NaN. */
  function Div1000(f: Float): (q: Float)
    ensures q.Num? <==> f.Num?
    ensures f.Num? ==> q.r * 1000.0 == f.r
  {
    match f
    case NaN => NaN
    case Num(r) => Num(r / 1000.0)
  }

  /** quadkit's `Pose`, with the constructor's defaults for the optional parts. */
  datatype Pose = Pose(x: Float, y: Float, z: Float,
                       roll: Option<Float> := None, pitch: Option<Float> := None,
                       yaw: Option<Float> := None,
                       rotmatrix: Option<seq<seq<Float>>> := None)

  /** `is_valid`: x == x, y == y and z == z, which fails exactly for NaN. */
  predicate IsValid(p: Pose) {
    p.x.Num? && p.y.Num? && p.z.Num?
  }

  datatype Vec3 = Vec3(a: Float, b: Float, c: Float)

  /** The nine entries of a QTM rotation matrix, flattened column by column. */
  type Matrix9 = s: seq<Float> | |s| == 9 witness seq(9, _ => NaN)

  /** A body of the '6d' component: position in millimetres and a flat rotation matrix. */
  datatype Body6d = Body6d(position: Vec3, matrix: Matrix9)

  /** A body of the '6deuler' component: position in millimetres and three Euler angles. */
  datatype Body6dEuler = Body6dEuler(position: Vec3, angles: Vec3)

  /** The 3x3 matrix whose row i, column j is entry 3j + i of the column-major list. */
  function Transposed(flat: Matrix9): (m: seq<seq<Float>>)
    ensures |m| == 3 && forall i :: 0 <= i < 3 ==> |m[i]| == 3
    ensures forall i, j :: 0 <= i < 3 && 0 <= j < 3 ==> m[i][j] == flat[3 * j + i]
  {
    [[flat[0], flat[3], flat[6]], [flat[1], flat[4], flat[7]], [flat[2], flat[5], flat[8]]]
  }

  predicate IsSquare3(m: seq<seq<Float>>) {
    |m| == 3 && |m[0]| == 3 && |m[1]| == 3 && |m[2]| == 3
  }

  /** The inverse reading: a 3x3 matrix flattened column by column. */
  function ColumnMajor(m: seq<seq<Float>>): (flat: Matrix9)
    requires IsSquare3(m)
    ensures forall i, j :: 0 <= i < 3 && 0 <= j < 3 ==> flat[3 * j + i] == m[i][j]
  {
    [m[0][0], m[1][0], m[2][0], m[0][1], m[1][1], m[2][1], m[0][2], m[1][2], m[2][2]]
  }

  /** Transposing the QTM list loses nothing: flattening it again gives the list back, and vice versa. */
  lemma TransposeRoundTrip(flat: Matrix9, m: seq<seq<Float>>)
    requires IsSquare3(m)
    ensures ColumnMajor(Transposed(flat)) == flat
    ensures Transposed(ColumnMajor(m)) == m
  {
    var back := ColumnMajor(Transposed(flat));
    assert forall k :: 0 <= k < 9 ==> back[k] == flat[k] by {
      forall k | 0 <= k < 9 ensures back[k] == flat[k] {
        assert back[3 * (k / 3) + k % 3] == flat[3 * (k / 3) + k % 3];
      }
    }
    var t := Transposed(ColumnMajor(m));
    assert t[0] == m[0] && t[1] == m[1] && t[2] == m[2];
  }

  /** `Pose.from_qtm_6d`: metres from millimetres, the transposed matrix, no Euler angles. */
  function FromQtm6d(body: Body6d): (p: Pose)
    ensures p.x == Div1000(body.position.a) && p.y == Div1000(body.position.b)
    ensures p.z == Div1000(body.position.c)
    ensures p.roll == None && p.pitch == None && p.yaw == None
    ensures p.rotmatrix.Some? && IsSquare3(p.rotmatrix.value)
    ensures forall i, j :: 0 <= i < 3 && 0 <= j < 3 ==> p.rotmatrix.value[i][j] == body.matrix[3 * j + i]
    ensures IsValid(p) <==> body.position.a.Num? && body.position.b.Num? && body.position.c.Num?
  {
    Pose(Div1000(body.position.a), Div1000(body.position.b), Div1000(body.position.c),
         rotmatrix := Some(Transposed(body.matrix)))
  }

  /** `Pose.from_qtm_6deuler`: metres from millimetres, the angles in reverse order, no matrix. */
  function FromQtm6dEuler(body: Body6dEuler): (p: Pose)
    ensures p.x == Div1000(body.position.a) && p.y == Div1000(body.position.b)
    ensures p.z == Div1000(body.position.c)
    ensures p.roll == Some(body.angles.c) && p.pitch == Some(body.angles.b)
    ensures p.yaw == Some(body.angles.a)
    ensures p.rotmatrix == None
    ensures IsValid(p) <==> body.position.a.Num? && body.position.b.Num? && body.position.c.Num?
  {
    Pose(Div1000(body.position.a), Div1000(body.position.b), Div1000(body.position.c),
         roll := Some(body.angles.c), pitch := Some(body.angles.b), yaw := Some(body.angles.a))
  }

  /**
   * `sqrt`: 0 for a negative argument, otherwise `math.sqrt`, given here as `mathSqrt`.
   * NaN fails the `x < 0.0` test and `math.sqrt` returns NaN for it.
   */
  function Sqrt(x: Float, mathSqrt: real -> real): (r: Float)
    requires forall v: real :: 0.0 <= v ==> 0.0 <= mathSqrt(v)
    ensures x.Num? ==> r.Num? && 0.0 <= r.r
    ensures x.Num? && x.r < 0.0 ==> r == Num(0.0)
    ensures x.Num? && 0.0 <= x.r ==> r == Num(mathSqrt(x.r))
    ensures x.NaN? ==> r.NaN?
  {
    match x
    case NaN => NaN
    case Num(v) => if v < 0.0 then Num(0.0) else Num(mathSqrt(v))
  }

  /** The characters Python's `str.strip()` removes by default. */
  predicate IsSpace(c: char) {
    ('\t' <= c <= '\r') || ('\U{001C}' <= c <= ' ') || c == '\U{0085}' || c == '\U{00A0}' ||
    c == '\U{1680}' || ('\U{2000}' <= c <= '\U{200A}') || c == '\U{2028}' || c == '\U{2029}' ||
    c == '\U{202F}' || c == '\U{205F}' || c == '\U{3000}'
  }

  function TrimStart(s: string): (r: string)
    ensures |r| <= |s|
  {
    if |s| > 0 && IsSpace(s[0]) then TrimStart(s[1..]) else s
  }

  /** `lstrip`: what is dropped is whitespace, what is kept is a suffix that does not start with it. */
  lemma {:induction false} TrimStartSpec(s: string)
    ensures |TrimStart(s)| <= |s| && TrimStart(s) == s[|s| - |TrimStart(s)|..]
    ensures forall k :: 0 <= k < |s| - |TrimStart(s)| ==> IsSpace(s[k])
    ensures |TrimStart(s)| > 0 ==> !IsSpace(TrimStart(s)[0])
    decreases |s|
  {
    if |s| > 0 && IsSpace(s[0]) {
      TrimStartSpec(s[1..]);
      forall k | 1 <= k < |s| - |TrimStart(s)| ensures IsSpace(s[k]) {
        assert s[k] == s[1..][k - 1];
      }
    }
  }

  function TrimEnd(s: string): (r: string)
    ensures |r| <= |s|
  {
    if |s| > 0 && IsSpace(s[|s| - 1]) then TrimEnd(s[..|s| - 1]) else s
  }

  /** `rstrip`: what is dropped is whitespace, what is kept is a prefix that does not end with it. */
  lemma {:induction false} TrimEndSpec(s: string)
    ensures |TrimEnd(s)| <= |s| && TrimEnd(s) == s[..|TrimEnd(s)|]
    ensures forall k :: |TrimEnd(s)| <= k < |s| ==> IsSpace(s[k])
    ensures |TrimEnd(s)| > 0 ==> !IsSpace(TrimEnd(s)[|TrimEnd(s)| - 1])
    decreases |s|
  {
    if |s| > 0 && IsSpace(s[|s| - 1]) {
      TrimEndSpec(s[..|s| - 1]);
      forall k | |TrimEnd(s)| <= k < |s| - 1 ensures IsSpace(s[k]) {
        assert s[k] == s[..|s| - 1][k];
      }
    }
  }

  /** `str.strip()`: drop leading and trailing whitespace. */
  function Strip(s: string): (r: string)
    ensures |r| <= |s|
    ensures |r| == |s| ==> r == s
  {
    TrimEnd(TrimStart(s))
  }

  /**
   * The stripped name is the middle of the original between two whitespace-only ends, and
   * has no whitespace at either end.
   */
  predicate StrippedAt(s: string, i: nat, j: nat) {
    i <= j <= |s| && Strip(s) == s[i..j] &&
    (forall k :: 0 <= k < i ==> IsSpace(s[k])) &&
    (forall k :: j <= k < |s| ==> IsSpace(s[k]))
  }

  lemma StripSpec(s: string)
    ensures exists i: nat, j: nat :: StrippedAt(s, i, j)
    ensures |Strip(s)| > 0 ==> !IsSpace(Strip(s)[0]) && !IsSpace(Strip(s)[|Strip(s)| - 1])
  {
    var t := TrimStart(s);
    TrimStartSpec(s);
    TrimEndSpec(t);
    var i := |s| - |t|;
    var j := i + |TrimEnd(t)|;
    assert Strip(s) == s[i..j];
    forall k | j <= k < |s| ensures IsSpace(s[k]) {
      assert s[k] == t[k - i];
    }
    assert StrippedAt(s, i, j);
    if |Strip(s)| > 0 {
      assert Strip(s)[0] == t[0];
    }
  }

  /** Stripping twice is stripping once. */
  lemma StripIdempotent(s: string)
    ensures Strip(Strip(s)) == Strip(s)
  {
    var r := Strip(s);
    StripSpec(s);
    if |r| > 0 {
      assert TrimStart(r) == r;
      assert TrimEnd(r) == r;
    }
  }

  /** The table after `bodyToIdx[name.strip()] = index` for each enumerated name, starting from `m`. */
  function Indexed(m: map<string, nat>, names: seq<string>): (r: map<string, nat>)
    ensures m.Keys <= r.Keys
    ensures forall i :: 0 <= i < |names| ==> Strip(names[i]) in r
    decreases |names|
  {
    if |names| == 0 then m
    else Indexed(m, names[..|names| - 1])[Strip(names[|names| - 1]) := |names| - 1]
  }

  /** A key is in the table exactly when it was there before or is the stripped form of some name. */
  lemma {:induction false} IndexedKeys(m: map<string, nat>, names: seq<string>, key: string)
    ensures key in Indexed(m, names) <==>
      key in m || exists i :: 0 <= i < |names| && Strip(names[i]) == key
    decreases |names|
  {
    if |names| > 0 {
      var front := names[..|names| - 1];
      IndexedKeys(m, front, key);
      if exists i :: 0 <= i < |names| && Strip(names[i]) == key {
        var i :| 0 <= i < |names| && Strip(names[i]) == key;
        if i < |front| {
          assert front[i] == names[i];
        }
      }
      if exists i :: 0 <= i < |front| && Strip(front[i]) == key {
        var i :| 0 <= i < |front| && Strip(front[i]) == key;
        assert names[i] == front[i];
      }
    }
  }

  /** A key no name strips to keeps its old entry. */
  lemma {:induction false} IndexedKeepsOthers(m: map<string, nat>, names: seq<string>, key: string)
    requires key in m
    requires forall i :: 0 <= i < |names| ==> Strip(names[i]) != key
    ensures key in Indexed(m, names) && Indexed(m, names)[key] == m[key]
    decreases |names|
  {
    if |names| > 0 {
      var front := names[..|names| - 1];
      forall i | 0 <= i < |front| ensures Strip(front[i]) != key {
        assert front[i] == names[i];
      }
      IndexedKeepsOthers(m, front, key);
    }
  }

  /** For a key some name strips to, the entry is the LAST index carrying it: a later duplicate wins. */
  lemma {:induction false} IndexedLastWins(m: map<string, nat>, names: seq<string>, key: string, i: nat)
    requires i < |names| && Strip(names[i]) == key
    ensures key in Indexed(m, names)
    ensures i <= Indexed(m, names)[key] < |names| && Strip(names[Indexed(m, names)[key]]) == key
    ensures forall k :: Indexed(m, names)[key] < k < |names| ==> Strip(names[k]) != key
    decreases |names|
  {
    var last := |names| - 1;
    var front := names[..last];
    var before := Indexed(m, front);
    assert Indexed(m, names) == before[Strip(names[last]) := last];
    if i < last && Strip(names[last]) != key {
      assert front[i] == names[i];
      IndexedLastWins(m, front, key, i);
      var v := before[key];
      assert Indexed(m, names)[key] == v;
      assert names[v] == front[v];
      forall k | v < k < |names| ensures Strip(names[k]) != key {
        if k < last {
          assert names[k] == front[k];
        }
      }
    }
  }

  /** The errors the handlers can raise. */
  datatype PyError = NameError | AttributeError | KeyError | IndexError

  /** A QTM packet: either component may be missing. */
  datatype Packet = Packet(sixD: Option<seq<Body6d>>, sixDEuler: Option<seq<Body6dEuler>>)

  /** What `on_cf_pose` receives: [x, y, z, rotmatrix]. */
  datatype Delivery = Delivery(x: Float, y: Float, z: Float, rotmatrix: Option<seq<seq<Float>>>)

  /** Controller poses after a prefix of the enumeration, and the error that stopped it, if any. */
  datatype ControllerPass = ControllerPass(poses: seq<Pose>, error: Option<PyError>)

  /** One iteration: look the body up, build its pose, overwrite entry i only when the pose is valid. */
  function ControllerStep(poses: seq<Pose>, i: nat, name: string, table: map<string, nat>,
                          comp: seq<Body6dEuler>): (r: ControllerPass)
    ensures |r.poses| == |poses|
    ensures forall j :: 0 <= j < |poses| && j != i ==> r.poses[j] == poses[j]
    ensures r.error.Some? ==> r.poses == poses
  {
    if name !in table then ControllerPass(poses, Some(KeyError))
    else if table[name] >= |comp| then ControllerPass(poses, Some(IndexError))
    else
      var c := FromQtm6dEuler(comp[table[name]]);
      if !IsValid(c) then ControllerPass(poses, None)
      else if i >= |poses| then ControllerPass(poses, Some(IndexError))
      else ControllerPass(poses[i := c], None)
  }

  /** The controller loop over `names`, stopping at the first error. */
  function ControllersAfter(poses: seq<Pose>, names: seq<string>, table: map<string, nat>,
                            comp: seq<Body6dEuler>): (r: ControllerPass)
    ensures |r.poses| == |poses|
    ensures forall j :: |names| <= j < |poses| ==> r.poses[j] == poses[j]
    decreases |names|
  {
    if |names| == 0 then ControllerPass(poses, None)
    else
      var prev := ControllersAfter(poses, names[..|names| - 1], table, comp);
      if prev.error.Some? then prev
      else ControllerStep(prev.poses, |names| - 1, names[|names| - 1], table, comp)
  }

  /** Once an iteration has raised, the rest of the enumeration does not run. */
  lemma {:induction false} ControllersAfterStops(poses: seq<Pose>, names: seq<string>,
                                                 table: map<string, nat>, comp: seq<Body6dEuler>, k: nat)
    requires k <= |names|
    requires ControllersAfter(poses, names[..k], table, comp).error.Some?
    ensures ControllersAfter(poses, names, table, comp) == ControllersAfter(poses, names[..k], table, comp)
    decreases |names| - k
  {
    if k < |names| {
      var front := names[..|names| - 1];
      assert front[..k] == names[..k];
      ControllersAfterStops(poses, front, table, comp, k);
    } else {
      assert names[..k] == names;
    }
  }

  /** The loop keeps the list's length and never stores an invalid pose over a valid list. */
  lemma {:induction false} ControllersAfterKeepsValid(poses: seq<Pose>, names: seq<string>,
                                                      table: map<string, nat>, comp: seq<Body6dEuler>)
    ensures |ControllersAfter(poses, names, table, comp).poses| == |poses|
    ensures (forall j :: 0 <= j < |poses| ==> IsValid(poses[j])) ==>
      forall j :: 0 <= j < |poses| ==> IsValid(ControllersAfter(poses, names, table, comp).poses[j])
    decreases |names|
  {
    if |names| > 0 {
      ControllersAfterKeepsValid(poses, names[..|names| - 1], table, comp);
    }
  }

  /**
   * When the loop completes, entry j for an enumerated controller holds its fresh pose if that
   * pose is valid and its previous pose otherwise; entries past the controller list are untouched.
   */
  lemma {:induction false} ControllersAfterSpec(poses: seq<Pose>, names: seq<string>,
                                                table: map<string, nat>, comp: seq<Body6dEuler>)
    requires ControllersAfter(poses, names, table, comp).error == None
    ensures |ControllersAfter(poses, names, table, comp).poses| == |poses|
    ensures forall j :: |names| <= j < |poses| ==>
      ControllersAfter(poses, names, table, comp).poses[j] == poses[j]
    ensures forall j :: 0 <= j < |names| ==>
      names[j] in table && table[names[j]] < |comp| &&
      var c := FromQtm6dEuler(comp[table[names[j]]]);
      if IsValid(c) then j < |poses| && ControllersAfter(poses, names, table, comp).poses[j] == c
      else j < |poses| ==> ControllersAfter(poses, names, table, comp).poses[j] == poses[j]
    decreases |names|
  {
    ControllersAfterKeepsValid(poses, names, table, comp);
    if |names| > 0 {
      var front := names[..|names| - 1];
      ControllersAfterSpec(poses, front, table, comp);
      forall j | 0 <= j < |front| ensures front[j] == names[j] { }
    }
  }

  /**
   * `_on_packet` as written: once both components are present, line 145 reads `sef`, an
   * undefined name, so every such packet raises NameError before anything is stored.
   */
  function OnPacketAsWritten(packet: Packet): (raised: Option<PyError>)
    ensures packet.sixD.None? || packet.sixDEuler.None? ==> raised == None
    ensures packet.sixD.Some? && packet.sixDEuler.Some? ==> raised == Some(NameError)
  {
    if packet.sixD.None? || packet.sixDEuler.None? then None else Some(NameError)
  }

  /** A packet with a valid pose for the body that the written handler still drops with an error. */
  lemma AsWrittenDropsValidPose()
    ensures var b := Body6d(Vec3(Num(1.0), Num(2.0), Num(3.0)), seq(9, _ => Num(0.0)));
            var packet := Packet(Some([b]), Some([]));
            IsValid(FromQtm6d(b)) && OnPacketAsWritten(packet) == Some(NameError)
  {
  }

  /** The effect of `_connect` on the wrapper's state after the body list has been read. */
  datatype ConnectEffect = ConnectEffect(table: map<string, nat>, stayOpen: bool,
                                         streaming: bool, raised: Option<PyError>)

  /**
   * `_connect` as written: the table is filled, then line 119 reads `self.cf_body_name`,
   * which `__init__` never stores, so AttributeError is raised and streaming is never started.
   */
  function ConnectAsWritten(table: map<string, nat>, stayOpen: bool, names: seq<string>): (e: ConnectEffect)
    ensures e.table == Indexed(table, names)
    ensures !e.streaming && e.raised == Some(AttributeError)
  {
    ConnectEffect(Indexed(table, names), stayOpen, false, Some(AttributeError))
  }

  /**
   * `QtmWrapper`, with the body name stored and one loss counter: the module globals
   * `cf_pose`, `cf_trackingLoss`, `controller_body_names` and `controller_poses` are
   * fields here, and `delivered` records the calls of the `on_cf_pose` callback.
   */
  class QtmWrapper {
    const cfBodyName: string
    const qtmIp: string
    const controllerBodyNames: seq<string>
    var onCfPose: bool
    var bodyToIdx: map<string, nat>
    var stayOpen: bool
    var streaming: bool
    var cfPose: Option<Pose>
    var cfTrackingLoss: nat
    var controllerPoses: seq<Pose>
    var delivered: seq<Delivery>

    constructor (cfBodyName: string, controllerBodyNames: seq<string>,
                 controllerPoses: seq<Pose>, qtmIp: string := "127.0.0.1")
      ensures this.cfBodyName == cfBodyName && this.qtmIp == qtmIp
      ensures this.controllerBodyNames == controllerBodyNames
      ensures this.controllerPoses == controllerPoses
      ensures !onCfPose && bodyToIdx == map[] && stayOpen && !streaming
      ensures cfPose == None && cfTrackingLoss == 0 && delivered == []
    {
      this.cfBodyName, this.qtmIp := cfBodyName, qtmIp;
      this.controllerBodyNames := controllerBodyNames;
      this.controllerPoses := controllerPoses;
      onCfPose, bodyToIdx, stayOpen, streaming := false, map[], true, false;
      cfPose, cfTrackingLoss, delivered := None, 0, [];
    }

    /**
     * `_connect` once the 6DOF body names have been read: index the stripped names, shut
     * down when the vehicle's own body is missing, then start streaming.
     */
    method Connect(names: seq<string>)
      modifies this
      ensures bodyToIdx == Indexed(old(bodyToIdx), names)
      ensures stayOpen == (old(stayOpen) && cfBodyName in bodyToIdx)
      ensures streaming
      ensures onCfPose == old(onCfPose) && cfPose == old(cfPose)
      ensures cfTrackingLoss == old(cfTrackingLoss) && controllerPoses == old(controllerPoses)
      ensures delivered == old(delivered)
    {
      for index := 0 to |names|
        invariant bodyToIdx == Indexed(old(bodyToIdx), names[..index])
        invariant stayOpen == old(stayOpen) && streaming == old(streaming)
        invariant onCfPose == old(onCfPose) && cfPose == old(cfPose)
        invariant cfTrackingLoss == old(cfTrackingLoss) && controllerPoses == old(controllerPoses)
        invariant delivered == old(delivered)
      {
        assert names[..index + 1][..index] == names[..index];
        bodyToIdx := bodyToIdx[Strip(names[index]) := index];
      }
      assert names[..|names|] == names;
      if cfBodyName !in bodyToIdx {
        stayOpen := false;
      }
      streaming := true;
    }

    /** Where the vehicle's body is in the '6d' component, or the error looking it up raises. */
    static function CfLookup(table: map<string, nat>, name: string, comp: seq<Body6d>): (r: Result<Pose, PyError>)
      ensures r == Err(KeyError) <==> name !in table
      ensures r == Err(IndexError) <==> name in table && table[name] >= |comp|
      ensures r.Ok? ==> name in table && table[name] < |comp| && r.value == FromQtm6d(comp[table[name]])
    {
      if name !in table then Err(KeyError)
      else if table[name] >= |comp| then Err(IndexError)
      else Ok(FromQtm6d(comp[table[name]]))
    }

    /**
     * `_on_packet`: a packet missing a component changes nothing; a valid vehicle pose is
     * stored and, when a callback is registered, delivered once and the loss counter reset;
     * an invalid one increments the counter by exactly one; then each controller's entry is
     * overwritten only by a valid pose.
     */
    method OnPacket(packet: Packet) returns (raised: Option<PyError>)
      modifies this
      ensures bodyToIdx == old(bodyToIdx) && onCfPose == old(onCfPose)
      ensures stayOpen == old(stayOpen) && streaming == old(streaming)
      ensures packet.sixD.None? || packet.sixDEuler.None? ==>
        raised == None && cfPose == old(cfPose) && cfTrackingLoss == old(cfTrackingLoss) &&
        delivered == old(delivered) && controllerPoses == old(controllerPoses)
      ensures packet.sixD.Some? && packet.sixDEuler.Some? ==>
        match CfLookup(bodyToIdx, cfBodyName, packet.sixD.value)
        case Err(e) =>
          raised == Some(e) && cfPose == old(cfPose) && cfTrackingLoss == old(cfTrackingLoss) &&
          delivered == old(delivered) && controllerPoses == old(controllerPoses)
        case Ok(p) =>
          (IsValid(p) ==>
             cfPose == Some(p) &&
             (if onCfPose then delivered == old(delivered) + [Delivery(p.x, p.y, p.z, p.rotmatrix)] &&
                               cfTrackingLoss == 0
              else delivered == old(delivered) && cfTrackingLoss == old(cfTrackingLoss))) &&
          (!IsValid(p) ==> cfPose == old(cfPose) && delivered == old(delivered) &&
                           cfTrackingLoss == old(cfTrackingLoss) + 1) &&
          var pass := ControllersAfter(old(controllerPoses), controllerBodyNames, bodyToIdx,
                                       packet.sixDEuler.value);
          controllerPoses == pass.poses && raised == pass.error
    {
      if packet.sixD.None? || packet.sixDEuler.None? {
        return None;
      }
      var component6d := packet.sixD.value;
      var component6dEuler := packet.sixDEuler.value;
      if cfBodyName !in bodyToIdx {
        return Some(KeyError);
      }
      if bodyToIdx[cfBodyName] >= |component6d| {
        return Some(IndexError);
      }
      var candidate := FromQtm6d(component6d[bodyToIdx[cfBodyName]]);
      if IsValid(candidate) {
        cfPose := Some(candidate);
        if onCfPose {
          delivered := delivered + [Delivery(candidate.x, candidate.y, candidate.z, candidate.rotmatrix)];
          cfTrackingLoss := 0;
        }
      } else {
        cfTrackingLoss := cfTrackingLoss + 1;
      }
      raised := UpdateControllers(component6dEuler);
    }

    /**
     * The controller loop of `_on_packet`: in list order, each controller's entry is
     * overwritten by its fresh pose when that pose is valid; the first failed lookup or
     * out-of-range entry raises and ends the loop.
     */
    method UpdateControllers(component6dEuler: seq<Body6dEuler>) returns (raised: Option<PyError>)
      modifies this
      ensures bodyToIdx == old(bodyToIdx) && onCfPose == old(onCfPose)
      ensures stayOpen == old(stayOpen) && streaming == old(streaming)
      ensures cfPose == old(cfPose) && cfTrackingLoss == old(cfTrackingLoss) && delivered == old(delivered)
      ensures var pass := ControllersAfter(old(controllerPoses), controllerBodyNames, bodyToIdx, component6dEuler);
        controllerPoses == pass.poses && raised == pass.error
    {
      ghost var before := controllerPoses;
      for i := 0 to |controllerBodyNames|
        invariant bodyToIdx == old(bodyToIdx) && onCfPose == old(onCfPose)
        invariant stayOpen == old(stayOpen) && streaming == old(streaming)
        invariant cfPose == old(cfPose) && cfTrackingLoss == old(cfTrackingLoss) && delivered == old(delivered)
        invariant ControllersAfter(before, controllerBodyNames[..i], bodyToIdx, component6dEuler)
                  == ControllerPass(controllerPoses, None)
      {
        assert controllerBodyNames[..i + 1][..i] == controllerBodyNames[..i];
        var name := controllerBodyNames[i];
        if name !in bodyToIdx {
          ControllersAfterStops(before, controllerBodyNames, bodyToIdx, component6dEuler, i + 1);
          return Some(KeyError);
        }
        if bodyToIdx[name] >= |component6dEuler| {
          ControllersAfterStops(before, controllerBodyNames, bodyToIdx, component6dEuler, i + 1);
          return Some(IndexError);
        }
        var controllerPose := FromQtm6dEuler(component6dEuler[bodyToIdx[name]]);
        if IsValid(controllerPose) {
          if i >= |controllerPoses| {
            ControllersAfterStops(before, controllerBodyNames, bodyToIdx, component6dEuler, i + 1);
            return Some(IndexError);
          }
          controllerPoses := controllerPoses[i := controllerPose];
        }
      }
      assert controllerBodyNames[..|controllerBodyNames|] == controllerBodyNames;
      raised := None;
    }
  }
}
