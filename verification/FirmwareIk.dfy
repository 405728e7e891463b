/**
 The inverse kinematics the firmware uses: a Cartesian target with a pitch angle, the negative
 branch of gamma first, the positive one when only it keeps the joint limits.
 */
module FirmwareIk {
  import opened DhChain
  import opened InspectorIk

  const AXIS: real := 0.000000001
  const LIMIT_EPS: real := 0.001
  const RAIL_MIN: real := 0.0
  const RAIL_MAX: real := 0.18

  /** X, Y, Z in millimetres and the pitch in degrees. */
  datatype Target = Target(x: real, y: real, z: real, a: real)

  function Degrees(m: Math, t: real): real
    requires m.pi > 0.0
  {
    t * 180.0 / m.pi
  }

  function Radians(m: Math, d: real): real {
    d * m.pi / 180.0
  }

  function Height(g: Geometry, q2: real, s4: real): real { q2 + g.l2 - g.d * s4 }

  function FkineCartesian(m: Math, g: Geometry, q: Joints): Target
    requires m.pi > 0.0
  {
    var gamma := Gamma(m, g, q);
    Target(gamma * m.cos(q.q1) * 1000.0, gamma * m.sin(q.q1) * 1000.0,
           Height(g, q.q2, m.sin(q.q4)) * 1000.0, Degrees(m, q.q4))
  }

  /** The position of the firmware's forward kinematics is that of the chain of links, in millimetres. */
  lemma FkineIsForward(m: Math, g: Geometry, q: Joints)
    requires QuarterTurns(m)
    ensures var f, t := Forward(m, g, q), FkineCartesian(m, g, q);
      t.x == f.p.x * 1000.0 && t.y == f.p.y * 1000.0 && t.z == f.p.z * 1000.0
  {
    ForwardClosed(m, g, q);
    hide Forward, FkineCartesian, Gamma, Closed;
    InMillimetres(m, g, q, Forward(m, g, q).p);
  }

  lemma InMillimetres(m: Math, g: Geometry, q: Joints, p: Vec)
    requires m.pi > 0.0
    requires p == Closed(g, Gamma(m, g, q), q.q2, m.cos(q.q1), m.sin(q.q1), m.cos(q.q4), m.sin(q.q4)).p
    ensures var t := FkineCartesian(m, g, q); t.x == p.x * 1000.0 && t.y == p.y * 1000.0 && t.z == p.z * 1000.0
  {
    assert p.z == Height(g, q.q2, m.sin(q.q4));
    hide Gamma, Degrees, Height;
  }

  /** The pitch is the angle of the last link in degrees. */
  lemma PitchInDegrees(m: Math, g: Geometry, q: Joints)
    requires m.pi > 0.0
    ensures FkineCartesian(m, g, q).a * m.pi == q.q4 * 180.0
  {
    hide Gamma;
    Quotient(q.q4 * 180.0, m.pi);
  }

  lemma Quotient(x: real, y: real)
    requires y != 0.0
    ensures x / y * y == x
  {
  }

  function Signed(sign: real, r: real): real { sign * r }

  function Rail(g: Geometry, gamma: real, c4: real): real { gamma - g.d * c4 + g.l1 - g.l3 }

  /** The joints for one sign of gamma; positions in metres, the pitch in radians. */
  function BranchJoints(m: Math, g: Geometry, px: real, py: real, pz: real, q4: real, sign: real): Joints {
    var gamma := Signed(sign, m.hypot(px, py));
    Joints(BaseAngle(m, px, py, gamma, AXIS), pz - g.l2 + g.d * m.sin(q4), Rail(g, gamma, m.cos(q4)), q4)
  }

  predicate InLimits(m: Math, q: Joints) {
    && -m.pi - LIMIT_EPS <= q.q1 <= m.pi + LIMIT_EPS
    && RAIL_MIN - LIMIT_EPS <= q.q3 <= RAIL_MAX + LIMIT_EPS
  }

  /** The branch that is taken: plus only when minus breaks a limit and plus does not. */
  function Chosen(m: Math, g: Geometry, px: real, py: real, pz: real, q4: real): Joints {
    var minus := BranchJoints(m, g, px, py, pz, q4, -1.0);
    var plus := BranchJoints(m, g, px, py, pz, q4, 1.0);
    if !InLimits(m, minus) && InLimits(m, plus) then plus else minus
  }

  method SelectBranch(m: Math, g: Geometry, px: real, py: real, pz: real, q4: real) returns (q: Joints)
    ensures q == Chosen(m, g, px, py, pz, q4)
  {
    hide BaseAngle, Signed, Rail;
    var q2 := pz - g.l2 + g.d * m.sin(q4);
    var r := m.hypot(px, py);
    var q1, q3 := 0.0, 0.0;
    var found := false;
    var signs := [-1.0, 1.0];
    var s := 0;
    while s < |signs| && !found
      invariant 0 <= s <= |signs|
      invariant s == 0 ==> !found
      invariant s == 1 ==> found == InLimits(m, BranchJoints(m, g, px, py, pz, q4, -1.0))
      invariant s == 1 ==> Joints(q1, q2, q3, q4) == BranchJoints(m, g, px, py, pz, q4, -1.0)
      invariant s == 2 ==> Joints(q1, q2, q3, q4) == Chosen(m, g, px, py, pz, q4)
    {
      var sign := signs[s];
      var gamma := Signed(sign, r);
      var c1 := BaseAngle(m, px, py, gamma, AXIS);
      var c3 := Rail(g, gamma, m.cos(q4));
      var c1In := -m.pi - LIMIT_EPS <= c1 <= m.pi + LIMIT_EPS;
      var c3In := RAIL_MIN - LIMIT_EPS <= c3 <= RAIL_MAX + LIMIT_EPS;
      assert Joints(c1, q2, c3, q4) == BranchJoints(m, g, px, py, pz, q4, sign);
      if (c1In && c3In) || s == 0 {
        q1, q3 := c1, c3;
      }
      if c1In && c3In {
        found := true;
      }
      s := s + 1;
    }
    q := Joints(q1, q2, q3, q4);
  }

  function IkineFirmware(m: Math, g: Geometry, t: Target): Joints {
    Chosen(m, g, t.x / 1000.0, t.y / 1000.0, t.z / 1000.0, Radians(m, t.a))
  }

  // ----- every branch hits the target

  lemma DegreesOfRadians(m: Math, d: real)
    requires m.pi > 0.0
    ensures Degrees(m, Radians(m, d)) == d && Radians(m, Degrees(m, d)) == d
  {
    Cancel(d, m.pi);
    assert d * 180.0 / m.pi * m.pi == d * 180.0;
  }

  lemma Cancel(d: real, pi: real)
    requires pi > 0.0
    ensures d * pi / 180.0 * 180.0 / pi == d
  {
    assert d * pi / 180.0 * 180.0 == d * pi;
  }

  lemma OverGamma(x: real, gamma: real)
    requires gamma != 0.0
    ensures gamma * (x / gamma) == x
  {
  }

  lemma QuotientsOnCircle(x: real, y: real, gamma: real)
    requires gamma != 0.0 && gamma * gamma == x * x + y * y
    ensures (x / gamma) * (x / gamma) + (y / gamma) * (y / gamma) == 1.0
  {
    var u, v := x / gamma, y / gamma;
    OverGamma(x, gamma);
    OverGamma(y, gamma);
    var k := gamma * gamma;
    SquareFactor(x, gamma, u, k);
    SquareFactor(y, gamma, v, k);
    NotZero(gamma, k);
    Shares(k, x * x, y * y, u * u, v * v);
  }

  lemma SquareFactor(x: real, g: real, u: real, k: real)
    requires x == g * u && k == g * g
    ensures x * x == k * (u * u)
  {
    assert x * x == g * u * (g * u) == g * g * (u * u);
  }

  lemma Shares(k: real, xx: real, yy: real, a: real, b: real)
    requires k != 0.0 && k == xx + yy && xx == k * a && yy == k * b
    ensures a + b == 1.0
  {
    DivideSelf(k);
    DivideSum(k, xx, yy);
    DivideProduct(k, a);
    DivideProduct(k, b);
  }

  lemma DivideSelf(k: real)
    requires k != 0.0
    ensures k / k == 1.0
  {
  }

  lemma DivideSum(k: real, p: real, q: real)
    requires k != 0.0
    ensures (p + q) / k == p / k + q / k
  {
  }

  lemma DivideProduct(k: real, a: real)
    requires k != 0.0
    ensures k * a / k == a
  {
  }

  lemma ReachOfPoint(m: Math, px: real, py: real, gamma: real, c: real, s: real)
    requires Polar(m) && c * c + s * s == 1.0 && px == gamma * c && py == gamma * s
    ensures m.hypot(px, py) == if gamma >= 0.0 then gamma else -gamma
  {
    ReachOfPose(m, gamma, c, s);
  }

  lemma OwnSign(gamma: real, h: real)
    requires h == if gamma >= 0.0 then gamma else -gamma
    ensures SignOf(gamma) * h == gamma
  {
  }

  lemma NotZero(g: real, k: real)
    requires g != 0.0 && k == g * g
    ensures k != 0.0
  {
    if g > 0.0 { ProductSign(g, g, k); } else { ProductSign(-g, -g, k); }
  }

  /** Away from the axis the reach and the base angle of either sign give back the point. */
  lemma BasePoint(m: Math, px: real, py: real, sign: real)
    requires Polar(m) && (sign == 1.0 || sign == -1.0)
    requires !Near(sign * m.hypot(px, py), AXIS)
    ensures var gamma := sign * m.hypot(px, py);
            var q1 := BaseAngle(m, px, py, gamma, AXIS);
            gamma * m.cos(q1) == px && gamma * m.sin(q1) == py
  {
    var gamma := sign * m.hypot(px, py);
    assert PolarForm(m, px, py);
    assert gamma * gamma == m.hypot(px, py) * m.hypot(px, py);
    QuotientsOnCircle(px, py, gamma);
    AtanOfUnit(m, px / gamma, py / gamma);
    OverGamma(px, gamma);
    OverGamma(py, gamma);
  }

  /** The round trip from a target, for either sign: exact away from the axis; next to it exactly for
      targets that lie on the x axis, on the side of that sign. */
  lemma RoundTrip(m: Math, g: Geometry, px: real, py: real, pz: real, q4: real, sign: real)
    requires ValidMath(m) && (sign == 1.0 || sign == -1.0)
    ensures var q := BranchJoints(m, g, px, py, pz, q4, sign);
            var r := m.hypot(px, py);
            FkineCartesian(m, g, q) == Target(px * 1000.0, py * 1000.0, pz * 1000.0, Degrees(m, q4))
            <==> r >= AXIS || (px == sign * r && py == 0.0)
  {
    var q := BranchJoints(m, g, px, py, pz, q4, sign);
    var gamma := sign * m.hypot(px, py);
    assert PolarForm(m, px, py);
    hide UnitCircle, Polar, PolarForm;
    assert Gamma(m, g, q) == gamma;
    if Near(gamma, AXIS) {
      AtZero(m);
      assert q.q1 == 0.0;
      OnTheX(m, gamma, q.q1);
    } else {
      BasePoint(m, px, py, sign);
    }
  }

  lemma OnTheX(m: Math, gamma: real, q1: real)
    requires q1 == 0.0 && m.cos(0.0) == 1.0 && m.sin(0.0) == 0.0
    ensures gamma * m.cos(q1) == gamma && gamma * m.sin(q1) == 0.0
  {
  }

  // ----- the choice of the branch

  lemma BaseInLimits(m: Math, px: real, py: real, gamma: real)
    requires Polar(m) && m.pi > 3.0
    ensures -m.pi <= BaseAngle(m, px, py, gamma, AXIS) <= m.pi
  {
    if !Near(gamma, AXIS) {
      assert PolarForm(m, px / gamma, py / gamma);
    }
  }

  /** If either branch keeps the limits, so does the answer; it is the plus branch only when minus breaks one and plus
      none. */
  lemma ChoiceKeepsLimits(m: Math, g: Geometry, px: real, py: real, pz: real, q4: real)
    ensures var q := Chosen(m, g, px, py, pz, q4);
            var minus := BranchJoints(m, g, px, py, pz, q4, -1.0);
            var plus := BranchJoints(m, g, px, py, pz, q4, 1.0);
            && (InLimits(m, q) <==> InLimits(m, minus) || InLimits(m, plus))
            && (InLimits(m, minus) || !InLimits(m, plus) ==> q == minus)
  {
  }

  /** A target that joints within the rail's limits can reach gets an answer within the limits. */
  lemma ReachableInLimits(m: Math, g: Geometry, q: Joints)
    requires ValidMath(m) && -0.001 <= q.q3 <= 0.181
    ensures var r := IkineFirmware(m, g, FkineCartesian(m, g, q));
      -m.pi - 0.001 <= r.q1 <= m.pi + 0.001 && -0.001 <= r.q3 <= 0.181
  {
    var gamma := Gamma(m, g, q);
    var t := FkineCartesian(m, g, q);
    var px, py, pz := t.x / 1000.0, t.y / 1000.0, t.z / 1000.0;
    Unit(m, q.q1);
    DegreesOfRadians(m, q.q4);
    ReachOfPoint(m, px, py, gamma, m.cos(q.q1), m.sin(q.q1));
    var sign := SignOf(gamma);
    hide SignOf, Polar, UnitCircle, QuarterTurns;
    OwnSign(gamma, m.hypot(px, py));
    BaseInLimits(m, px, py, gamma);
    var branch := BranchJoints(m, g, px, py, pz, Radians(m, t.a), sign);
    assert branch.q3 == q.q3;
    ChoiceKeepsLimits(m, g, px, py, pz, Radians(m, t.a));
  }

  /** The sign of the branch that is taken. */
  function ChosenSign(m: Math, g: Geometry, px: real, py: real, pz: real, q4: real): real {
    if !InLimits(m, BranchJoints(m, g, px, py, pz, q4, -1.0)) && InLimits(m, BranchJoints(m, g, px, py, pz, q4, 1.0))
    then 1.0 else -1.0
  }

  /** A target comes back from the joints found for it exactly when it is away from the axis, or on the x axis on
      the side of the branch that is taken. */
  lemma TargetComesBack(m: Math, g: Geometry, t: Target)
    requires ValidMath(m)
    ensures var px, py := t.x / 1000.0, t.y / 1000.0;
            FkineCartesian(m, g, IkineFirmware(m, g, t)) == t
            <==> m.hypot(px, py) >= 0.000000001
                 || (px == ChosenSign(m, g, px, py, t.z / 1000.0, Radians(m, t.a)) * m.hypot(px, py) && py == 0.0)
  {
    hide BranchJoints, InLimits, FkineCartesian, Near;
    var px, py, pz := t.x / 1000.0, t.y / 1000.0, t.z / 1000.0;
    RoundTrip(m, g, px, py, pz, Radians(m, t.a), 1.0);
    RoundTrip(m, g, px, py, pz, Radians(m, t.a), -1.0);
    DegreesOfRadians(m, t.a);
  }
}
