/**
 The analytic inverse kinematics of the Inspector and its automatic choice of the sign of gamma.
 */
module InspectorIk {
  import opened DhChain

  const EPS: real := 0.000000000001

  datatype Branch = Plus | Minus | Auto

  predicate Near(gamma: real, eps: real) { -eps < gamma < eps }

  /** The base angle; next to the axis it cannot be told and is set to zero. */
  function BaseAngle(m: Math, px: real, py: real, gamma: real, eps: real): real
    requires eps > 0.0
  {
    if Near(gamma, eps) then 0.0 else m.atan2(py / gamma, px / gamma)
  }

  /** The solution for one sign of gamma. */
  function Solve(m: Math, g: Geometry, t: Pose, sign: real): Joints {
    var q4 := m.atan2(-t.a.z, t.n.z);
    var gamma := sign * m.hypot(t.p.x, t.p.y);
    Joints(BaseAngle(m, t.p.x, t.p.y, gamma, EPS), t.p.z - g.l2 + g.d * m.sin(q4), gamma - g.d * m.cos(q4) + g.l1 - g.l3, q4)
  }

  function Square(x: real): (r: real)
    ensures r >= 0.0
  {
    x * x
  }

  function Distance(u: Vec, v: Vec): real {
    Square(u.x - v.x) + Square(u.y - v.y) + Square(u.z - v.z)
  }

  /** The squared Frobenius norm of the difference of two poses. */
  function Error(t: Pose, u: Pose): real {
    Distance(t.n, u.n) + Distance(t.o, u.o) + Distance(t.a, u.a) + Distance(t.p, u.p)
  }

  /** The error, entry by entry of the two matrices. */
  lemma ErrorIsSum(t: Pose, u: Pose)
    ensures Error(t, u)
      == (t.n.x - u.n.x) * (t.n.x - u.n.x) + (t.n.y - u.n.y) * (t.n.y - u.n.y) + (t.n.z - u.n.z) * (t.n.z - u.n.z)
       + (t.o.x - u.o.x) * (t.o.x - u.o.x) + (t.o.y - u.o.y) * (t.o.y - u.o.y) + (t.o.z - u.o.z) * (t.o.z - u.o.z)
       + (t.a.x - u.a.x) * (t.a.x - u.a.x) + (t.a.y - u.a.y) * (t.a.y - u.a.y) + (t.a.z - u.a.z) * (t.a.z - u.a.z)
       + (t.p.x - u.p.x) * (t.p.x - u.p.x) + (t.p.y - u.p.y) * (t.p.y - u.p.y) + (t.p.z - u.p.z) * (t.p.z - u.p.z)
  {
  }

  function BranchError(m: Math, g: Geometry, t: Pose, sign: real): real {
    Error(Forward(m, g, Solve(m, g, t, sign)), t)
  }

  /** The solution with the smaller pose error; equal errors leave the positive sign. */
  function Best(m: Math, g: Geometry, t: Pose): Joints {
    if BranchError(m, g, t, 1.0) <= BranchError(m, g, t, -1.0) then Solve(m, g, t, 1.0) else Solve(m, g, t, -1.0)
  }

  method IkineInspector(m: Math, g: Geometry, t: Pose, branch: Branch) returns (q: Joints)
    ensures q == match branch
                 case Plus => Solve(m, g, t, 1.0)
                 case Minus => Solve(m, g, t, -1.0)
                 case Auto => Best(m, g, t)
    ensures var plus, minus := Solve(m, g, t, 1.0), Solve(m, g, t, -1.0);
      branch == Auto ==>
        if Error(Forward(m, g, minus), t) < Error(Forward(m, g, plus), t) then q == minus else q == plus
  {
    hide Forward, Error, Solve;
    if branch == Plus {
      return Solve(m, g, t, 1.0);
    }
    if branch == Minus {
      return Solve(m, g, t, -1.0);
    }
    var signs := [1.0, -1.0];
    var found, bestError := false, 0.0;
    q := Joints(0.0, 0.0, 0.0, 0.0);
    var i := 0;
    while i < |signs|
      invariant 0 <= i <= |signs|
      invariant found == (i > 0)
      invariant i == 1 ==> q == Solve(m, g, t, 1.0) && bestError == BranchError(m, g, t, 1.0)
      invariant i == 2 ==> q == Best(m, g, t)
    {
      var solution := Solve(m, g, t, signs[i]);
      var error := Error(Forward(m, g, solution), t);
      if !found || error < bestError {
        q, bestError, found := solution, error, true;
      }
      i := i + 1;
    }
  }

  // ----- the angles come back from a pose of the chain

  lemma SquareGrows(a: real, b: real)
    requires 0.0 <= a < b
    ensures a * a < b * b
  {
    ProductSign(b - a, b, (b - a) * b);
    assert a * (b - a) >= 0.0;
    assert b * b - a * a == (b - a) * b + a * (b - a);
  }

  lemma SameSquare(h: real, a: real)
    requires h >= 0.0 && h * h == a * a
    ensures h == if a >= 0.0 then a else -a
  {
    var b := if a >= 0.0 then a else -a;
    assert b * b == a * a;
    if h < b { SquareGrows(h, b); }
    if b < h { SquareGrows(b, h); }
  }

  lemma AtanOfUnit(m: Math, x: real, y: real)
    requires Polar(m) && x * x + y * y == 1.0
    ensures m.cos(m.atan2(y, x)) == x && m.sin(m.atan2(y, x)) == y
  {
    assert PolarForm(m, x, y);
    SameSquare(m.hypot(x, y), 1.0);
  }

  lemma ReachOfPose(m: Math, gamma: real, c1: real, s1: real)
    requires Polar(m) && c1 * c1 + s1 * s1 == 1.0
    ensures m.hypot(gamma * c1, gamma * s1) == if gamma >= 0.0 then gamma else -gamma
  {
    var x, y := gamma * c1, gamma * s1;
    assert PolarForm(m, x, y);
    SquaresOfPolar(gamma, c1, s1);
    SameSquare(m.hypot(x, y), gamma);
  }

  lemma SquaresOfPolar(gamma: real, c: real, s: real)
    requires c * c + s * s == 1.0
    ensures gamma * c * (gamma * c) + gamma * s * (gamma * s) == gamma * gamma
  {
    assert gamma * c * (gamma * c) + gamma * s * (gamma * s) == gamma * gamma * (c * c + s * s);
  }

  lemma Quotients(k: real, c: real)
    requires k != 0.0
    ensures k * c / k == c && k * c / -k == -c
  {
  }

  /** The sign that gamma really has. */
  function SignOf(gamma: real): real { if gamma >= 0.0 then 1.0 else -1.0 }

  function Turned(gamma: real, sign: real): real { if sign == SignOf(gamma) then 1.0 else -1.0 }

  lemma BaseOfPose(m: Math, gamma: real, k: real, c1: real, s1: real)
    requires Polar(m) && c1 * c1 + s1 * s1 == 1.0 && (k == 1.0 || k == -1.0)
    ensures var q1 := BaseAngle(m, gamma * c1, gamma * s1, k * gamma, EPS);
            && (Near(gamma, EPS) ==> q1 == 0.0)
            && (!Near(gamma, EPS) ==> m.cos(q1) == k * c1 && m.sin(q1) == k * s1)
  {
    if !Near(gamma, EPS) {
      Quotients(gamma, c1);
      Quotients(gamma, s1);
      if k == 1.0 {
        AtanOfUnit(m, c1, s1);
      } else {
        assert (-c1) * (-c1) + (-s1) * (-s1) == 1.0;
        AtanOfUnit(m, -c1, -s1);
      }
    }
  }

  /** Either branch on a pose of the chain: q2 and q4 come back, q3 follows from the signed reach, and
      the base angle comes back with the right sign and turned by half a turn with the other. */
  lemma SolveOfPose(m: Math, g: Geometry, gamma: real, q2: real, c1: real, s1: real, c4: real, s4: real, sign: real)
    requires Polar(m) && c1 * c1 + s1 * s1 == 1.0 && c4 * c4 + s4 * s4 == 1.0
    requires sign == 1.0 || sign == -1.0
    ensures var q := Solve(m, g, Closed(g, gamma, q2, c1, s1, c4, s4), sign);
            var k := Turned(gamma, sign);
            && m.cos(q.q4) == c4 && m.sin(q.q4) == s4 && q.q2 == q2
            && Gamma(m, g, q) == k * gamma
            && (Near(gamma, EPS) ==> q.q1 == 0.0)
            && (!Near(gamma, EPS) ==> m.cos(q.q1) == k * c1 && m.sin(q.q1) == k * s1)
  {
    hide Polar, BaseAngle, Near, Turned;
    var t := Closed(g, gamma, q2, c1, s1, c4, s4);
    var k := Turned(gamma, sign);
    AtanOfUnit(m, c4, s4);
    ReachOfPose(m, gamma, c1, s1);
    TurnedSign(gamma, sign);
    BaseOfPose(m, gamma, k, c1, s1);
    var signed := sign * m.hypot(t.p.x, t.p.y);
    SignedReach(gamma, sign, m.hypot(t.p.x, t.p.y));
    assert t.n.z == c4 && -t.a.z == s4;
    assert Solve(m, g, t, sign).q1 == BaseAngle(m, gamma * c1, gamma * s1, k * gamma, EPS);
  }

  lemma TurnedSign(gamma: real, sign: real)
    ensures Turned(gamma, sign) == 1.0 || Turned(gamma, sign) == -1.0
  {
  }

  lemma SignedReach(gamma: real, sign: real, h: real)
    requires (sign == 1.0 || sign == -1.0) && h == if gamma >= 0.0 then gamma else -gamma
    ensures sign * h == Turned(gamma, sign) * gamma
  {
  }

  // ----- the automatic choice

  lemma RightError(g: Geometry, gamma: real, q2: real, c1: real, s1: real, c4: real, s4: real)
    ensures var t := Closed(g, gamma, q2, c1, s1, c4, s4); Error(t, t) == 0.0
  {
  }

  /** The wrong sign turns the hand over: four times the squares of the first two rows, eight in all. */
  lemma WrongError(g: Geometry, gamma: real, q2: real, c1: real, s1: real, c4: real, s4: real)
    requires c1 * c1 + s1 * s1 == 1.0 && c4 * c4 + s4 * s4 == 1.0
    ensures Error(Closed(g, -gamma, q2, -c1, -s1, c4, s4), Closed(g, gamma, q2, c1, s1, c4, s4)) == 8.0
  {
    FlippedColumn(c1, s1, s4, c4);
    FlippedColumn(c1, s1, c4, -s4);
    FlippedMiddle(c1, s1);
    var u, t := Closed(g, -gamma, q2, -c1, -s1, c4, s4), Closed(g, gamma, q2, c1, s1, c4, s4);
    assert u.p == t.p;
    SameDistance(t.p);
    assert 4.0 * (s4 * s4) + 4.0 + 4.0 * (c4 * c4) + 0.0 == 8.0;
    hide Distance;
  }

  lemma SameDistance(v: Vec)
    ensures Distance(v, v) == 0.0
  {
  }

  lemma FlippedMiddle(c1: real, s1: real)
    requires c1 * c1 + s1 * s1 == 1.0
    ensures Distance(Vec(-s1, -(-c1), 0.0), Vec(s1, -c1, 0.0)) == 4.0
  {
  }

  lemma FlippedColumn(c1: real, s1: real, k: real, z: real)
    requires c1 * c1 + s1 * s1 == 1.0
    ensures Distance(Vec(-c1 * k, -s1 * k, z), Vec(c1 * k, s1 * k, z)) == 4.0 * (k * k)
  {
    SquaresOfPolar(k, c1, s1);
    Doubled(c1, k);
    Doubled(s1, k);
  }

  lemma Doubled(x: real, k: real)
    ensures Square(-x * k - x * k) == 4.0 * (k * x * (k * x))
  {
    assert -x * k - x * k == -2.0 * (k * x);
  }

  lemma Unit(m: Math, t: real)
    requires UnitCircle(m)
    ensures m.cos(t) * m.cos(t) + m.sin(t) * m.sin(t) == 1.0
  {
    assert OnUnitCircle(m, t);
  }

  /** A pose of the chain, by its joints, and what the chain makes of the solution for one sign. */
  lemma BranchPose(m: Math, g: Geometry, j: Joints, sign: real)
    requires ValidMath(m) && (sign == 1.0 || sign == -1.0)
    ensures var t := Forward(m, g, j);
            var gamma, k := Gamma(m, g, j), Turned(Gamma(m, g, j), sign);
            var q := Solve(m, g, t, sign);
            && m.cos(q.q4) == m.cos(j.q4) && m.sin(q.q4) == m.sin(j.q4) && q.q2 == j.q2
            && (k == 1.0 ==> q.q3 == j.q3)
            && (Near(gamma, EPS) ==> q.q1 == 0.0)
            && (!Near(gamma, EPS) ==> m.cos(q.q1) == k * m.cos(j.q1) && m.sin(q.q1) == k * m.sin(j.q1))
            && Forward(m, g, q)
               == Closed(g, k * gamma, j.q2, m.cos(q.q1), m.sin(q.q1), m.cos(j.q4), m.sin(j.q4))
  {
    hide Forward, Closed, Solve, QuarterTurns, UnitCircle, Polar, Near;
    var c1, s1, c4, s4 := m.cos(j.q1), m.sin(j.q1), m.cos(j.q4), m.sin(j.q4);
    Unit(m, j.q1);
    Unit(m, j.q4);
    ForwardClosed(m, g, j);
    SolveOfPose(m, g, Gamma(m, g, j), j.q2, c1, s1, c4, s4, sign);
    var q := Solve(m, g, Forward(m, g, j), sign);
    ForwardClosed(m, g, q);
  }

  /**
   The automatic choice is exact: for the pose of any configuration that is not on the axis, the branch
   with gamma's own sign rebuilds the pose with error 0, the other misses it by exactly 8, and the
   answer has the joint values that made the pose.
   */
  lemma AutoExact(m: Math, g: Geometry, j: Joints)
    requires ValidMath(m) && !Near(Gamma(m, g, j), EPS)
    ensures var t := Forward(m, g, j);
            var q := Best(m, g, t);
            && BranchError(m, g, t, SignOf(Gamma(m, g, j))) == 0.0
            && BranchError(m, g, t, -SignOf(Gamma(m, g, j))) == 8.0
            && Forward(m, g, q) == t
            && q.q2 == j.q2 && q.q3 == j.q3
            && m.cos(q.q1) == m.cos(j.q1) && m.sin(q.q1) == m.sin(j.q1)
            && m.cos(q.q4) == m.cos(j.q4) && m.sin(q.q4) == m.sin(j.q4)
  {
    hide Forward, Closed, Solve, Error, QuarterTurns, UnitCircle, Polar, Near, Gamma;
    var c1, s1, c4, s4 := m.cos(j.q1), m.sin(j.q1), m.cos(j.q4), m.sin(j.q4);
    var gamma := Gamma(m, g, j);
    Unit(m, j.q1);
    Unit(m, j.q4);
    BranchPose(m, g, j, SignOf(gamma));
    BranchPose(m, g, j, -SignOf(gamma));
    ForwardClosed(m, g, j);
    RightError(g, gamma, j.q2, c1, s1, c4, s4);
    WrongError(g, gamma, j.q2, c1, s1, c4, s4);
  }

  lemma ErrorZero(t: Pose, u: Pose)
    ensures Error(t, u) >= 0.0 && (Error(t, u) == 0.0 <==> t == u)
  {
    DistanceZero(t.n, u.n);
    DistanceZero(t.o, u.o);
    DistanceZero(t.a, u.a);
    DistanceZero(t.p, u.p);
    hide Distance;
  }

  lemma DistanceZero(u: Vec, v: Vec)
    ensures Distance(u, v) >= 0.0 && (Distance(u, v) == 0.0 <==> u == v)
  {
    hide Square;
    SquareZero(u.x - v.x);
    SquareZero(u.y - v.y);
    SquareZero(u.z - v.z);
  }

  lemma SquareZero(x: real)
    ensures Square(x) == 0.0 <==> x == 0.0
  {
    if x > 0.0 {
      ProductSign(x, x, Square(x));
    } else if x < 0.0 {
      ProductSign(-x, -x, Square(x));
    }
  }

  lemma ProductSign(a: real, b: real, c: real)
    requires a > 0.0 && b > 0.0 && c == a * b
    ensures c > 0.0
  {
  }

  lemma NoSine(c: real, s: real)
    requires c * c + s * s == 1.0 && c == 1.0
    ensures s == 0.0
  {
    SquareZero(s);
    assert c * c == 1.0;
  }

  /** On the axis the base angle is lost: the answer rebuilds the pose exactly when it is away from
      the axis, or the base angle was a whole number of turns. */
  lemma AutoRebuilds(m: Math, g: Geometry, j: Joints)
    requires ValidMath(m)
    ensures var t, gamma := Forward(m, g, j), Gamma(m, g, j);
            Forward(m, g, Best(m, g, t)) == t
            <==> gamma <= -0.000000000001 || gamma >= 0.000000000001 || m.cos(j.q1) == 1.0
  {
    var gamma := Gamma(m, g, j);
    if !Near(gamma, EPS) {
      AutoExact(m, g, j);
    } else {
      OnAxis(m, g, j);
    }
  }

  lemma OnAxis(m: Math, g: Geometry, j: Joints)
    requires ValidMath(m) && Near(Gamma(m, g, j), EPS)
    ensures var t := Forward(m, g, j); Forward(m, g, Best(m, g, t)) == t <==> m.cos(j.q1) == 1.0
  {
    hide Forward, Solve, Error, QuarterTurns, UnitCircle, Polar, Near, Gamma;
    var gamma := Gamma(m, g, j);
    var t := Forward(m, g, j);
    Unit(m, j.q1);
    if m.cos(j.q1) == 1.0 {
      NoSine(m.cos(j.q1), m.sin(j.q1));
    }
    assert m.cos(0.0) == 1.0 && m.sin(0.0) == 0.0 by { AtZero(m); }
    BranchPose(m, g, j, 1.0);
    BranchPose(m, g, j, -1.0);
    ForwardClosed(m, g, j);
    ErrorZero(Forward(m, g, Solve(m, g, t, 1.0)), t);
    ErrorZero(Forward(m, g, Solve(m, g, t, -1.0)), t);
  }

  lemma AtZero(m: Math)
    requires QuarterTurns(m)
    ensures m.cos(0.0) == 1.0 && m.sin(0.0) == 0.0
  {
  }
}
