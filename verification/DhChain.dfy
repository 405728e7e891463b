/**
 Rigid transforms, Denavit-Hartenberg links, and the Inspector's chain of six links.

 Angles are reals; cosine, sine, arc tangent and root are parameters known by their defining
 properties, so the results are exact and rounding is not part of the model.
 */
module DhChain {

  datatype Math = Math(cos: real -> real, sin: real -> real, atan2: (real, real) -> real,
                       hypot: (real, real) -> real, pi: real)

  predicate QuarterTurn(m: Math, t: real) {
    m.sin(t) == m.cos(t - m.pi / 2.0) && m.cos(t) == -m.sin(t - m.pi / 2.0)
  }

  predicate OnUnitCircle(m: Math, t: real) {
    m.cos(t) * m.cos(t) + m.sin(t) * m.sin(t) == 1.0
  }

  predicate PolarForm(m: Math, x: real, y: real) {
    && m.hypot(x, y) >= 0.0 && m.hypot(x, y) * m.hypot(x, y) == x * x + y * y
    && -m.pi <= m.atan2(y, x) <= m.pi
    && m.hypot(x, y) * m.cos(m.atan2(y, x)) == x && m.hypot(x, y) * m.sin(m.atan2(y, x)) == y
  }

  ghost predicate QuarterTurns(m: Math) {
    m.pi > 3.0 && m.cos(0.0) == 1.0 && m.sin(0.0) == 0.0 && forall t :: QuarterTurn(m, t)
  }

  ghost predicate UnitCircle(m: Math) {
    forall t :: OnUnitCircle(m, t)
  }

  ghost predicate Polar(m: Math) {
    forall x, y :: PolarForm(m, x, y)
  }

  ghost predicate ValidMath(m: Math) {
    QuarterTurns(m) && UnitCircle(m) && Polar(m)
  }

  /** A homogeneous transform without its constant last row, column by column. */
  datatype Vec = Vec(x: real, y: real, z: real)
  datatype Pose = Pose(n: Vec, o: Vec, a: Vec, p: Vec)

  function Add(u: Vec, v: Vec): Vec { Vec(u.x + v.x, u.y + v.y, u.z + v.z) }

  function Scale(k: real, v: Vec): Vec { Vec(k * v.x, k * v.y, k * v.z) }

  /** The rotation part of t applied to v. */
  function Turn(t: Pose, v: Vec): Vec {
    Add(Add(Scale(v.x, t.n), Scale(v.y, t.o)), Scale(v.z, t.a))
  }

  function Compose(t: Pose, u: Pose): Pose {
    Pose(Turn(t, u.n), Turn(t, u.o), Turn(t, u.a), Add(Turn(t, u.p), t.p))
  }

  /** A standard DH link, from cosine and sine of theta and alpha. */
  function Link(ct: real, st: real, ca: real, sa: real, a: real, d: real): Pose {
    Pose(Vec(ct, st, 0.0), Vec(-st * ca, ct * ca, sa), Vec(st * sa, -ct * sa, ca), Vec(a * ct, a * st, d))
  }

  function DhLink(m: Math, theta: real, alpha: real, a: real, d: real): Pose {
    Link(m.cos(theta), m.sin(theta), m.cos(alpha), m.sin(alpha), a, d)
  }

  datatype Geometry = Geometry(l1: real, l2: real, l3: real, d: real)

  datatype Joints = Joints(q1: real, q2: real, q3: real, q4: real)

  /** The chain of six links; the two virtual ones are locked. */
  function Forward(m: Math, g: Geometry, q: Joints): Pose {
    var quarter := m.pi / 2.0;
    var link1 := DhLink(m, q.q1, 0.0, -g.l1, g.l2);
    var link2 := DhLink(m, 0.0, -quarter, 0.0, q.q2);
    var virtual1 := DhLink(m, -quarter, -quarter, 0.0, 0.0);
    var link3 := DhLink(m, 0.0, quarter, 0.0, q.q3 + g.l3);
    var link4 := DhLink(m, q.q4 - quarter, 0.0, -g.d, 0.0);
    var virtual2 := DhLink(m, quarter, -quarter, 0.0, 0.0);
    Compose(Compose(Compose(Compose(Compose(link1, link2), virtual1), link3), link4), virtual2)
  }

  /** The signed reach of the arm in the horizontal plane. */
  function Gamma(m: Math, g: Geometry, q: Joints): real {
    q.q3 + g.d * m.cos(q.q4) - g.l1 + g.l3
  }

  /** The pose in closed form. */
  function Closed(g: Geometry, gamma: real, q2: real, c1: real, s1: real, c4: real, s4: real): Pose {
    Pose(Vec(c1 * s4, s1 * s4, c4), Vec(s1, -c1, 0.0), Vec(c1 * c4, s1 * c4, -s4),
         Vec(gamma * c1, gamma * s1, q2 + g.l2 - g.d * s4))
  }

  lemma Quarter(m: Math)
    requires QuarterTurns(m)
    ensures m.cos(m.pi / 2.0) == 0.0 && m.sin(m.pi / 2.0) == 1.0
    ensures m.cos(-(m.pi / 2.0)) == 0.0 && m.sin(-(m.pi / 2.0)) == -1.0
  {
    var h := m.pi / 2.0;
    assert QuarterTurn(m, 0.0) && QuarterTurn(m, h);
    assert 0.0 - h == -h && h - h == 0.0;
  }

  const ZERO: Vec := Vec(0.0, 0.0, 0.0)

  function Minus(v: Vec): Vec { Vec(-v.x, -v.y, -v.z) }

  lemma ScaleUnits(v: Vec)
    ensures Scale(1.0, v) == v && Scale(0.0, v) == ZERO && Scale(-1.0, v) == Minus(v)
  {
  }

  /** What a rotation makes of the axes, of a shift along its third axis, and of one in its first two. */
  lemma TurnAxes(t: Pose, u: real, v: real)
    ensures Turn(t, Vec(1.0, 0.0, 0.0)) == t.n && Turn(t, Vec(-1.0, 0.0, 0.0)) == Minus(t.n)
    ensures Turn(t, Vec(0.0, 1.0, 0.0)) == t.o && Turn(t, Vec(0.0, -1.0, 0.0)) == Minus(t.o)
    ensures Turn(t, Vec(0.0, 0.0, 1.0)) == t.a && Turn(t, Vec(0.0, 0.0, -1.0)) == Minus(t.a)
    ensures Turn(t, ZERO) == ZERO
    ensures Turn(t, Vec(0.0, 0.0, u)) == Scale(u, t.a)
    ensures Turn(t, Vec(u, v, 0.0)) == Add(Scale(u, t.n), Scale(v, t.o))
  {
    hide Scale;
    ScaleUnits(t.n);
    ScaleUnits(t.o);
    ScaleUnits(t.a);
  }

  lemma LinkTable(a: real, d: real, ct: real, st: real)
    ensures Link(1.0, 0.0, 0.0, -1.0, 0.0, d)
            == Pose(Vec(1.0, 0.0, 0.0), Vec(0.0, 0.0, -1.0), Vec(0.0, 1.0, 0.0), Vec(0.0, 0.0, d))
    ensures Link(0.0, -1.0, 0.0, -1.0, 0.0, 0.0)
            == Pose(Vec(0.0, -1.0, 0.0), Vec(0.0, 0.0, -1.0), Vec(1.0, 0.0, 0.0), ZERO)
    ensures Link(1.0, 0.0, 0.0, 1.0, 0.0, d)
            == Pose(Vec(1.0, 0.0, 0.0), Vec(0.0, 0.0, 1.0), Vec(0.0, -1.0, 0.0), Vec(0.0, 0.0, d))
    ensures Link(0.0, 1.0, 0.0, -1.0, 0.0, 0.0)
            == Pose(Vec(0.0, 1.0, 0.0), Vec(0.0, 0.0, -1.0), Vec(-1.0, 0.0, 0.0), ZERO)
    ensures Link(ct, st, 1.0, 0.0, a, d)
            == Pose(Vec(ct, st, 0.0), Vec(-st, ct, 0.0), Vec(0.0, 0.0, 1.0), Vec(a * ct, a * st, d))
  {
  }

  /** The chain up to the third link only turns the base column and moves along it. */
  lemma ThreeLinks(c1: real, s1: real, p: Vec, q2: real, d: real)
    ensures var first := Pose(Vec(c1, s1, 0.0), Vec(-s1, c1, 0.0), Vec(0.0, 0.0, 1.0), p);
            Compose(Compose(Compose(first, Link(1.0, 0.0, 0.0, -1.0, 0.0, q2)), Link(0.0, -1.0, 0.0, -1.0, 0.0, 0.0)),
                    Link(1.0, 0.0, 0.0, 1.0, 0.0, d))
            == Pose(Vec(0.0, 0.0, 1.0), Vec(c1, s1, 0.0), Vec(-s1, c1, 0.0),
                    Add(Scale(d, Vec(c1, s1, 0.0)), Vec(p.x, p.y, p.z + q2)))
  {
    hide Turn, Scale, Link;
    var first := Pose(Vec(c1, s1, 0.0), Vec(-s1, c1, 0.0), Vec(0.0, 0.0, 1.0), p);
    LinkTable(0.0, q2, 0.0, 0.0);
    LinkTable(0.0, d, 0.0, 0.0);
    TurnAxes(first, q2, 0.0);
    ScaleUp(q2);
    var second := Pose(first.n, Minus(first.a), first.o, Vec(p.x, p.y, p.z + q2));
    assert Compose(first, Link(1.0, 0.0, 0.0, -1.0, 0.0, q2)) == second;
    TurnAxes(second, 0.0, 0.0);
    var third := Pose(Vec(0.0, 0.0, 1.0), Vec(s1, -c1, 0.0), Vec(c1, s1, 0.0), second.p);
    assert Compose(second, Link(0.0, -1.0, 0.0, -1.0, 0.0, 0.0)) == third;
    TurnAxes(third, d, 0.0);
  }

  lemma ScaleUp(k: real)
    ensures Scale(k, Vec(0.0, 0.0, 1.0)) == Vec(0.0, 0.0, k)
  {
  }

  lemma LastLinks(c1: real, s1: real, c4: real, s4: real, p: Vec, d: real)
    ensures var third := Pose(Vec(0.0, 0.0, 1.0), Vec(c1, s1, 0.0), Vec(-s1, c1, 0.0), p);
            Compose(Compose(third, Link(s4, -c4, 1.0, 0.0, -d, 0.0)), Link(0.0, 1.0, 0.0, -1.0, 0.0, 0.0))
            == Pose(Vec(c1 * s4, s1 * s4, c4), Vec(s1, -c1, 0.0), Vec(c1 * c4, s1 * c4, -s4),
                    Vec(p.x + d * c4 * c1, p.y + d * c4 * s1, p.z - d * s4))
  {
    hide Turn, Scale, Link;
    var third := Pose(Vec(0.0, 0.0, 1.0), Vec(c1, s1, 0.0), Vec(-s1, c1, 0.0), p);
    LinkTable(-d, 0.0, s4, -c4);
    TurnAxes(third, s4, -c4);
    TurnAxes(third, c4, s4);
    var u, v := -d * s4, -d * -c4;
    TurnAxes(third, u, v);
    Columns(c1, s1, s4, -c4);
    Columns(c1, s1, c4, s4);
    Columns(c1, s1, u, v);
    assert Vec(-(-c4), s4, 0.0) == Vec(c4, s4, 0.0);
    var fourth := Pose(Vec(-c4 * c1, -c4 * s1, s4), Vec(s4 * c1, s4 * s1, c4), Vec(-s1, c1, 0.0),
                       Vec(p.x + -d * -c4 * c1, p.y + -d * -c4 * s1, p.z + -d * s4));
    var l4 := Link(s4, -c4, 1.0, 0.0, -d, 0.0);
    assert Turn(third, l4.n) == fourth.n;
    assert Turn(third, l4.o) == fourth.o;
    assert Turn(third, l4.a) == fourth.a;
    assert l4.p == Vec(u, v, 0.0);
    assert Turn(third, l4.p) == Vec(v * c1, v * s1, u);
    assert Compose(third, l4) == fourth;
    TurnAxes(fourth, 0.0, 0.0);
    Signs(d, c4, s4, c1, s1);
  }

  lemma Columns(c1: real, s1: real, u: real, v: real)
    ensures Add(Scale(u, Vec(0.0, 0.0, 1.0)), Scale(v, Vec(c1, s1, 0.0))) == Vec(v * c1, v * s1, u)
  {
  }

  lemma Signs(d: real, c4: real, s4: real, c1: real, s1: real)
    ensures -d * -c4 * c1 == d * c4 * c1 && -d * -c4 * s1 == d * c4 * s1 && -d * s4 == -(d * s4)
    ensures -(-c4 * c1) == c1 * c4 && -(-c4 * s1) == s1 * c4 && s4 * c1 == c1 * s4 && s4 * s1 == s1 * s4
  {
  }

  /** The product of the six links is the closed form: r31 = cos q4, r33 = -sin q4, reach gamma. */
  lemma ForwardClosed(m: Math, g: Geometry, q: Joints)
    requires QuarterTurns(m)
    ensures Forward(m, g, q)
            == Closed(g, Gamma(m, g, q), q.q2, m.cos(q.q1), m.sin(q.q1), m.cos(q.q4), m.sin(q.q4))
  {
    var c1, s1, c4, s4 := m.cos(q.q1), m.sin(q.q1), m.cos(q.q4), m.sin(q.q4);
    hide Forward, Product, Closed, QuarterTurns;
    ForwardLinks(m, g, q);
    ProductClosed(g, Gamma(m, g, q), q.q2, q.q3, c1, s1, c4, s4);
  }

  /** The six factors with the locked angles filled in. */
  function Product(g: Geometry, q2: real, q3: real, c1: real, s1: real, c4: real, s4: real): Pose {
    Compose(Compose(Compose(Compose(Compose(
      Link(c1, s1, 1.0, 0.0, -g.l1, g.l2), Link(1.0, 0.0, 0.0, -1.0, 0.0, q2)), Link(0.0, -1.0, 0.0, -1.0, 0.0, 0.0)),
      Link(1.0, 0.0, 0.0, 1.0, 0.0, q3 + g.l3)), Link(s4, -c4, 1.0, 0.0, -g.d, 0.0)), Link(0.0, 1.0, 0.0, -1.0, 0.0, 0.0))
  }

  lemma ForwardLinks(m: Math, g: Geometry, q: Joints)
    requires QuarterTurns(m)
    ensures Forward(m, g, q)
            == Product(g, q.q2, q.q3, m.cos(q.q1), m.sin(q.q1), m.cos(q.q4), m.sin(q.q4))
  {
    hide Compose, Link, DhLink, QuarterTurns;
    LockedLinks(m, q.q2);
    LockedLinks(m, q.q3 + g.l3);
    TurningLinks(m, q.q1, -g.l1, g.l2);
    TurningLinks(m, q.q4, -g.d, 0.0);
  }

  lemma LockedLinks(m: Math, d: real)
    requires QuarterTurns(m)
    ensures var h := m.pi / 2.0;
            && DhLink(m, 0.0, -h, 0.0, d) == Link(1.0, 0.0, 0.0, -1.0, 0.0, d)
            && DhLink(m, -h, -h, 0.0, 0.0) == Link(0.0, -1.0, 0.0, -1.0, 0.0, 0.0)
            && DhLink(m, 0.0, h, 0.0, d) == Link(1.0, 0.0, 0.0, 1.0, 0.0, d)
            && DhLink(m, h, -h, 0.0, 0.0) == Link(0.0, 1.0, 0.0, -1.0, 0.0, 0.0)
  {
    hide Link;
    Quarter(m);
  }

  lemma TurningLinks(m: Math, q: real, a: real, d: real)
    requires QuarterTurns(m)
    ensures DhLink(m, q, 0.0, a, d) == Link(m.cos(q), m.sin(q), 1.0, 0.0, a, d)
    ensures DhLink(m, q - m.pi / 2.0, 0.0, a, d) == Link(m.sin(q), -m.cos(q), 1.0, 0.0, a, d)
  {
    hide Link;
    assert QuarterTurn(m, q);
  }

  lemma ProductClosed(g: Geometry, gamma: real, q2: real, q3: real, c1: real, s1: real, c4: real, s4: real)
    requires gamma == q3 + g.d * c4 - g.l1 + g.l3
    ensures Product(g, q2, q3, c1, s1, c4, s4) == Closed(g, gamma, q2, c1, s1, c4, s4)
  {
    hide Compose, Link, Scale, Add, Closed;
    LinkTable(-g.l1, g.l2, c1, s1);
    var d := q3 + g.l3;
    var p0 := Vec(-g.l1 * c1, -g.l1 * s1, g.l2);
    var l1 := Link(c1, s1, 1.0, 0.0, -g.l1, g.l2);
    assert l1 == Pose(Vec(c1, s1, 0.0), Vec(-s1, c1, 0.0), Vec(0.0, 0.0, 1.0), p0);
    ThreeLinks(c1, s1, p0, q2, d);
    var p1 := Add(Scale(d, Vec(c1, s1, 0.0)), Vec(p0.x, p0.y, p0.z + q2));
    LastLinks(c1, s1, c4, s4, p1, g.d);
    var t3 := Pose(Vec(0.0, 0.0, 1.0), Vec(c1, s1, 0.0), Vec(-s1, c1, 0.0), p1);
    assert Product(g, q2, q3, c1, s1, c4, s4)
           == Compose(Compose(t3, Link(s4, -c4, 1.0, 0.0, -g.d, 0.0)), Link(0.0, 1.0, 0.0, -1.0, 0.0, 0.0));
    Reach(g, gamma, q2, q3, c1, s1, c4, s4, p0, p1);
  }

  lemma Reach(g: Geometry, gamma: real, q2: real, q3: real, c1: real, s1: real, c4: real, s4: real, p0: Vec, p: Vec)
    requires gamma == q3 + g.d * c4 - g.l1 + g.l3
    requires p0 == Vec(-g.l1 * c1, -g.l1 * s1, g.l2)
    requires p == Add(Scale(q3 + g.l3, Vec(c1, s1, 0.0)), Vec(p0.x, p0.y, p0.z + q2))
    ensures Pose(Vec(c1 * s4, s1 * s4, c4), Vec(s1, -c1, 0.0), Vec(c1 * c4, s1 * c4, -s4),
                 Vec(p.x + g.d * c4 * c1, p.y + g.d * c4 * s1, p.z - g.d * s4))
            == Closed(g, gamma, q2, c1, s1, c4, s4)
  {
    MovedAlong(q3 + g.l3, c1, s1, p0.x, p0.y, p0.z + q2);
    hide Add, Scale;
    assert p.x == (q3 + g.l3) * c1 + -g.l1 * c1 && p.y == (q3 + g.l3) * s1 + -g.l1 * s1 && p.z == g.l2 + q2;
    Factor(g, gamma, q3, c1, c4);
    Factor(g, gamma, q3, s1, c4);
  }

  lemma MovedAlong(k: real, c: real, s: real, x: real, y: real, z: real)
    ensures Add(Scale(k, Vec(c, s, 0.0)), Vec(x, y, z)) == Vec(k * c + x, k * s + y, z)
  {
    ScaleFlat(k, c, s);
    hide Scale;
  }

  lemma ScaleFlat(k: real, c: real, s: real)
    ensures Scale(k, Vec(c, s, 0.0)) == Vec(k * c, k * s, 0.0)
  {
  }

  lemma Factor(g: Geometry, gamma: real, q3: real, k: real, c4: real)
    requires gamma == q3 + g.d * c4 - g.l1 + g.l3
    ensures (q3 + g.l3) * k + -g.l1 * k + g.d * c4 * k == gamma * k
  {
    assert (q3 + g.l3) * k + -g.l1 * k + g.d * c4 * k == (q3 + g.d * c4 - g.l1 + g.l3) * k;
  }
}
