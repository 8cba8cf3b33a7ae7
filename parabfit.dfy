/**
 * The least-squares parabola of service/ParabFit.cc. accum adds one point
 * (x, y) to the power sums xx[p] = sum x^p (p = 0..4) and
 * xy[p] = sum y x^p (p = 0..2); finalize solves the 3x3 normal equations
 * for y = a + b x + c x^2 by cofactors and accepts the fit only when it
 * opens downwards (c < 0). The accessors give the vertex of the parabola.
 */
module ParabFit {
  import opened Averaging

  /** One accumulated sample. */
  datatype Point = Point(x: int, y: real)

  /** The coefficients of a + b x + c x^2. */
  datatype Coeffs = Coeffs(a: real, b: real, c: real)

  /**
   * The eight sums of the class: xx[p] = sum of x^p for p = 0..4 and
   * xy[p] = sum of y x^p for p = 0..2.
   */
  datatype Sums = Sums(x0: real, x1: real, x2: real, x3: real, x4: real, y0: real, y1: real, y2: real)

  const NoSums: Sums := Sums(0.0, 0.0, 0.0, 0.0, 0.0, 0.0, 0.0, 0.0)

  /** One accum: the powers of x and the products with y join the sums. */
  function Add(s: Sums, x: real, y: real): Sums
  {
    var q2 := x * x;
    var q3 := q2 * x;
    var yx := y * x;
    Sums(s.x0 + 1.0, s.x1 + x, s.x2 + q2, s.x3 + q3, s.x4 + q3 * x, s.y0 + y, s.y1 + yx, s.y2 + yx * x)
  }

  /** The sums after a fresh fit has accumulated the points in order. */
  function SumsOf(pts: seq<Point>): Sums
  {
    if pts == [] then NoSums
    else
      var q := pts[|pts| - 1];
      Add(SumsOf(pts[..|pts| - 1]), q.x as real, q.y)
  }

  function Cof11(s: Sums): real { s.x2 * s.x4 - s.x3 * s.x3 }
  function Cof21(s: Sums): real { s.x1 * s.x4 - s.x3 * s.x2 }
  function Cof31(s: Sums): real { s.x1 * s.x3 - s.x2 * s.x2 }
  function Cof22(s: Sums): real { s.x0 * s.x4 - s.x2 * s.x2 }
  function Cof32(s: Sums): real { s.x0 * s.x3 - s.x1 * s.x2 }
  function Cof33(s: Sums): real { s.x0 * s.x2 - s.x1 * s.x1 }

  /** The determinant of the normal matrix, expanded along its first column as finalize does. */
  function Det(s: Sums): real
  {
    s.x0 * Cof11(s) - s.x1 * Cof21(s) + s.x2 * Cof31(s)
  }

  /** The cofactor solution of finalize. */
  function Solve(s: Sums): Coeffs
    requires Det(s) != 0.0
  {
    Coeffs((Cof11(s) * s.y0 - Cof21(s) * s.y1 + Cof31(s) * s.y2) / Det(s),
           (-Cof21(s) * s.y0 + Cof22(s) * s.y1 - Cof32(s) * s.y2) / Det(s),
           (Cof31(s) * s.y0 - Cof32(s) * s.y1 + Cof33(s) * s.y2) / Det(s))
  }

  function Eval(k: Coeffs, x: real): real
  {
    k.a + k.b * x + k.c * x * x
  }

  /** position(): -b / (2c) */
  function Vertex(k: Coeffs): real
    requires k.c != 0.0
  {
    -0.5 * k.b / k.c
  }

  /** amplitude(): a - b^2 / (4c) */
  function Peak(k: Coeffs): real
    requires k.c != 0.0
  {
    k.a - 0.25 * k.b * k.b / k.c
  }

  /** After n accums the count sum xx[0] is n. */
  lemma {:induction false} CountSum(pts: seq<Point>)
    ensures SumsOf(pts).x0 == |pts| as real
  {
    if pts != [] {
      CountSum(pts[..|pts| - 1]);
    }
  }

  /** The right-hand sums are linear in the samples: a point on the parabola adds M k. */
  predicate OnRows(s: Sums, k: Coeffs)
  {
    && s.y0 == Dot(k, s.x0, s.x1, s.x2)
    && s.y1 == Dot(k, s.x1, s.x2, s.x3)
    && s.y2 == Dot(k, s.x2, s.x3, s.x4)
  }

  /** One row of the normal matrix, (u, v, w), against the coefficients. */
  function Dot(k: Coeffs, u: real, v: real, w: real): real
  {
    k.a * u + k.b * v + k.c * w
  }

  lemma AddOnRows(s: Sums, k: Coeffs, x: real)
    requires OnRows(s, k)
    ensures OnRows(Add(s, x, Eval(k, x)), k)
  {
    PowerRows(k, x);
    AddRows(s, k, x, Eval(k, x));
  }

  /** A point whose y times 1, x and x^2 are rows of the powers of x keeps OnRows. */
  lemma AddRows(s: Sums, k: Coeffs, x: real, y: real)
    requires OnRows(s, k)
    requires y == Dot(k, 1.0, x, x * x)
    requires y * x == Dot(k, x, x * x, (x * x) * x)
    requires (y * x) * x == Dot(k, x * x, (x * x) * x, ((x * x) * x) * x)
    ensures OnRows(Add(s, x, y), k)
  {
    var t := Add(s, x, y);
    assert t.y0 == Dot(k, t.x0, t.x1, t.x2) by {
      RowStep(s.y0, s.x0, s.x1, s.x2, k, 1.0, x, x * x, y, t.y0, t.x0, t.x1, t.x2);
    }
    assert t.y1 == Dot(k, t.x1, t.x2, t.x3) by {
      RowStep(s.y1, s.x1, s.x2, s.x3, k, x, x * x, (x * x) * x, y * x, t.y1, t.x1, t.x2, t.x3);
    }
    assert t.y2 == Dot(k, t.x2, t.x3, t.x4) by {
      RowStep(s.y2, s.x2, s.x3, s.x4, k, x * x, (x * x) * x, ((x * x) * x) * x, (y * x) * x,
              t.y2, t.x2, t.x3, t.x4);
    }
  }

  /** The parabola's value at x, times 1, x and x^2, as rows of the powers of x. */
  lemma PowerRows(k: Coeffs, x: real)
    ensures Eval(k, x) == Dot(k, 1.0, x, x * x)
    ensures Eval(k, x) * x == Dot(k, x, x * x, (x * x) * x)
    ensures (Eval(k, x) * x) * x == Dot(k, x * x, (x * x) * x, ((x * x) * x) * x)
  {
    assert Eval(k, x) * x == Dot(k, x, x * x, (x * x) * x);
  }

  /** One row of OnRows is kept when the added terms satisfy it too. */
  lemma RowStep(y: real, u: real, v: real, w: real, k: Coeffs, du: real, dv: real, dw: real, dy: real,
                 y': real, u': real, v': real, w': real)
    requires y == Dot(k, u, v, w)
    requires dy == Dot(k, du, dv, dw)
    requires y' == y + dy && u' == u + du && v' == v + dv && w' == w + dw
    ensures y' == Dot(k, u', v', w')
  {
  }

  /** Points on a + b x + c x^2 give sums with xy = M (a, b, c). */
  lemma {:induction false} OnParabolaSums(pts: seq<Point>, k: Coeffs)
    requires forall i :: 0 <= i < |pts| ==> pts[i].y == Eval(k, pts[i].x as real)
    ensures OnRows(SumsOf(pts), k)
  {
    if pts != [] {
      OnParabolaSums(pts[..|pts| - 1], k);
      AddOnRows(SumsOf(pts[..|pts| - 1]), k, pts[|pts| - 1].x as real);
    }
  }

  /** Each cofactor row against a column of the normal matrix gives det on the diagonal and 0 elsewhere. */
  lemma CofactorRowA(s: Sums)
    ensures Cof11(s) * s.x0 - Cof21(s) * s.x1 + Cof31(s) * s.x2 == Det(s)
    ensures Cof11(s) * s.x1 - Cof21(s) * s.x2 + Cof31(s) * s.x3 == 0.0
    ensures Cof11(s) * s.x2 - Cof21(s) * s.x3 + Cof31(s) * s.x4 == 0.0
  {
  }

  lemma CofactorRowB(s: Sums)
    ensures -Cof21(s) * s.x0 + Cof22(s) * s.x1 - Cof32(s) * s.x2 == 0.0
    ensures -Cof21(s) * s.x1 + Cof22(s) * s.x2 - Cof32(s) * s.x3 == Det(s)
    ensures -Cof21(s) * s.x2 + Cof22(s) * s.x3 - Cof32(s) * s.x4 == 0.0
  {
  }

  lemma CofactorRowC(s: Sums)
    ensures Cof31(s) * s.x0 - Cof32(s) * s.x1 + Cof33(s) * s.x2 == 0.0
    ensures Cof31(s) * s.x1 - Cof32(s) * s.x2 + Cof33(s) * s.x3 == 0.0
    ensures Cof31(s) * s.x2 - Cof32(s) * s.x3 + Cof33(s) * s.x4 == Det(s)
  {
  }

  /** A cofactor row (u, v, w) applied to xy = M k is the combination of the row's products with the columns of M. */
  lemma CramerRow(s: Sums, k: Coeffs, u: real, v: real, w: real)
    requires OnRows(s, k)
    ensures u * s.y0 + v * s.y1 + w * s.y2
         == k.a * (u * s.x0 + v * s.x1 + w * s.x2)
          + k.b * (u * s.x1 + v * s.x2 + w * s.x3)
          + k.c * (u * s.x2 + v * s.x3 + w * s.x4)
  {
  }

  /** n / d == a when n == a d and d != 0. */
  lemma Quotient(n: real, d: real, a: real)
    requires d != 0.0 && n == a * d
    ensures n / d == a
  {
  }

  /** Each cofactor row, divided by det, recovers one coefficient when xy = M k. */
  lemma SolveA(s: Sums, k: Coeffs)
    requires OnRows(s, k) && Det(s) != 0.0
    ensures Solve(s).a == k.a
  {
    CofactorRowA(s);
    CramerRow(s, k, Cof11(s), -Cof21(s), Cof31(s));
    Quotient(Cof11(s) * s.y0 - Cof21(s) * s.y1 + Cof31(s) * s.y2, Det(s), k.a);
  }

  lemma SolveB(s: Sums, k: Coeffs)
    requires OnRows(s, k) && Det(s) != 0.0
    ensures Solve(s).b == k.b
  {
    CofactorRowB(s);
    CramerRow(s, k, -Cof21(s), Cof22(s), -Cof32(s));
    Quotient(-Cof21(s) * s.y0 + Cof22(s) * s.y1 - Cof32(s) * s.y2, Det(s), k.b);
  }

  lemma SolveC(s: Sums, k: Coeffs)
    requires OnRows(s, k) && Det(s) != 0.0
    ensures Solve(s).c == k.c
  {
    CofactorRowC(s);
    CramerRow(s, k, Cof31(s), -Cof32(s), Cof33(s));
    Quotient(Cof31(s) * s.y0 - Cof32(s) * s.y1 + Cof33(s) * s.y2, Det(s), k.c);
  }

  /**
   * Exactness: when every point lies on a + b x + c x^2 and the normal
   * matrix is regular, finalize's cofactor solve returns exactly (a, b, c).
   */
  lemma ExactParabola(pts: seq<Point>, k: Coeffs)
    requires forall i :: 0 <= i < |pts| ==> pts[i].y == Eval(k, pts[i].x as real)
    requires Det(SumsOf(pts)) != 0.0
    ensures Solve(SumsOf(pts)) == k
  {
    OnParabolaSums(pts, k);
    SolveA(SumsOf(pts), k);
    SolveB(SumsOf(pts), k);
    SolveC(SumsOf(pts), k);
  }

  /**
   * The accessors describe the vertex: the slope vanishes at position(),
   * amplitude() is the parabola's value there, and for a valid fit
   * (c < 0) no other x gives a larger value.
   */
  lemma VertexIsMaximum(k: Coeffs, x: real)
    requires k.c != 0.0
    ensures k.b + 2.0 * k.c * Vertex(k) == 0.0
    ensures Eval(k, Vertex(k)) == Peak(k)
    ensures k.c < 0.0 ==> Eval(k, x) <= Peak(k)
  {
    var v := Vertex(k);
    assert v * k.c == -0.5 * k.b;
    var h := 0.25 * k.b * k.b / k.c;
    assert h * k.c == 0.25 * k.b * k.b;
    assert k.c * (v * v) == -0.5 * k.b * v;
    assert (-0.5 * k.b * v) * k.c == -0.5 * k.b * (v * k.c);
    assert Eval(k, x) - Peak(k) == k.c * ((x - v) * (x - v)) by {
      assert k.c * ((x - v) * (x - v)) == k.c * x * x - 2.0 * (k.c * v) * x + k.c * (v * v);
      assert (k.c * (v * v)) * k.c == 0.25 * k.b * k.b;
      assert k.c * (v * v) == h;
    }
    if k.c < 0.0 {
      MulNonneg(-k.c, (x - v) * (x - v));
    }
  }

  class ParabFit {
    const xx: array<real>
    const xy: array<real>
    /** The points accumulated so far; the sums are a function of them. */
    ghost var points: seq<Point>
    var valid: bool
    var a: real
    var b: real
    var c: real

    ghost predicate Valid()
      reads this, xx, xy
    {
      && xx.Length == 5 && xy.Length == 3
      && var s := SumsOf(points);
      && xx[..] == [s.x0, s.x1, s.x2, s.x3, s.x4]
      && xy[..] == [s.y0, s.y1, s.y2]
    }

    /** The sums as one value. */
    function Current(): Sums
      reads this, xx, xy
      requires xx.Length == 5 && xy.Length == 3
    {
      Sums(xx[0], xx[1], xx[2], xx[3], xx[4], xy[0], xy[1], xy[2])
    }

    function Fitted(): Coeffs
      reads this
    {
      Coeffs(a, b, c)
    }

    /** The arrays hold the sums of the accumulated points. */
    lemma CurrentIsSums()
      requires Valid()
      ensures Current() == SumsOf(points)
    {
    }

    /** A new fit: all eight sums zero. */
    constructor ()
      ensures Valid() && points == [] && fresh(xx) && fresh(xy)
    {
      points := [];
      xx := new real[5] [0.0, 0.0, 0.0, 0.0, 0.0];
      xy := new real[3] [0.0, 0.0, 0.0];
    }

    /** accum: the point (ix, y) joins the sums; the last solution is kept. */
    method Accum(ix: int, y: real)
      requires Valid()
      modifies xx, xy, this`points
      ensures Valid() && points == old(points) + [Point(ix, y)]
    {
      var n := Add(Current(), ix as real, y);
      xx[0], xx[1], xx[2], xx[3], xx[4] := n.x0, n.x1, n.x2, n.x3, n.x4;
      xy[0], xy[1], xy[2] := n.y0, n.y1, n.y2;
      points := points + [Point(ix, y)];
      assert points[..|points| - 1] == old(points);
      assert xx[..] == [n.x0, n.x1, n.x2, n.x3, n.x4];
      assert xy[..] == [n.y0, n.y1, n.y2];
    }

    /**
     * finalize: a singular matrix leaves the fit invalid and the old
     * coefficients in place; otherwise the cofactor solution is stored
     * and the fit is valid iff it opens downwards.
     */
    method Finalize()
      requires xx.Length == 5 && xy.Length == 3
      modifies this`valid, this`a, this`b, this`c
      ensures Det(Current()) == 0.0 ==> !valid && Fitted() == old(Fitted())
      ensures Det(Current()) != 0.0 ==> Fitted() == Solve(Current()) && (valid <==> c < 0.0)
    {
      var m := Current();
      valid := false;
      var det := Det(m);
      if det == 0.0 {
        return;
      }
      var k := Solve(m);
      a, b, c := k.a, k.b, k.c;
      if c < 0.0 {
        valid := true;
      }
    }

    /** amplitude(): the height of the vertex (see VertexIsMaximum). */
    function Amplitude(): real
      reads this
      requires c != 0.0
    {
      Peak(Fitted())
    }

    /** position(): the abscissa of the vertex (see VertexIsMaximum). */
    function Position(): real
      reads this
      requires c != 0.0
    {
      Vertex(Fitted())
    }
  }
}
