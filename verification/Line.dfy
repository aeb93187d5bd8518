/** Bresenham's line (graphics.c), proved against rounding to the nearest pixel. */
module Line {
  import opened Arith

  datatype Point = Point(x: int, y: int)

  function Abs(a: int): (r: int)
    ensures r >= 0 && (r == a || r == -a)
  {
    if a < 0 then -a else a
  }

  function Sign(from: int, to: int): int {
    if from < to then 1 else -1
  }

  /** `i * m / n` rounded to the nearest integer, halves downwards. */
  function Offset(i: nat, n: nat, m: nat): nat {
    if n == 0 then 0 else (i * m + (n - 1) / 2) / n
  }

  /** Steps along the longer axis, and along the shorter. */
  function Long(a: Point, b: Point): nat {
    if Abs(b.x - a.x) > Abs(b.y - a.y) then Abs(b.x - a.x) else Abs(b.y - a.y)
  }

  function Short(a: Point, b: Point): nat {
    if Abs(b.x - a.x) > Abs(b.y - a.y) then Abs(b.y - a.y) else Abs(b.x - a.x)
  }

  predicate Flat(a: Point, b: Point) {
    Abs(b.x - a.x) > Abs(b.y - a.y)
  }

  /** Pixel `i` of the line from `a` to `b`. */
  function Pixel(a: Point, b: Point, i: nat): Point {
    var j := Offset(i, Long(a, b), Short(a, b));
    if Flat(a, b)
    then Point(a.x + Sign(a.x, b.x) * i, a.y + Sign(a.y, b.y) * j)
    else Point(a.x + Sign(a.x, b.x) * j, a.y + Sign(a.y, b.y) * i)
  }

  // Arithmetic

  /** What the rounding leaves. */
  function Rest(i: nat, n: nat, m: nat): nat
    requires n > 0
  {
    (i * m + (n - 1) / 2) % n
  }

  lemma OffsetStart(n: nat, m: nat)
    ensures Offset(0, n, m) == 0 && (n > 0 ==> Rest(0, n, m) == (n - 1) / 2)
  {
  }

  /** One step on the long axis is one or no step on the short one. */
  lemma OffsetStep(i: nat, n: nat, m: nat)
    requires 0 < n && m <= n
    ensures if Rest(i, n, m) + m >= n
            then Offset(i + 1, n, m) == Offset(i, n, m) + 1 && Rest(i + 1, n, m) == Rest(i, n, m) + m - n
            else Offset(i + 1, n, m) == Offset(i, n, m) && Rest(i + 1, n, m) == Rest(i, n, m) + m
  {
    var a := i * m + (n - 1) / 2;
    var q, r := a / n, a % n;
    assert a == n * q + r;
    assert (i + 1) * m + (n - 1) / 2 == a + m;
    if r + m >= n {
      assert n * (q + 1) == n * q + n;
      DivUnique(a + m, n, q + 1, r + m - n);
    } else {
      DivUnique(a + m, n, q, r + m);
    }
  }

  lemma OffsetEnd(n: nat, m: nat)
    requires m <= n
    ensures Offset(n, n, m) == m
  {
    if n > 0 {
      DivUnique(n * m + (n - 1) / 2, n, m, (n - 1) / 2);
    }
  }

  // The line

  /** The variables of the loop. */
  datatype Cursor = Cursor(x: int, y: int, err: int)

  /** The two tests of the loop. */
  function Turn(c: Cursor, a: Point, b: Point): Cursor {
    var dx, dy := Abs(b.x - a.x), Abs(b.y - a.y);
    Cursor(
      if c.err > -dx then c.x + Sign(a.x, b.x) else c.x,
      if c.err < dy then c.y + Sign(a.y, b.y) else c.y,
      c.err - (if c.err > -dx then dy else 0) + (if c.err < dy then dx else 0))
  }

  /** The variables after `i` turns. */
  function At(a: Point, b: Point, i: nat): Cursor {
    if i == 0 then Cursor(a.x, a.y, if Flat(a, b) then Abs(b.x - a.x) / 2 else -(Abs(b.y - a.y) / 2))
    else Turn(At(a, b, i - 1), a, b)
  }

  /** What the error term stands for. */
  function Err(a: Point, b: Point, i: nat): int {
    var n := Long(a, b);
    if n == 0 then 0
    else if Flat(a, b) then n - 1 - Rest(i, n, Short(a, b))
    else Rest(i, n, Short(a, b)) - (n - 1)
  }

  lemma TurnIs(a: Point, b: Point, i: nat)
    requires Long(a, b) > 0
    ensures Turn(Cursor(Pixel(a, b, i).x, Pixel(a, b, i).y, Err(a, b, i)), a, b)
            == Cursor(Pixel(a, b, i + 1).x, Pixel(a, b, i + 1).y, Err(a, b, i + 1))
  {
    OffsetStep(i, Long(a, b), Short(a, b));
  }

  /** The loop stands on pixel `i` after `i` turns. */
  lemma {:induction false} AtIs(a: Point, b: Point, i: nat)
    requires i <= Long(a, b)
    ensures At(a, b, i) == Cursor(Pixel(a, b, i).x, Pixel(a, b, i).y, Err(a, b, i))
  {
    if i == 0 {
      OffsetStart(Long(a, b), Short(a, b));
    } else {
      AtIs(a, b, i - 1);
      TurnIs(a, b, i - 1);
    }
  }

  /** The loop meets its end point after `Long` turns and not before. */
  lemma AtEnd(a: Point, b: Point, i: nat)
    requires i <= Long(a, b)
    ensures At(a, b, i).x == b.x && At(a, b, i).y == b.y <==> i == Long(a, b)
  {
    AtIs(a, b, i);
    OffsetEnd(Long(a, b), Short(a, b));
    if Flat(a, b) {
      assert Pixel(a, b, i).x == b.x <==> i == Long(a, b);
    } else if Long(a, b) > 0 {
      assert Pixel(a, b, i).y == b.y <==> i == Long(a, b);
    }
  }

  /** The pixels `0` to `Long`. */
  function Line(a: Point, b: Point): seq<Point> {
    Upto(a, b, Long(a, b) + 1)
  }

  function Upto(a: Point, b: Point, k: nat): seq<Point> {
    if k == 0 then [] else Upto(a, b, k - 1) + [Pixel(a, b, k - 1)]
  }

  /** Where the loop stands in its first `k` turns. */
  function Walked(a: Point, b: Point, k: nat): seq<Point> {
    if k == 0 then [] else Walked(a, b, k - 1) + [Point(At(a, b, k - 1).x, At(a, b, k - 1).y)]
  }

  lemma {:induction false} WalkedIs(a: Point, b: Point, k: nat)
    requires k <= Long(a, b) + 1
    ensures Walked(a, b, k) == Upto(a, b, k)
  {
    if k > 0 {
      WalkedIs(a, b, k - 1);
      AtIs(a, b, k - 1);
    }
  }

  /** Stopping at the end point means painting the whole line. */
  lemma WalkedAll(a: Point, b: Point)
    ensures Walked(a, b, Long(a, b)) + [b] == Line(a, b)
  {
    WalkedIs(a, b, Long(a, b) + 1);
    AtEnd(a, b, Long(a, b));
  }

  lemma {:induction false} UptoAt(a: Point, b: Point, k: nat)
    ensures |Upto(a, b, k)| == k && forall i :: 0 <= i < k ==> Upto(a, b, k)[i] == Pixel(a, b, i)
  {
    if k > 0 {
      UptoAt(a, b, k - 1);
    }
  }

  /** draw_line: the pixels in the order in which they are painted. */
  method DrawLine(a: Point, b: Point) returns (pixels: seq<Point>)
    ensures pixels == Line(a, b)
  {
    var x0, y0 := a.x, a.y;
    var dx, sx := Abs(b.x - x0), if x0 < b.x then 1 else -1;
    var dy, sy := Abs(b.y - y0), if y0 < b.y then 1 else -1;
    var err: int := if dx > dy then dx / 2 else -(dy / 2);   // C truncates towards 0
    pixels := [];
    ghost var i := 0;
    while true
      invariant i <= Long(a, b) && pixels == Walked(a, b, i)
      invariant Cursor(x0, y0, err) == At(a, b, i)
      decreases Long(a, b) - i
    {
      AtEnd(a, b, i);
      pixels := pixels + [Point(x0, y0)];   // paint_pixel
      if x0 == b.x && y0 == b.y {
        break;
      }
      var e2 := err;
      if e2 > -dx {
        err := err - dy;
        x0 := x0 + sx;
      }
      if e2 < dy {
        err := err + dx;
        y0 := y0 + sy;
      }
      i := i + 1;
    }
    WalkedAll(a, b);
  }

  // What the pixels are

  /** How far pixel `i` is off the true line, times the longer axis. */
  function Deviation(i: nat, j: int, n: nat, m: nat): int {
    i * m - j * n
  }

  /** Every pixel is within half a pixel of the true line. */
  lemma HalfPixel(i: nat, n: nat, m: nat)
    requires n > 0
    ensures 2 * Abs(Deviation(i, Offset(i, n, m), n, m)) <= n
  {
  }

  /** No other pixel in the same column (or row) is nearer to the true line. */
  lemma Nearest(i: nat, n: nat, m: nat, j: int)
    requires n > 0
    ensures Abs(Deviation(i, Offset(i, n, m), n, m)) <= Abs(Deviation(i, j, n, m))
  {
    HalfPixel(i, n, m);
    Further(Deviation(i, Offset(i, n, m), n, m), n, Offset(i, n, m) - j);
    assert Deviation(i, j, n, m) == Deviation(i, Offset(i, n, m), n, m) + n * (Offset(i, n, m) - j);
  }

  lemma Further(d: int, n: nat, k: int)
    requires 2 * Abs(d) <= n
    ensures Abs(d) <= Abs(d + n * k)
  {
    if k > 0 {
      MulMono(n, 1, k);
    } else if k < 0 {
      MulMono(n, k, -1);
    }
  }

  /** The line goes from end to end, one pixel at a time on the longer axis and at most one
      on the other, and always stays within half a pixel of the true line. */
  lemma LineShape(a: Point, b: Point)
    ensures Pixel(a, b, 0) == a && Pixel(a, b, Long(a, b)) == b
    ensures forall i: nat :: i < Long(a, b) ==>
      var p, q := Pixel(a, b, i), Pixel(a, b, i + 1);
      && Abs(q.x - p.x) <= 1 && Abs(q.y - p.y) <= 1
      && (if Flat(a, b) then q.x - p.x == Sign(a.x, b.x) else q.y - p.y == Sign(a.y, b.y))
    ensures forall i: nat :: i <= Long(a, b) ==>
      var p := Pixel(a, b, i);
      2 * Abs((p.x - a.x) * (b.y - a.y) - (p.y - a.y) * (b.x - a.x)) <= Long(a, b)
  {
    OffsetStart(Long(a, b), Short(a, b));
    OffsetEnd(Long(a, b), Short(a, b));
    forall i: nat | i < Long(a, b)
      ensures var p, q := Pixel(a, b, i), Pixel(a, b, i + 1);
        && Abs(q.x - p.x) <= 1 && Abs(q.y - p.y) <= 1
        && (if Flat(a, b) then q.x - p.x == Sign(a.x, b.x) else q.y - p.y == Sign(a.y, b.y))
    {
      OffsetStep(i, Long(a, b), Short(a, b));
    }
    forall i: nat | i <= Long(a, b)
      ensures var p := Pixel(a, b, i);
        2 * Abs((p.x - a.x) * (b.y - a.y) - (p.y - a.y) * (b.x - a.x)) <= Long(a, b)
    {
      CrossProduct(a, b, i);
    }
  }

  lemma CrossProduct(a: Point, b: Point, i: nat)
    ensures var p := Pixel(a, b, i);
      2 * Abs((p.x - a.x) * (b.y - a.y) - (p.y - a.y) * (b.x - a.x)) <= Long(a, b)
  {
    var n, m, p := Long(a, b), Short(a, b), Pixel(a, b, i);
    var j := Offset(i, n, m);
    if n > 0 {
      HalfPixel(i, n, m);
      var s, t := Sign(a.x, b.x), Sign(a.y, b.y);
      assert b.x - a.x == s * Abs(b.x - a.x) && b.y - a.y == t * Abs(b.y - a.y);
      if Flat(a, b) {
        Signs(s, t, i, m, j, n);
      } else {
        Signs(t, s, i, m, j, n);
      }
    }
  }

  lemma Signs(s: int, t: int, i: nat, m: nat, j: nat, n: nat)
    requires (s == 1 || s == -1) && (t == 1 || t == -1)
    ensures (s * i) * (t * m) - (t * j) * (s * n) == s * t * (i * m - j * n)
    ensures Abs((s * i) * (t * m) - (t * j) * (s * n)) == Abs(i * m - j * n)
  {
  }
}
