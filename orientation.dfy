/** The winding test fix_orientation and the wall quad create_side_face of
    utils/utils_geometry.py. */
module Orientation {
  import opened Common

  // ------------------------------------------------------------- the edge sum

  /** The contribution `(x2 - x1) * (y2 + y1)` of the edge from `a` to `b`. */
  function EdgeTerm(a: Point, b: Point): real
  {
    (b.x - a.x) * (b.y + a.y)
  }

  /** EdgeTerm summed over the consecutive pairs of an open chain. */
  function ChainSum(s: seq<Point>): real
  {
    if |s| < 2 then 0.0 else ChainSum(s[..|s| - 1]) + EdgeTerm(s[|s| - 2], s[|s| - 1])
  }

  /** The sum fix_orientation accumulates: every edge of the closed ring, the last point
      joined back to the first. */
  function EdgeSum(ring: seq<Point>): real
  {
    if ring == [] then 0.0 else ChainSum(ring) + EdgeTerm(Last(ring), ring[0])
  }

  // ---------------------------------------------------- the shoelace reference

  function Cross(a: Point, b: Point): real
  {
    a.x * b.y - b.x * a.y
  }

  function ChainCross(s: seq<Point>): real
  {
    if |s| < 2 then 0.0 else ChainCross(s[..|s| - 1]) + Cross(s[|s| - 2], s[|s| - 1])
  }

  /** Twice the signed area of the ring by the shoelace formula: positive when the ring runs
      counter-clockwise. */
  function TwiceSignedArea(ring: seq<Point>): real
  {
    if ring == [] then 0.0 else ChainCross(ring) + Cross(Last(ring), ring[0])
  }

  function XY(p: Point): real
  {
    p.x * p.y
  }

  lemma EdgeTermSplit(a: Point, b: Point)
    ensures EdgeTerm(a, b) == XY(b) - XY(a) - Cross(a, b)
  {
    calc {
      EdgeTerm(a, b);
      (b.x - a.x) * (b.y + a.y);
      b.x * b.y + b.x * a.y - a.x * b.y - a.x * a.y;
    }
  }

  lemma EdgeTermAntisymmetric(a: Point, b: Point)
    ensures EdgeTerm(b, a) == -EdgeTerm(a, b)
  {
    EdgeTermSplit(a, b);
    EdgeTermSplit(b, a);
  }

  /** Along an open chain the squares telescope, leaving the shoelace cross terms. */
  lemma {:induction false} ChainSumTelescopes(s: seq<Point>)
    requires |s| >= 1
    ensures ChainSum(s) == XY(Last(s)) - XY(s[0]) - ChainCross(s)
  {
    if |s| >= 2 {
      var init := s[..|s| - 1];
      ChainSumTelescopes(init);
      EdgeTermSplit(s[|s| - 2], s[|s| - 1]);
      assert Last(init) == s[|s| - 2] && init[0] == s[0];
    }
  }

  /** The edge sum is minus twice the signed area, so the rings fix_orientation reverses are
      exactly the counter-clockwise ones. */
  lemma EdgeSumIsMinusTwiceArea(ring: seq<Point>)
    ensures EdgeSum(ring) == -TwiceSignedArea(ring)
  {
    if ring != [] {
      ChainSumTelescopes(ring);
      EdgeTermSplit(Last(ring), ring[0]);
    }
  }

  lemma {:induction false} ChainSumCons(s: seq<Point>)
    requires |s| >= 2
    ensures ChainSum(s) == EdgeTerm(s[0], s[1]) + ChainSum(s[1..])
  {
    if |s| > 2 {
      var init := s[..|s| - 1];
      ChainSumCons(init);
      assert init[1..] == s[1..][..|s| - 2];
      assert s[1..][|s| - 3] == s[|s| - 2] && s[1..][|s| - 2] == s[|s| - 1];
    } else {
      assert s[..1][..0] == [];
    }
  }

  lemma {:induction false} ChainSumReversed(s: seq<Point>)
    ensures ChainSum(Reversed(s)) == -ChainSum(s)
  {
    if |s| >= 2 {
      var r := Reversed(s);
      ChainSumReversed(s[1..]);
      assert r[..|r| - 1] == Reversed(s[1..]);
      assert r[|r| - 2] == s[1] && r[|r| - 1] == s[0];
      EdgeTermAntisymmetric(s[0], s[1]);
      ChainSumCons(s);
    }
  }

  /** Reversing the ring negates the edge sum. */
  lemma EdgeSumReversed(ring: seq<Point>)
    ensures EdgeSum(Reversed(ring)) == -EdgeSum(ring)
  {
    if ring != [] {
      ChainSumReversed(ring);
      EdgeTermAntisymmetric(Last(ring), ring[0]);
    }
  }

  /** Starting the ring at its second point leaves the edge sum unchanged. */
  lemma EdgeSumRotated(ring: seq<Point>)
    requires |ring| >= 1
    ensures EdgeSum(ring[1..] + [ring[0]]) == EdgeSum(ring)
  {
    if |ring| >= 2 {
      var rot := ring[1..] + [ring[0]];
      assert rot[..|rot| - 1] == ring[1..];
      assert rot[|rot| - 2] == Last(ring) && Last(rot) == ring[0] && rot[0] == ring[1];
      ChainSumCons(ring);
    } else {
      assert ring[1..] + [ring[0]] == ring;
    }
  }

  /** Starting the ring at any of its points leaves the edge sum unchanged. */
  lemma {:induction false} EdgeSumRotatedBy(ring: seq<Point>, k: nat)
    requires k <= |ring|
    ensures EdgeSum(ring[k..] + ring[..k]) == EdgeSum(ring)
    decreases k
  {
    if k == 0 {
      assert ring[0..] + ring[..0] == ring;
    } else {
      EdgeSumRotatedBy(ring, k - 1);
      var rot := ring[k - 1..] + ring[..k - 1];
      EdgeSumRotated(rot);
      assert rot[0] == ring[k - 1] && rot[1..] == ring[k..] + ring[..k - 1];
      assert ring[..k - 1] + [ring[k - 1]] == ring[..k];
      assert rot[1..] + [rot[0]] == ring[k..] + ring[..k];
    }
  }

  // ------------------------------------------------------------ fix_orientation

  /** `list.reverse()` on the index list the caller passes in. */
  method ReverseInPlace<T>(a: array<T>)
    modifies a
    ensures a[..] == Reversed(old(a[..]))
  {
    var n := a.Length;
    for i := 0 to n / 2
      invariant forall k :: 0 <= k < i ==> a[k] == old(a[n - 1 - k]) && a[n - 1 - k] == old(a[k])
      invariant forall k :: i <= k < n - i ==> a[k] == old(a[k])
    {
      a[i], a[n - 1 - i] := a[n - 1 - i], a[i];
    }
  }

  /** The sum after the first `k` rounds of the loop. */
  function PartialEdgeSum(border: seq<Point>, k: nat): real
    requires k <= |border|
  {
    if k < |border| then ChainSum(border[..k + 1]) else EdgeSum(border)
  }

  /** fix_orientation (utils/utils_geometry.py:8-23) with its default `coef = 1`: the flag
      says the ring is not counter-clockwise, and the caller's index list is reversed in
      place exactly when it is. */
  method FixOrientation<T>(border: seq<Point>, indices: array<T>) returns (clockwise: bool)
    modifies indices
    ensures clockwise <==> EdgeSum(border) >= 0.0
    ensures clockwise <==> TwiceSignedArea(border) <= 0.0
    ensures indices[..] == if clockwise then old(indices[..]) else Reversed(old(indices[..]))
  {
    var sum := 0.0;
    var n := |border|;
    for k := 0 to n
      invariant sum == PartialEdgeSum(border, k)
    {
      var index := k + 1;
      if k == n - 1 {
        index := 0;
      }
      var pt := border[k];
      var pt2 := border[index];
      if k < n - 1 {
        assert border[..k + 2][..k + 1] == border[..k + 1];
      } else {
        assert border[..k + 1] == border;
      }
      sum := sum + (pt2.x - pt.x) * (pt2.y + pt.y);
    }
    EdgeSumIsMinusTwiceArea(border);
    clockwise := true;
    if sum < 0.0 {
      ReverseInPlace(indices);
      clockwise := false;
    }
  }

  // ----------------------------------------------------------- create_side_face

  datatype Vertex = Vertex(x: real, y: real, z: real)

  /** The flat [x, y, z, x, y, z, ...] list a mesh stores its vertices in. */
  function Flatten(vs: seq<Vertex>): (r: seq<real>)
    ensures |r| == 3 * |vs|
  {
    if vs == [] then [] else [vs[0].x, vs[0].y, vs[0].z] + Flatten(vs[1..])
  }

  /** Reads a flat list back as vertices. */
  function Triples(flat: seq<real>): seq<Vertex>
    requires |flat| % 3 == 0
  {
    if flat == [] then [] else [Vertex(flat[0], flat[1], flat[2])] + Triples(flat[3..])
  }

  lemma {:induction false} TriplesOfFlatten(vs: seq<Vertex>)
    ensures Triples(Flatten(vs)) == vs
  {
    if vs != [] {
      TriplesOfFlatten(vs[1..]);
      assert Flatten(vs)[3..] == Flatten(vs[1..]);
    }
  }

  lemma {:induction false} FlattenOfTriples(flat: seq<real>)
    requires |flat| % 3 == 0
    ensures Flatten(Triples(flat)) == flat
  {
    if flat != [] {
      FlattenOfTriples(flat[3..]);
      assert Triples(flat)[1..] == Triples(flat[3..]);
    }
  }

  /** Python's `s[i]`, negative indices counting from the end. */
  function PyAt<T>(s: seq<T>, i: int): T
    requires -|s| <= i < |s|
  {
    if i < 0 then s[i + |s|] else s[i]
  }

  /** create_side_face (utils/utils_geometry.py:26-42): a vertical quad over the edge from
      `coords[i]` to `next`, bottom edge first, then back along the top. */
  function SideFace(coords: seq<Point>, i: int, next: Point, height: real): (r: seq<real>)
    requires -|coords| <= i < |coords|
    ensures |r| == 12
    ensures var p := PyAt(coords, i);
      Triples(r) == [Vertex(p.x, p.y, 0.0), Vertex(next.x, next.y, 0.0),
                     Vertex(next.x, next.y, height), Vertex(p.x, p.y, height)]
  {
    var p := PyAt(coords, i);
    var r := [p.x, p.y, 0.0, next.x, next.y, 0.0, next.x, next.y, height, p.x, p.y, height];
    var quad := [Vertex(p.x, p.y, 0.0), Vertex(next.x, next.y, 0.0),
                 Vertex(next.x, next.y, height), Vertex(p.x, p.y, height)];
    assert Flatten(quad[3..]) == r[9..];
    assert Flatten(quad[2..]) == r[6..];
    assert Flatten(quad[1..]) == r[3..];
    TriplesOfFlatten(quad);
    r
  }
}
