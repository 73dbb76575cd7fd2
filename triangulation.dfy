/** The bookkeeping of to_triangles (utils/utils_geometry.py:45-143): dropping vertices
    that round alike, interning triangle corners into one vertex pool, and the retry with
    coarser rounding. The polygon, Voronoi and Delaunay work in between is a parameter. */
module Triangulation {
  import opened Common

  /** Python's `round(value, digits)`; how floats round is not modelled. */
  type Rounding = (real, int) -> real

  /** The shapely/geovoronoi step (utils/utils_geometry.py:81-113): given the exterior ring
      and the holes, the triangles found inside the polygon, each as its closed ring of
      corner points, or None when it raises. */
  type Triangulator = (seq<Point>, seq<seq<Point>>) -> Option<seq<seq<Point>>>

  function RoundPoint(v: Point, digits: int, round: Rounding): Point
  {
    Point(round(v.x, digits), round(v.y, digits))
  }

  function RoundAll(s: seq<Point>, digits: int, round: Rounding): (r: seq<Point>)
    ensures |r| == |s|
    ensures forall k :: 0 <= k < |s| ==> r[k] == RoundPoint(s[k], digits, round)
  {
    if s == [] then [] else [RoundPoint(s[0], digits, round)] + RoundAll(s[1..], digits, round)
  }

  lemma RoundAllCons(v: Point, s: seq<Point>, digits: int, round: Rounding)
    ensures RoundAll([v] + s, digits, round) == [RoundPoint(v, digits, round)] + RoundAll(s, digits, round)
  {
    assert ([v] + s)[1..] == s;
  }

  // ------------------------------------------------------------ vertex dedup

  /** The vertices a ring keeps, and the list of rounded pairs afterwards. */
  datatype Dedup = Dedup(kept: seq<Point>, seen: seq<Point>)

  /** One ring's pass of lines 53-60 (outer ring) or 66-76 (one hole), starting from the
      rounded pairs `seen` recorded so far. The source's `v not in vert` / `v not in holes`
      test compares a dictionary against tuples and lists, so it always holds and is left
      out; the last vertex is kept unconditionally and not recorded. */
  function DedupRing(ring: seq<Point>, digits: int, round: Rounding, seen: seq<Point>): Dedup
    decreases |ring|
  {
    if |ring| == 0 then Dedup([], seen)
    else if |ring| == 1 then Dedup([ring[0]], seen)
    else
      var rounded := RoundPoint(ring[0], digits, round);
      if rounded in seen then DedupRing(ring[1..], digits, round, seen)
      else
        var d := DedupRing(ring[1..], digits, round, seen + [rounded]);
        Dedup([ring[0]] + d.kept, d.seen)
  }

  /** What a ring keeps: its last vertex always, and the others in their order. */
  lemma {:induction false} DedupRingKept(ring: seq<Point>, digits: int, round: Rounding, seen: seq<Point>)
    ensures var d := DedupRing(ring, digits, round, seen);
      (d.kept == [] <==> ring == []) &&
      (ring != [] ==> Last(d.kept) == Last(ring)) &&
      IsSubseq(d.kept, ring)
    decreases |ring|
  {
    if |ring| >= 2 {
      var rounded := RoundPoint(ring[0], digits, round);
      var rest := ring[1..];
      assert [ring[0]] + rest == ring;
      if rounded in seen {
        DedupRingKept(rest, digits, round, seen);
        SubseqCons(DedupRing(rest, digits, round, seen).kept, rest, ring[0]);
      } else {
        DedupRingKept(rest, digits, round, seen + [rounded]);
        var d := DedupRing(ring, digits, round, seen);
        assert d.kept[0] == ring[0] && d.kept[1..] == DedupRing(rest, digits, round, seen + [rounded]).kept;
      }
    }
  }

  /** The rounded pair of every kept vertex but the last is recorded, in order. */
  lemma {:induction false} DedupRingRecords(ring: seq<Point>, digits: int, round: Rounding, seen: seq<Point>)
    ensures var d := DedupRing(ring, digits, round, seen);
      d.seen == seen + RoundAll(DropLast(d.kept), digits, round)
    decreases |ring|
  {
    var d := DedupRing(ring, digits, round, seen);
    if |ring| == 1 {
      assert DropLast(d.kept) == [];
    } else if |ring| >= 2 {
      var rounded := RoundPoint(ring[0], digits, round);
      var rest := ring[1..];
      if rounded in seen {
        DedupRingRecords(rest, digits, round, seen);
      } else {
        DedupRingKept(rest, digits, round, seen + [rounded]);
        DedupRingRecords(rest, digits, round, seen + [rounded]);
        var e := DedupRing(rest, digits, round, seen + [rounded]);
        assert d.kept == [ring[0]] + e.kept && d.seen == e.seen;
        assert DropLast(d.kept) == [ring[0]] + DropLast(e.kept);
        RoundAllCons(ring[0], DropLast(e.kept), digits, round);
        ConcatAssoc(seen, [rounded], RoundAll(DropLast(e.kept), digits, round));
      }
    }
  }

  /** A pair is recorded only when it was not seen, so none is recorded twice. */
  lemma {:induction false} DedupRingNoDup(ring: seq<Point>, digits: int, round: Rounding, seen: seq<Point>)
    requires NoDup(seen)
    ensures NoDup(DedupRing(ring, digits, round, seen).seen)
    decreases |ring|
  {
    if |ring| >= 2 {
      var rounded := RoundPoint(ring[0], digits, round);
      if rounded in seen {
        DedupRingNoDup(ring[1..], digits, round, seen);
      } else {
        assert NoDup(seen + [rounded]);
        DedupRingNoDup(ring[1..], digits, round, seen + [rounded]);
      }
    }
  }

  /** Nothing recorded is forgotten, and every vertex but the last, kept or dropped, rounds
      like a recorded pair afterwards. */
  lemma {:induction false} DedupRingCovers(ring: seq<Point>, digits: int, round: Rounding, seen: seq<Point>)
    ensures var d := DedupRing(ring, digits, round, seen);
      (forall p :: p in seen ==> p in d.seen) &&
      (forall i :: 0 <= i < |ring| - 1 ==> RoundPoint(ring[i], digits, round) in d.seen)
    decreases |ring|
  {
    if |ring| >= 2 {
      var d := DedupRing(ring, digits, round, seen);
      var rounded := RoundPoint(ring[0], digits, round);
      var rest := ring[1..];
      var seen' := if rounded in seen then seen else seen + [rounded];
      DedupRingCovers(rest, digits, round, seen');
      assert d.seen == DedupRing(rest, digits, round, seen').seen;
      assert rounded in seen';
      forall i | 0 < i < |ring| - 1 ensures RoundPoint(ring[i], digits, round) in d.seen {
        assert ring[i] == rest[i - 1];
      }
    }
  }

  /** The reference rule: a vertex survives when its rounded pair is neither in `seen` nor the
      rounding of any vertex before it, so of vertices that round alike the first wins. */
  function FirstOfClass(s: seq<Point>, digits: int, round: Rounding, seen: seq<Point>): seq<Point>
    decreases |s|
  {
    if s == [] then []
    else
      FirstOfClass(DropLast(s), digits, round, seen) +
      if RoundPoint(Last(s), digits, round) in seen + RoundAll(DropLast(s), digits, round) then [] else [Last(s)]
  }

  /** The rule read from the front: the leading vertex is tested against `seen` alone, and its
      rounding joins the record for the rest. */
  lemma {:induction false} FirstOfClassCons(v: Point, s: seq<Point>, digits: int, round: Rounding, seen: seq<Point>)
    ensures FirstOfClass([v] + s, digits, round, seen) ==
      (if RoundPoint(v, digits, round) in seen then [] else [v]) +
      FirstOfClass(s, digits, round, seen + [RoundPoint(v, digits, round)])
    decreases |s|
  {
    var rv := RoundPoint(v, digits, round);
    var head := if rv in seen then [] else [v];
    if s == [] {
      assert DropLast([v] + s) == [] && Last([v] + s) == v;
    } else {
      var init := DropLast(s);
      assert DropLast([v] + s) == [v] + init && Last([v] + s) == Last(s);
      FirstOfClassCons(v, init, digits, round, seen);
      RoundAllCons(v, init, digits, round);
      ConcatAssoc(seen, [rv], RoundAll(init, digits, round));
      var tail := if RoundPoint(Last(s), digits, round) in seen + [rv] + RoundAll(init, digits, round) then [] else [Last(s)];
      ConcatAssoc(head, FirstOfClass(init, digits, round, seen + [rv]), tail);
    }
  }

  /** Only which pairs the record holds matters, not their order or repetition. */
  lemma {:induction false} FirstOfClassSameRecord(s: seq<Point>, digits: int, round: Rounding, seen: seq<Point>, seen': seq<Point>)
    requires forall p :: p in seen <==> p in seen'
    ensures FirstOfClass(s, digits, round, seen) == FirstOfClass(s, digits, round, seen')
    decreases |s|
  {
    if s != [] {
      FirstOfClassSameRecord(DropLast(s), digits, round, seen, seen');
      var q := RoundPoint(Last(s), digits, round);
      var r := RoundAll(DropLast(s), digits, round);
      assert q in seen + r <==> q in seen' + r;
    }
  }

  /** The vertices a ring keeps before its last are exactly those the first-wins rule keeps:
      a vertex is dropped exactly when it rounds like `seen` or like an earlier vertex. */
  lemma {:induction false} DedupRingFirstWins(ring: seq<Point>, digits: int, round: Rounding, seen: seq<Point>)
    ensures DropLast(DedupRing(ring, digits, round, seen).kept) == FirstOfClass(DropLast(ring), digits, round, seen)
    decreases |ring|
  {
    if |ring| == 1 {
      assert DropLast(ring) == [];
    } else if |ring| >= 2 {
      var rounded := RoundPoint(ring[0], digits, round);
      var rest := ring[1..];
      var open := DropLast(rest);
      assert DropLast(ring) == [ring[0]] + open;
      FirstOfClassCons(ring[0], open, digits, round, seen);
      var after := FirstOfClass(open, digits, round, seen + [rounded]);
      if rounded in seen {
        assert FirstOfClass(DropLast(ring), digits, round, seen) == [] + after;
        DedupRingFirstWins(rest, digits, round, seen);
        FirstOfClassSameRecord(open, digits, round, seen, seen + [rounded]);
      } else {
        assert FirstOfClass(DropLast(ring), digits, round, seen) == [ring[0]] + after;
        DedupRingFirstWins(rest, digits, round, seen + [rounded]);
        DedupRingKept(rest, digits, round, seen + [rounded]);
        var e := DedupRing(rest, digits, round, seen + [rounded]);
        assert DedupRing(ring, digits, round, seen).kept == [ring[0]] + e.kept;
        assert DropLast([ring[0]] + e.kept) == [ring[0]] + DropLast(e.kept);
      }
    }
  }

  datatype HoleDedup = HoleDedup(holes: seq<seq<Point>>, seen: seq<Point>)

  /** Lines 62-77: each hole is deduplicated in turn against the rounded pairs of every
      hole before it (`holes_rounded` is shared), and yields one hole. */
  function DedupHoles(inner: seq<seq<Point>>, digits: int, round: Rounding, seen: seq<Point>): HoleDedup
    decreases |inner|
  {
    if inner == [] then HoleDedup([], seen)
    else
      var d := DedupRing(inner[0], digits, round, seen);
      var rest := DedupHoles(inner[1..], digits, round, d.seen);
      HoleDedup([d.kept] + rest.holes, rest.seen)
  }

  /** One hole per input ring, hole `k` being that ring deduplicated against what the
      holes before it recorded. */
  lemma {:induction false} DedupHolesSpec(inner: seq<seq<Point>>, digits: int, round: Rounding, seen: seq<Point>)
    ensures var h := DedupHoles(inner, digits, round, seen);
      |h.holes| == |inner| &&
      (NoDup(seen) ==> NoDup(h.seen)) &&
      forall k :: 0 <= k < |inner| ==>
        h.holes[k] == DedupRing(inner[k], digits, round, DedupHoles(inner[..k], digits, round, seen).seen).kept
    decreases |inner|
  {
    if inner != [] {
      var d := DedupRing(inner[0], digits, round, seen);
      if NoDup(seen) {
        DedupRingNoDup(inner[0], digits, round, seen);
      }
      DedupHolesSpec(inner[1..], digits, round, d.seen);
      var h := DedupHoles(inner, digits, round, seen);
      forall k | 0 <= k < |inner|
        ensures h.holes[k] == DedupRing(inner[k], digits, round, DedupHoles(inner[..k], digits, round, seen).seen).kept
      {
        if k == 0 {
          assert inner[..0] == [];
        } else {
          assert inner[..k][0] == inner[0] && inner[..k][1..] == inner[1..][..k - 1];
          assert inner[k] == inner[1..][k - 1];
        }
      }
    }
  }

  /** One vertex of a ring that is not its last: skipped when its rounded pair was seen,
      kept and recorded otherwise. */
  lemma DedupRingStep(ring: seq<Point>, i: nat, digits: int, round: Rounding, seen: seq<Point>)
    requires i < |ring| - 1
    ensures var rounded := RoundPoint(ring[i], digits, round);
      var d := DedupRing(ring[i + 1..], digits, round, if rounded in seen then seen else seen + [rounded]);
      DedupRing(ring[i..], digits, round, seen) == if rounded in seen then d else Dedup([ring[i]] + d.kept, d.seen)
  {
    assert ring[i..][0] == ring[i] && ring[i..][1..] == ring[i + 1..];
  }

  /** The loop over one ring, shared by the outer ring and every hole. */
  method DedupRingLoop(ring: seq<Point>, digits: int, round: Rounding, seen: seq<Point>)
    returns (kept: seq<Point>, seenOut: seq<Point>)
    ensures Dedup(kept, seenOut) == DedupRing(ring, digits, round, seen)
  {
    kept, seenOut := [], seen;
    var i := 0;
    while i < |ring|
      invariant 0 <= i <= |ring|
      invariant var d := DedupRing(ring[i..], digits, round, seenOut);
        Dedup(kept + d.kept, d.seen) == DedupRing(ring, digits, round, seen)
    {
      var v := ring[i];
      if i == |ring| - 1 {
        assert ring[i..] == [v];
        kept := kept + [v];
        break;
      }
      DedupRingStep(ring, i, digits, round, seenOut);
      var rounded := RoundPoint(v, digits, round);
      if rounded !in seenOut {
        ConcatAssoc(kept, [v], DedupRing(ring[i + 1..], digits, round, seenOut + [rounded]).kept);
        kept := kept + [v];
        seenOut := seenOut + [rounded];
      }
      i := i + 1;
    }
    if i == |ring| {
      assert kept + [] == kept;
    }
  }

  /** One hole: deduplicated against the pairs recorded so far, which it then extends. */
  lemma DedupHolesStep(inner: seq<seq<Point>>, k: nat, digits: int, round: Rounding, seen: seq<Point>)
    requires k < |inner|
    ensures var d := DedupRing(inner[k], digits, round, seen);
      var h := DedupHoles(inner[k + 1..], digits, round, d.seen);
      DedupHoles(inner[k..], digits, round, seen) == HoleDedup([d.kept] + h.holes, h.seen)
  {
    assert inner[k..][0] == inner[k] && inner[k..][1..] == inner[k + 1..];
  }

  /** The loop over the holes with the shared rounded pairs. */
  method DedupHolesLoop(inner: seq<seq<Point>>, digits: int, round: Rounding) returns (holes: seq<seq<Point>>)
    ensures holes == DedupHoles(inner, digits, round, []).holes
  {
    holes := [];
    var holesRounded: seq<Point> := [];
    for k := 0 to |inner|
      invariant var h := DedupHoles(inner[k..], digits, round, holesRounded);
        HoleDedup(holes + h.holes, h.seen) == DedupHoles(inner, digits, round, [])
    {
      DedupHolesStep(inner, k, digits, round, holesRounded);
      var hole;
      hole, holesRounded := DedupRingLoop(inner[k], digits, round, holesRounded);
      ConcatAssoc(holes, [hole], DedupHoles(inner[k + 1..], digits, round, holesRounded).holes);
      holes := holes + [hole];
    }
    assert inner[|inner|..] == [];
    assert holes + [] == holes;
  }

  // ------------------------------------------------------------ vertex pool

  datatype Shape = Shape(vertices: seq<Point>, triangles: seq<seq<nat>>)

  /** `v` is one of the first three corners of some triangle. */
  predicate IsCorner(tris: seq<seq<Point>>, v: Point)
  {
    exists t :: 0 <= t < |tris| && v in Corners(tris[t])
  }

  /** The first three corners of a triangle ring. */
  function Corners(tri: seq<Point>): seq<Point>
  {
    tri[..Min(3, |tri|)]
  }

  /** The pool `{vertices, triangles}` of lines 115-135: the vertices are the distinct corners,
      and each triangle lists, for its first three corners (the closing fourth point of the
      ring is skipped), the position of that corner in the pool. */
  predicate IsPoolOf(tris: seq<seq<Point>>, shape: Shape)
  {
    NoDup(shape.vertices) &&
    |shape.triangles| == |tris| &&
    (forall t :: 0 <= t < |tris| ==> |shape.triangles[t]| == Min(3, |tris[t]|)) &&
    (forall t, j :: 0 <= t < |tris| && 0 <= j < |shape.triangles[t]| ==>
       shape.triangles[t][j] < |shape.vertices| && shape.vertices[shape.triangles[t][j]] == tris[t][j]) &&
    (forall k :: 0 <= k < |shape.vertices| ==> IsCorner(tris, shape.vertices[k]))
  }

  /** `v` is a corner of one of the first `t` triangles. */
  predicate CornerBefore(tris: seq<seq<Point>>, t: nat, v: Point)
  {
    exists t' :: 0 <= t' < t && t' < |tris| && v in Corners(tris[t'])
  }

  /** `vertices.index(v)`: the first position of `v`. */
  function IndexOf(s: seq<Point>, v: Point): (r: nat)
    requires v in s
    ensures r < |s| && s[r] == v && v !in s[..r]
  {
    if s[0] == v then 0 else assert s[1..][..IndexOf(s[1..], v)] == s[..IndexOf(s[1..], v) + 1][1..]; 1 + IndexOf(s[1..], v)
  }

  /** One triangle of lines 117-133: its first three corners are looked up in the pool, and
      appended when new; the pool only grows, by corners of this triangle, and stays free of
      duplicates. */
  method PoolTriangle(tri: seq<Point>, vertices: seq<Point>) returns (pool: seq<Point>, trIndices: seq<nat>)
    requires NoDup(vertices)
    ensures NoDup(pool) && vertices <= pool
    ensures |trIndices| == Min(3, |tri|)
    ensures forall j :: 0 <= j < |trIndices| ==> trIndices[j] < |pool| && pool[trIndices[j]] == tri[j]
    ensures forall k :: |vertices| <= k < |pool| ==> pool[k] in Corners(tri)
  {
    pool := vertices;
    trIndices := [];
    var count := 0;
    for c := 0 to |tri|
      invariant count == Min(c, 3) && |trIndices| == count && NoDup(pool) && vertices <= pool
      invariant forall j :: 0 <= j < count ==> trIndices[j] < |pool| && pool[trIndices[j]] == tri[j]
      invariant forall k :: |vertices| <= k < |pool| ==> pool[k] in tri[..count]
    {
      var v := tri[c];
      if count == 3 {
        continue;
      }
      assert count == c && tri[..count + 1] == tri[..count] + [v];
      if v !in pool {
        pool := pool + [v];
        trIndices := trIndices + [|pool| - 1];
      } else {
        trIndices := trIndices + [IndexOf(pool, v)];
      }
      count := count + 1;
    }
  }

  /** The pool after the first `t` triangles: the part of IsPoolOf about them. */
  predicate PoolSoFar(tris: seq<seq<Point>>, t: nat, vertices: seq<Point>, triangles: seq<seq<nat>>)
  {
    t <= |tris| && NoDup(vertices) && |triangles| == t &&
    (forall t' :: 0 <= t' < t ==> |triangles[t']| == Min(3, |tris[t']|)) &&
    (forall t', j :: 0 <= t' < t && 0 <= j < |triangles[t']| ==>
       triangles[t'][j] < |vertices| && vertices[triangles[t'][j]] == tris[t'][j]) &&
    (forall k :: 0 <= k < |vertices| ==> CornerBefore(tris, t, vertices[k]))
  }

  /** Interning one more triangle keeps the pool of the triangles so far. */
  lemma PoolStep(tris: seq<seq<Point>>, t: nat, vertices: seq<Point>, triangles: seq<seq<nat>>,
                 pool: seq<Point>, trIndices: seq<nat>)
    requires PoolSoFar(tris, t, vertices, triangles) && t < |tris|
    requires NoDup(pool) && vertices <= pool && |trIndices| == Min(3, |tris[t]|)
    requires forall j :: 0 <= j < |trIndices| ==> trIndices[j] < |pool| && pool[trIndices[j]] == tris[t][j]
    requires forall k :: |vertices| <= k < |pool| ==> pool[k] in Corners(tris[t])
    ensures PoolSoFar(tris, t + 1, pool, triangles + [trIndices])
  {
    var triangles' := triangles + [trIndices];
    forall t', j | 0 <= t' < t + 1 && 0 <= j < |triangles'[t']|
      ensures triangles'[t'][j] < |pool| && pool[triangles'[t'][j]] == tris[t'][j]
    {
      if t' < t {
        assert triangles'[t'] == triangles[t'];
        assert pool[triangles[t'][j]] == vertices[triangles[t'][j]];
      }
    }
    forall k | 0 <= k < |pool| ensures CornerBefore(tris, t + 1, pool[k]) {
      if k < |vertices| {
        assert pool[k] == vertices[k];
        var t' :| 0 <= t' < t && t' < |tris| && vertices[k] in Corners(tris[t']);
      } else {
        assert pool[k] in Corners(tris[t]);
      }
    }
  }

  /** After the last triangle the pool is the one of all of them. */
  lemma PoolDone(tris: seq<seq<Point>>, vertices: seq<Point>, triangles: seq<seq<nat>>)
    requires PoolSoFar(tris, |tris|, vertices, triangles)
    ensures IsPoolOf(tris, Shape(vertices, triangles))
  {
    forall k | 0 <= k < |vertices| ensures IsCorner(tris, vertices[k]) {
      var t' :| 0 <= t' < |tris| && t' < |tris| && vertices[k] in Corners(tris[t']);
    }
  }

  /** The pool of lines 115-135 over all triangles. */
  method VertexPool(tris: seq<seq<Point>>) returns (shape: Shape)
    ensures IsPoolOf(tris, shape)
  {
    var vertices: seq<Point> := [];
    var triangles: seq<seq<nat>> := [];
    for t := 0 to |tris|
      invariant PoolSoFar(tris, t, vertices, triangles)
    {
      var pool, trIndices := PoolTriangle(tris[t], vertices);
      PoolStep(tris, t, vertices, triangles, pool, trIndices);
      vertices, triangles := pool, triangles + [trIndices];
    }
    PoolDone(tris, vertices, triangles);
    shape := Shape(vertices, triangles);
  }

  // ------------------------------------------------------------ the retry

  /** Lines 80-83: a single empty hole means a polygon without holes. */
  function PolygonHoles(holes: seq<seq<Point>>): seq<seq<Point>>
  {
    if |holes| == 1 && |holes[0]| == 0 then [] else holes
  }

  /** What one attempt hands to the triangulator, with `digits = 3 - attempt`, and what it
      gets back. */
  function Attempt(coords: seq<Point>, inner: seq<seq<Point>>, attempt: int, round: Rounding,
                   triangulate: Triangulator): Option<seq<seq<Point>>>
  {
    var digits := 3 - attempt;
    triangulate(DedupRing(coords, digits, round, []).kept,
                PolygonHoles(DedupHoles(inner, digits, round, []).holes))
  }

  /** Lines 50-113 of one attempt. */
  method TryAttempt(coords: seq<Point>, inner: seq<seq<Point>>, attempt: int, round: Rounding,
                    triangulate: Triangulator) returns (tris: Option<seq<seq<Point>>>)
    ensures tris == Attempt(coords, inner, attempt, round, triangulate)
  {
    var digits := 3 - attempt;
    var vert, _ := DedupRingLoop(coords, digits, round, []);
    var holes := DedupHolesLoop(inner, digits, round);
    var polygonHoles := if |holes| == 1 && |holes[0]| == 0 then [] else holes;
    tris := triangulate(vert, polygonHoles);
  }

  /** to_triangles (utils/utils_geometry.py:45-143): attempts `attempt`, `attempt + 1`, ...
      up to 3 (at least the one given); the first that succeeds yields its vertex pool and
      its attempt number, and when all fail the result is `(None, None)`. */
  method ToTriangles(coords: seq<Point>, inner: seq<seq<Point>>, attempt: int, round: Rounding,
                     triangulate: Triangulator) returns (r: Option<(Shape, int)>)
    ensures r.None? <==>
      forall a :: attempt <= a <= Max(attempt, 3) ==> Attempt(coords, inner, a, round, triangulate).None?
    ensures r.Some? ==>
      var (shape, a) := r.value;
      attempt <= a <= Max(attempt, 3) &&
      (forall b :: attempt <= b < a ==> Attempt(coords, inner, b, round, triangulate).None?) &&
      Attempt(coords, inner, a, round, triangulate).Some? &&
      IsPoolOf(Attempt(coords, inner, a, round, triangulate).value, shape)
    decreases if attempt <= 3 then 4 - attempt else 0
  {
    var tris := TryAttempt(coords, inner, attempt, round, triangulate);
    if tris.Some? {
      var shape := VertexPool(tris.value);
      return Some((shape, attempt));
    }
    var next := attempt + 1;
    if next <= 3 {
      r := ToTriangles(coords, inner, next, round, triangulate);
    } else {
      r := None;
    }
  }
}
