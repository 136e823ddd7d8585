// The convex hull of the spatial analytics helpers, over exact coordinates.
module MonotoneChain {

  datatype Point = Point(lng: real, lat: real)

  // Twice the signed area of the triangle o, a, b: positive for a left turn.
  function Cross(o: Point, a: Point, b: Point): real {
    (a.lng - o.lng) * (b.lat - o.lat) - (a.lat - o.lat) * (b.lng - o.lng)
  }

  // The sort order: by longitude, then by latitude.
  predicate Before(p: Point, q: Point) {
    p.lng < q.lng || (p.lng == q.lng && p.lat < q.lat)
  }

  // The lower chain sweeps the points forward, the upper chain backward.
  predicate Ahead(forward: bool, p: Point, q: Point) {
    if forward then Before(p, q) else Before(q, p)
  }

  ghost predicate Swept(forward: bool, pts: seq<Point>) {
    forall i, j :: 0 <= i < j < |pts| ==> Ahead(forward, pts[i], pts[j])
  }

  // ----- deduplicate and sort -----

  function Insert(pts: seq<Point>, p: Point): seq<Point> {
    if pts == [] then [p]
    else if pts[0] == p then pts
    else if Before(p, pts[0]) then [p] + pts
    else [pts[0]] + Insert(pts[1..], p)
  }

  function SortUnique(points: seq<Point>): seq<Point> {
    if points == [] then []
    else Insert(SortUnique(points[..|points| - 1]), points[|points| - 1])
  }

  lemma {:induction false} InsertSorts(pts: seq<Point>, p: Point)
    requires Swept(true, pts)
    ensures Swept(true, Insert(pts, p))
    ensures forall q :: q in Insert(pts, p) <==> q in pts || q == p
  {
    if pts != [] && pts[0] != p && !Before(p, pts[0]) {
      var rest := Insert(pts[1..], p);
      InsertSorts(pts[1..], p);
      assert forall q :: q in pts <==> q == pts[0] || q in pts[1..];
      forall i | 0 <= i < |rest| ensures Before(pts[0], rest[i]) {
        assert rest[i] in rest;
      }
    }
  }

  // The result is the input as a set, in strictly ascending order; no two
  // different sequences are both.
  lemma {:induction false} SortUniqueSorts(points: seq<Point>)
    ensures Swept(true, SortUnique(points))
    ensures forall q :: q in SortUnique(points) <==> q in points
  {
    if points != [] {
      var n := |points| - 1;
      SortUniqueSorts(points[..n]);
      InsertSorts(SortUnique(points[..n]), points[n]);
      assert points == points[..n] + [points[n]];
    }
  }

  // ----- the monotone chain -----

  // Pop the points that make no strict left turn towards p, then push p.
  function Extend(chain: seq<Point>, p: Point): (longer: seq<Point>)
    ensures longer != [] && longer[|longer| - 1] == p
  {
    var n := |chain|;
    if n >= 2 && Cross(chain[n - 2], chain[n - 1], p) <= 0.0
    then Extend(chain[..n - 1], p)
    else chain + [p]
  }

  function Chain(pts: seq<Point>): (chain: seq<Point>)
    ensures chain == [] <==> pts == []
  {
    if pts == [] then []
    else Extend(Chain(pts[..|pts| - 1]), pts[|pts| - 1])
  }

  ghost predicate TurnsLeft(chain: seq<Point>) {
    forall i, j, k :: 0 <= i && j == i + 1 && k == j + 1 && k < |chain| ==> Cross(chain[i], chain[j], chain[k]) > 0.0
  }

  ghost predicate LeftOfEdges(chain: seq<Point>, q: Point) {
    forall i, j :: 0 <= i && j == i + 1 && j < |chain| ==> Cross(chain[i], chain[j], q) >= 0.0
  }

  // What a finished chain over the swept points pts is.
  ghost predicate Supports(forward: bool, chain: seq<Point>, pts: seq<Point>) {
    && |chain| >= 1 && |pts| >= 1
    && chain[0] == pts[0] && chain[|chain| - 1] == pts[|pts| - 1]
    && (forall p :: p in chain ==> p in pts)
    && Swept(forward, chain)
    && TurnsLeft(chain)
    && (forall q :: q in pts ==> LeftOfEdges(chain, q))
  }

  // Directions within one half plane are ordered by the cross product: if v is
  // not right of u and w is not right of v then w is not right of u.
  lemma Transitive(ux: real, uy: real, vx: real, vy: real, wx: real, wy: real)
    requires ux > 0.0 || (ux == 0.0 && uy >= 0.0)
    requires vx > 0.0 || (vx == 0.0 && vy > 0.0)
    requires wx > 0.0 || (wx == 0.0 && wy >= 0.0)
    requires ux * vy - uy * vx >= 0.0
    requires vx * wy - vy * wx >= 0.0
    ensures ux * wy - uy * wx >= 0.0
    ensures ux * vy - uy * vx > 0.0 && vx * wy - vy * wx > 0.0 ==> ux * wy - uy * wx > 0.0
  {
    var uv, vw, uw := ux * vy - uy * vx, vx * wy - vy * wx, ux * wy - uy * wx;
    assert uw * vx == vw * ux + uv * wx;
  }

  // The same on points of a sweep: o first, then a, p and q in any order.
  lemma Fan(forward: bool, o: Point, a: Point, p: Point, q: Point)
    requires Ahead(forward, o, a) && Ahead(forward, o, p)
    requires q == o || Ahead(forward, o, q)
    requires Cross(o, a, p) <= 0.0 && Cross(o, a, q) >= 0.0
    ensures Cross(o, p, q) >= 0.0
  {
    if forward {
      Transitive(p.lng - o.lng, p.lat - o.lat, a.lng - o.lng, a.lat - o.lat, q.lng - o.lng, q.lat - o.lat);
    } else {
      Transitive(o.lng - p.lng, o.lat - p.lat, o.lng - a.lng, o.lat - a.lat, o.lng - q.lng, o.lat - q.lat);
    }
  }

  // A point q behind t and left of the edge s, t is left of the next edge t, p.
  lemma Bend(forward: bool, s: Point, t: Point, p: Point, q: Point)
    requires Ahead(forward, s, t) && Ahead(forward, t, p) && Ahead(forward, q, t)
    requires Cross(s, t, p) > 0.0 && Cross(s, t, q) >= 0.0
    ensures Cross(t, p, q) >= 0.0
  {
    if forward {
      Transitive(t.lng - q.lng, t.lat - q.lat, t.lng - s.lng, t.lat - s.lat, p.lng - t.lng, p.lat - t.lat);
    } else {
      Transitive(q.lng - t.lng, q.lat - t.lat, s.lng - t.lng, s.lat - t.lat, t.lng - p.lng, t.lat - p.lat);
    }
  }

  // A turn, by its two steps.
  lemma Steps(s: Point, t: Point, u: Point)
    ensures Cross(s, t, u) == (t.lng - s.lng) * (u.lat - t.lat) - (t.lat - s.lat) * (u.lng - t.lng)
    ensures Cross(s, t, u) == (s.lng - t.lng) * (t.lat - u.lat) - (s.lat - t.lat) * (t.lng - u.lng)
  {
  }

  // Two left turns in a row keep p left of the first edge.
  lemma Onward(forward: bool, s: Point, t: Point, u: Point, p: Point)
    requires Ahead(forward, s, t) && Ahead(forward, t, u) && Ahead(forward, u, p)
    requires Cross(s, t, u) > 0.0 && Cross(t, u, p) > 0.0
    ensures Cross(s, t, p) > 0.0
  {
    Steps(s, t, u);
    Steps(t, u, p);
    Along(s, t, u, p);
    hide Cross;
    if forward {
      Transitive(t.lng - s.lng, t.lat - s.lat, u.lng - t.lng, u.lat - t.lat, p.lng - u.lng, p.lat - u.lat);
    } else {
      Transitive(s.lng - t.lng, s.lat - t.lat, t.lng - u.lng, t.lat - u.lat, u.lng - p.lng, u.lat - p.lat);
    }
  }

  lemma Along(s: Point, t: Point, u: Point, p: Point)
    ensures Cross(s, t, p) == Cross(s, t, u) + (t.lng - s.lng) * (p.lat - u.lat) - (t.lat - s.lat) * (p.lng - u.lng)
    ensures Cross(s, t, p) == Cross(s, t, u) + (s.lng - t.lng) * (u.lat - p.lat) - (s.lat - t.lat) * (u.lng - p.lng)
  {
  }

  // p is left of every edge of a chain whose last turn towards p is a left turn.
  lemma {:induction false} LeftOfAll(forward: bool, chain: seq<Point>, p: Point)
    requires |chain| >= 2 && Swept(forward, chain + [p]) && TurnsLeft(chain + [p])
    ensures LeftOfEdges(chain, p)
    decreases |chain|
  {
    var n := |chain|;
    var all := chain + [p];
    assert all[n - 2] == chain[n - 2] && all[n - 1] == chain[n - 1] && all[n] == p;
    var i := n - 2;
    while i > 0
      invariant 0 <= i <= n - 2
      invariant forall k :: i <= k < n - 1 ==> Cross(chain[k], chain[k + 1], p) > 0.0
    {
      assert Cross(all[i - 1], all[i], all[i + 1]) > 0.0;
      assert Ahead(forward, all[i - 1], all[i]) && Ahead(forward, all[i], all[i + 1]);
      assert Ahead(forward, all[i + 1], all[n]);
      Onward(forward, chain[i - 1], chain[i], chain[i + 1], p);
      i := i - 1;
    }
  }

  // While points are popped, all points seen so far that are not behind the
  // chain's end t stay left of the edge from t to the new point p.
  ghost predicate Open(forward: bool, chain: seq<Point>, p: Point, seen: seq<Point>)
    requires chain != []
  {
    var t := chain[|chain| - 1];
    && (forall q :: q in seen ==> LeftOfEdges(chain, q) && Ahead(forward, q, p))
    && (forall q :: q in seen && !Ahead(forward, q, t) ==> Cross(t, p, q) >= 0.0)
  }

  // Popping the end of the chain keeps it open: its new end fans over the rest.
  lemma PopOpen(forward: bool, chain: seq<Point>, p: Point, seen: seq<Point>)
    requires |chain| >= 2 && Swept(forward, chain) && TurnsLeft(chain)
    requires forall q :: q in chain ==> q in seen
    requires Open(forward, chain, p, seen)
    requires Cross(chain[|chain| - 2], chain[|chain| - 1], p) <= 0.0
    ensures Open(forward, chain[..|chain| - 1], p, seen)
    ensures Swept(forward, chain[..|chain| - 1]) && TurnsLeft(chain[..|chain| - 1])
  {
    var n := |chain|;
    var o, a := chain[n - 2], chain[n - 1];
    assert o in seen && a in seen;
    forall q | q in seen ensures LeftOfEdges(chain[..n - 1], q) {
      assert LeftOfEdges(chain, q);
    }
    forall q | q in seen && !Ahead(forward, q, o) ensures Cross(o, p, q) >= 0.0 {
      assert LeftOfEdges(chain, q);
      Fan(forward, o, a, p, q);
    }
  }

  // Pushing p on an open chain that turns left towards p closes it again.
  lemma PushSupports(forward: bool, chain: seq<Point>, p: Point, q: Point)
    requires |chain| >= 1
    requires Swept(forward, chain + [p]) && TurnsLeft(chain + [p])
    requires q == p || (LeftOfEdges(chain, q) && (q == chain[0] || Ahead(forward, chain[0], q)))
    requires q != p ==> Ahead(forward, q, chain[|chain| - 1]) || Cross(chain[|chain| - 1], p, q) >= 0.0
    ensures LeftOfEdges(chain + [p], q)
  {
    var n := |chain|;
    var all := chain + [p];
    var t := chain[n - 1];
    if q == p {
      if n >= 2 {
        LeftOfAll(forward, chain, p);
      }
      assert Cross(t, p, p) == 0.0;
    } else if Ahead(forward, q, t) {
      assert n >= 2;
      assert all[n - 2] == chain[n - 2] && all[n - 1] == t && all[n] == p;
      assert Cross(all[n - 2], all[n - 1], all[n]) > 0.0;
      assert Cross(chain[n - 2], chain[n - 1], q) >= 0.0;
      Bend(forward, chain[n - 2], t, p, q);
    }
  }

  lemma OpensFor(forward: bool, chain: seq<Point>, p: Point, seen: seq<Point>)
    requires Supports(forward, chain, seen) && Swept(forward, seen + [p])
    ensures Open(forward, chain, p, seen) && Swept(forward, seen)
  {
    var upTo := seen + [p];
    forall i, j | 0 <= i < j < |seen| ensures Ahead(forward, seen[i], seen[j]) {
      assert upTo[i] == seen[i] && upTo[j] == seen[j];
    }
    forall q | q in seen
      ensures Ahead(forward, q, p)
      ensures q == seen[|seen| - 1] || Ahead(forward, q, seen[|seen| - 1])
    {
      var k :| 0 <= k < |seen| && seen[k] == q;
      assert upTo[k] == q && upTo[|seen|] == p;
    }
  }

  lemma FirstOfSweep(forward: bool, pts: seq<Point>, q: Point)
    requires Swept(forward, pts) && q in pts
    ensures q == pts[0] || Ahead(forward, pts[0], q)
  {
    var k :| 0 <= k < |pts| && pts[k] == q;
  }

  lemma PushedSweep(forward: bool, chain: seq<Point>, p: Point, seen: seq<Point>)
    requires |chain| >= 1 && Swept(forward, chain) && TurnsLeft(chain)
    requires forall q :: q in chain ==> q in seen
    requires forall q :: q in seen ==> Ahead(forward, q, p)
    requires |chain| >= 2 ==> Cross(chain[|chain| - 2], chain[|chain| - 1], p) > 0.0
    ensures Swept(forward, chain + [p]) && TurnsLeft(chain + [p])
  {
  }

  lemma {:induction false} ExtendSupports(forward: bool, chain: seq<Point>, p: Point, seen: seq<Point>)
    requires |chain| >= 1 && |seen| >= 1 && chain[0] == seen[0]
    requires Swept(forward, seen) && Swept(forward, chain) && TurnsLeft(chain)
    requires forall q :: q in chain ==> q in seen
    requires Open(forward, chain, p, seen)
    ensures Supports(forward, Extend(chain, p), seen + [p])
    decreases |chain|
  {
    hide Cross, LeftOfEdges, TurnsLeft, Swept, Ahead;
    var n := |chain|;
    if n >= 2 && Cross(chain[n - 2], chain[n - 1], p) <= 0.0 {
      PopOpen(forward, chain, p, seen);
      ExtendSupports(forward, chain[..n - 1], p, seen);
    } else {
      PushedSweep(forward, chain, p, seen);
      forall q | q in seen + [p] ensures LeftOfEdges(chain + [p], q) {
        if q != p {
          FirstOfSweep(forward, seen, q);
        }
        PushSupports(forward, chain, p, q);
      }
    }
  }

  lemma OnePoint(forward: bool, pts: seq<Point>)
    requires |pts| == 1
    ensures Chain(pts) == pts && Supports(forward, pts, pts)
  {
  }

  // Over points in sweep order the chain runs from the first to the last, turns
  // strictly left, and has every point on or left of every edge.
  lemma {:induction false} ChainSupports(forward: bool, pts: seq<Point>)
    requires Swept(forward, pts) && pts != []
    ensures Supports(forward, Chain(pts), pts)
  {
    hide Cross, LeftOfEdges, TurnsLeft;
    var n := |pts| - 1;
    var seen := pts[..n];
    assert pts == seen + [pts[n]];
    if n == 0 {
      OnePoint(forward, pts);
    } else {
      ChainSupports(forward, seen);
      OpensFor(forward, Chain(seen), pts[n], seen);
      ExtendSupports(forward, Chain(seen), pts[n], seen);
    }
  }

  // ----- the hull -----

  function Reversed(s: seq<Point>): seq<Point> {
    seq(|s|, i requires 0 <= i < |s| => s[|s| - 1 - i])
  }

  function HullOf(pts: seq<Point>): seq<Point> {
    if |pts| <= 2 then pts
    else
      var lower := Chain(pts);
      var upper := Chain(Reversed(pts));
      lower[..|lower| - 1] + upper[..|upper| - 1]
  }

  function Next(i: nat, n: nat): nat
    requires i < n
  {
    if i + 1 == n then 0 else i + 1
  }

  // No point lies to the right of an edge of the closed ring.
  ghost predicate Encloses(ring: seq<Point>, points: seq<Point>) {
    forall i, q :: 0 <= i < |ring| && q in points ==> Cross(ring[i], ring[Next(i, |ring|)], q) >= 0.0
  }

  // Every corner of the closed ring is a strict left turn: no point is redundant.
  ghost predicate StrictlyConvex(ring: seq<Point>) {
    forall i :: 0 <= i < |ring| ==>
      var j := Next(i, |ring|);
      Cross(ring[i], ring[j], ring[Next(j, |ring|)]) > 0.0
  }

  lemma ReversedSweep(pts: seq<Point>)
    requires Swept(true, pts)
    ensures Swept(false, Reversed(pts))
    ensures forall q :: q in Reversed(pts) <==> q in pts
  {
    var r := Reversed(pts);
    forall q | q in pts ensures q in r {
      var k :| 0 <= k < |pts| && pts[k] == q;
      assert r[|pts| - 1 - k] == q;
    }
  }

  // A flat joint between an edge a, m and an edge m, b of the opposite sweep
  // squeezes everything that both keep on their left onto one line.
  lemma FlatJoint(forward: bool, a: Point, m: Point, b: Point, q: Point)
    requires Ahead(forward, a, m) && Ahead(forward, b, m)
    requires Cross(a, m, b) == 0.0
    requires Cross(a, m, q) >= 0.0 && Cross(m, b, q) >= 0.0
    ensures Cross(a, m, q) == 0.0
  {
    var ux, uy, vx, vy := m.lng - a.lng, m.lat - a.lat, b.lng - m.lng, b.lat - m.lat;
    var u, v := Cross(a, m, q), Cross(m, b, q);
    assert ux * vy == uy * vx;
    assert ux * v == vx * u;
    assert uy * v == vy * u;
  }

  lemma Collinear(a: Point, m: Point, p: Point, q: Point, r: Point)
    requires a != m
    requires Cross(a, m, p) == 0.0 && Cross(a, m, q) == 0.0 && Cross(a, m, r) == 0.0
    ensures Cross(p, q, r) == 0.0
  {
    var ux, uy := m.lng - a.lng, m.lat - a.lat;
    var vx, vy, wx, wy := q.lng - p.lng, q.lat - p.lat, r.lng - p.lng, r.lat - p.lat;
    assert ux * vy == uy * vx && ux * wy == uy * wx;
    assert ux * (vx * wy - vy * wx) == 0.0;
    assert uy * (vx * wy - vy * wx) == 0.0;
  }

  ghost predicate OnOneLine(points: seq<Point>) {
    forall p, q, r :: p in points && q in points && r in points ==> Cross(p, q, r) == 0.0
  }

  lemma OneLine(a: Point, m: Point, points: seq<Point>)
    requires a != m
    requires forall q :: q in points ==> Cross(a, m, q) == 0.0
    ensures OnOneLine(points)
  {
    forall p, q, r | p in points && q in points && r in points ensures Cross(p, q, r) == 0.0 {
      Collinear(a, m, p, q, r);
    }
  }

  lemma SameLine(points: seq<Point>, others: seq<Point>)
    requires forall q :: q in points <==> q in others
    ensures OnOneLine(points) <==> OnOneLine(others)
  {
  }

  // The two chains of a hull, end to end.
  ghost predicate Closes(forward: bool, one: seq<Point>, two: seq<Point>, pts: seq<Point>, back: seq<Point>) {
    && Supports(forward, one, pts) && Supports(!forward, two, back)
    && |one| >= 2 && |two| >= 2
    && one[|one| - 1] == two[0] && two[|two| - 1] == one[0]
    && forall q :: q in pts <==> q in back
  }

  // The corner where one chain ends and the other starts is a strict left turn,
  // unless all the points are on one line.
  lemma JointTurns(forward: bool, one: seq<Point>, two: seq<Point>, pts: seq<Point>, back: seq<Point>)
    requires Closes(forward, one, two, pts, back)
    ensures Cross(one[|one| - 2], one[|one| - 1], two[1]) > 0.0 || OnOneLine(pts)
  {
    var a, m, b := one[|one| - 2], two[0], two[1];
    assert a in pts && b in pts;
    assert LeftOfEdges(one, b);
    if Cross(a, m, b) == 0.0 {
      forall q | q in pts ensures Cross(a, m, q) == 0.0 {
        assert LeftOfEdges(one, q) && LeftOfEdges(two, q);
        FlatJoint(forward, a, m, b, q);
      }
      OneLine(a, m, pts);
    }
  }

  function Ring(lower: seq<Point>, upper: seq<Point>): seq<Point>
    requires |lower| >= 2 && |upper| >= 2
  {
    lower[..|lower| - 1] + upper[..|upper| - 1]
  }

  // Edge i of the ring, and the corner after it, in terms of the two chains.
  lemma RingEdges(lower: seq<Point>, upper: seq<Point>, i: nat)
    requires |lower| >= 2 && |upper| >= 2
    requires lower[|lower| - 1] == upper[0] && upper[|upper| - 1] == lower[0]
    requires i < |lower| + |upper| - 2
    ensures |Ring(lower, upper)| == |lower| + |upper| - 2
    ensures var ring, l := Ring(lower, upper), |lower| - 1;
            var j := Next(i, |ring|);
            if i < l then
              ring[i] == lower[i] && ring[j] == lower[i + 1]
            else
              ring[i] == upper[i - l] && ring[j] == upper[i - l + 1]
  {
  }

  lemma RingEncloses(lower: seq<Point>, upper: seq<Point>, pts: seq<Point>, back: seq<Point>)
    requires Closes(true, lower, upper, pts, back)
    ensures Encloses(Ring(lower, upper), pts)
  {
    var ring := Ring(lower, upper);
    forall i, q | 0 <= i < |ring| && q in pts ensures Cross(ring[i], ring[Next(i, |ring|)], q) >= 0.0 {
      RingEdges(lower, upper, i);
      assert LeftOfEdges(lower, q) && LeftOfEdges(upper, q);
    }
  }

  lemma RingConvex(lower: seq<Point>, upper: seq<Point>, pts: seq<Point>, back: seq<Point>)
    requires Closes(true, lower, upper, pts, back) && !OnOneLine(pts)
    ensures StrictlyConvex(Ring(lower, upper))
  {
    hide Cross, Swept, LeftOfEdges, OnOneLine;
    var ring, l := Ring(lower, upper), |lower| - 1;
    SameLine(pts, back);
    JointTurns(true, lower, upper, pts, back);
    JointTurns(false, upper, lower, back, pts);
    forall i | 0 <= i < |ring|
      ensures Cross(ring[i], ring[Next(i, |ring|)], ring[Next(Next(i, |ring|), |ring|)]) > 0.0
    {
      RingEdges(lower, upper, i);
      RingEdges(lower, upper, Next(i, |ring|));
    }
  }

  // A chain with a corner bends.
  lemma Bends(forward: bool, chain: seq<Point>, pts: seq<Point>)
    requires Supports(forward, chain, pts) && |chain| >= 3
    ensures !OnOneLine(pts)
  {
    assert chain[0] in pts && chain[1] in pts && chain[2] in pts;
    assert Cross(chain[0], chain[1], chain[2]) > 0.0;
  }

  // On one line, and only then, both chains are the edge between the ends.
  lemma RingFlat(lower: seq<Point>, upper: seq<Point>, pts: seq<Point>, back: seq<Point>)
    requires Closes(true, lower, upper, pts, back)
    ensures OnOneLine(pts) <==> |Ring(lower, upper)| == 2
  {
    if |lower| >= 3 {
      Bends(true, lower, pts);
    } else if |upper| >= 3 {
      Bends(false, upper, back);
      SameLine(pts, back);
    } else {
      var a, m := lower[0], lower[1];
      forall q | q in pts ensures Cross(a, m, q) == 0.0 {
        assert LeftOfEdges(lower, q) && LeftOfEdges(upper, q);
      }
      OneLine(a, m, pts);
    }
  }

  // p comes first of the points in the order of the sweep.
  ghost predicate Leads(forward: bool, p: Point, points: seq<Point>) {
    forall q :: q in points ==> q == p || Ahead(forward, p, q)
  }

  // The ring rises from the first point in sort order to corner k, the last one,
  // and falls back.
  ghost predicate Peaks(ring: seq<Point>, k: nat, points: seq<Point>)
    requires k < |ring|
  {
    && Leads(true, ring[0], points) && Leads(false, ring[k], points)
    && Swept(true, ring[..k + 1]) && Swept(false, ring[k..])
  }

  ghost predicate Distinct(ring: seq<Point>) {
    forall i, j :: 0 <= i < j < |ring| ==> ring[i] != ring[j]
  }

  // What convexHull promises: a ring of input points, none of them twice, rising
  // from the first point in sort order to the last and falling back, that no input
  // point lies outside of; without a redundant corner unless the input is on one
  // line, and then its two ends, or its one point.
  ghost predicate IsHullOf(hull: seq<Point>, points: seq<Point>) {
    && (forall p :: p in hull ==> p in points)
    && (hull == [] <==> points == [])
    && Encloses(hull, points)
    && Distinct(hull)
    && (hull != [] ==> exists k: nat :: k < |hull| && Peaks(hull, k, points))
    && (OnOneLine(points) ==> |hull| <= 2)
    && (!OnOneLine(points) ==> |hull| >= 3 && StrictlyConvex(hull))
  }

  lemma FewPoints(pts: seq<Point>)
    requires Swept(true, pts) && |pts| <= 2
    ensures IsHullOf(pts, pts)
  {
    if pts != [] {
      var k := |pts| - 1;
      assert pts[..k + 1] == pts && pts[k..] == [pts[k]];
      assert Peaks(pts, k, pts);
    }
    forall p, q, r | p in pts && q in pts && r in pts ensures Cross(p, q, r) == 0.0 {
      assert p == q || q == r || p == r;
    }
  }

  // A lower chain a, m, b does not turn left at a corner m that it shares with
  // an edge c, m of the upper chain.
  lemma SharedCorner(a: Point, m: Point, b: Point, c: Point)
    requires Before(a, m) && Before(m, b) && Before(m, c)
    requires Cross(c, m, a) >= 0.0 && Cross(c, m, b) >= 0.0
    ensures Cross(a, m, b) <= 0.0
  {
    Transitive(b.lng - m.lng, b.lat - m.lat, c.lng - m.lng, c.lat - m.lat, m.lng - a.lng, m.lat - a.lat);
  }

  // The two chains share their ends alone.
  lemma ChainsApart(lower: seq<Point>, upper: seq<Point>, pts: seq<Point>, back: seq<Point>, i: nat, j: nat)
    requires Closes(true, lower, upper, pts, back) && i < |lower| - 1 && j < |upper| - 1
    ensures lower[i] != upper[j]
  {
    hide Cross, OnOneLine;
    if i > 0 && j > 0 && lower[i] == upper[j] {
      var a, m, b, c := lower[i - 1], lower[i], lower[i + 1], upper[j - 1];
      assert a in back && b in back;
      assert LeftOfEdges(upper, a) && LeftOfEdges(upper, b);
      SharedCorner(a, m, b, c);
      assert false;
    }
  }

  lemma RingDistinct(lower: seq<Point>, upper: seq<Point>, pts: seq<Point>, back: seq<Point>)
    requires Closes(true, lower, upper, pts, back)
    ensures Distinct(Ring(lower, upper))
  {
    hide Cross, TurnsLeft, LeftOfEdges;
    var ring, l := Ring(lower, upper), |lower| - 1;
    forall i, j | 0 <= i < j < |ring| ensures ring[i] != ring[j] {
      if i < l <= j {
        ChainsApart(lower, upper, pts, back, i, j - l);
      }
    }
  }

  lemma RingPeaks(lower: seq<Point>, upper: seq<Point>, pts: seq<Point>, back: seq<Point>)
    requires Closes(true, lower, upper, pts, back) && Swept(true, pts) && Swept(false, back)
    ensures Peaks(Ring(lower, upper), |lower| - 1, pts)
  {
    hide Cross, TurnsLeft, LeftOfEdges;
    var ring, k := Ring(lower, upper), |lower| - 1;
    assert ring[..k + 1] == lower && ring[k..] == upper[..|upper| - 1];
    forall q | q in pts ensures q == ring[0] || Before(ring[0], q) {
      FirstOfSweep(true, pts, q);
    }
    forall q | q in pts ensures q == ring[k] || Before(q, ring[k]) {
      FirstOfSweep(false, back, q);
    }
  }

  lemma RingIsHull(lower: seq<Point>, upper: seq<Point>, pts: seq<Point>, back: seq<Point>)
    requires Closes(true, lower, upper, pts, back) && Swept(true, pts) && Swept(false, back)
    ensures IsHullOf(Ring(lower, upper), pts)
  {
    hide Cross, Peaks, Distinct, Swept;
    RingEncloses(lower, upper, pts, back);
    RingFlat(lower, upper, pts, back);
    if !OnOneLine(pts) {
      RingConvex(lower, upper, pts, back);
    }
    RingDistinct(lower, upper, pts, back);
    RingPeaks(lower, upper, pts, back);
  }

  lemma BothEnds(forward: bool, chain: seq<Point>, pts: seq<Point>)
    requires Supports(forward, chain, pts) && Swept(forward, pts) && |pts| >= 2
    ensures |chain| >= 2 && chain[0] == pts[0] && chain[|chain| - 1] == pts[|pts| - 1]
  {
  }

  lemma ChainsClose(pts: seq<Point>, back: seq<Point>)
    requires Swept(true, pts) && Swept(false, back) && |pts| >= 2 && |back| == |pts|
    requires back[0] == pts[|pts| - 1] && back[|pts| - 1] == pts[0]
    requires forall q :: q in back <==> q in pts
    ensures Closes(true, Chain(pts), Chain(back), pts, back)
  {
    hide Cross, Supports, Swept, Chain, Extend;
    ChainSupports(true, pts);
    ChainSupports(false, back);
    BothEnds(true, Chain(pts), pts);
    BothEnds(false, Chain(back), back);
  }

  // Being a hull depends on the points as a set only.
  lemma SameHull(hull: seq<Point>, pts: seq<Point>, points: seq<Point>)
    requires IsHullOf(hull, pts)
    requires forall q :: q in pts <==> q in points
    ensures IsHullOf(hull, points)
  {
    hide Cross, Swept, Ahead, OnOneLine, StrictlyConvex;
    SameLine(pts, points);
    assert points != [] ==> points[0] in points;
    assert pts != [] ==> pts[0] in pts;
    if hull != [] {
      var k: nat :| k < |hull| && Peaks(hull, k, pts);
      assert Peaks(hull, k, points);
    }
  }

  // The hull of the points, whatever their order and however often repeated.
  lemma HullCorrect(points: seq<Point>)
    ensures IsHullOf(HullOf(SortUnique(points)), points)
  {
    hide Cross, IsHullOf, Closes, Swept;
    var pts := SortUnique(points);
    SortUniqueSorts(points);
    if |pts| <= 2 {
      FewPoints(pts);
    } else {
      ReversedSweep(pts);
      ChainsClose(pts, Reversed(pts));
      RingIsHull(Chain(pts), Chain(Reversed(pts)), pts, Reversed(pts));
    }
    SameHull(HullOf(pts), pts, points);
  }

  // ----- and no other ring is -----

  // Two chains with the same ends, each with the other's corners on its left.
  ghost predicate Rivals(forward: bool, one: seq<Point>, two: seq<Point>) {
    && |one| >= 1 && |two| >= 1
    && one[0] == two[0] && one[|one| - 1] == two[|two| - 1]
    && Swept(forward, one) && Swept(forward, two) && TurnsLeft(one) && TurnsLeft(two)
    && (forall q :: q in two ==> LeftOfEdges(one, q))
    && (forall q :: q in one ==> LeftOfEdges(two, q))
  }

  // A corner a before b on one line from o: what the chain turns to next has b on
  // its right.
  lemma Overshoots(forward: bool, o: Point, a: Point, b: Point, next: Point)
    requires Ahead(forward, o, a) && Ahead(forward, a, b) && Ahead(forward, a, next)
    requires Cross(o, a, b) == 0.0 && Cross(o, a, next) > 0.0
    ensures Cross(a, next, b) < 0.0
  {
    if Cross(a, next, b) >= 0.0 {
      Mirrored(a, next, b);
      Mirrored(a, b, o);
      Steps(o, a, b);
      if forward {
        Transitive(next.lng - a.lng, next.lat - a.lat, b.lng - a.lng, b.lat - a.lat, a.lng - o.lng, a.lat - o.lat);
      } else {
        Transitive(a.lng - next.lng, a.lat - next.lat, a.lng - b.lng, a.lat - b.lat, o.lng - a.lng, o.lat - a.lat);
      }
    }
  }

  lemma Mirrored(o: Point, a: Point, b: Point)
    ensures Cross(o, a, b) == (o.lng - a.lng) * (o.lat - b.lat) - (o.lat - a.lat) * (o.lng - b.lng)
  {
  }

  lemma SecondNotShort(forward: bool, one: seq<Point>, two: seq<Point>)
    requires Rivals(forward, one, two) && |one| >= 2 && |two| >= 2
    ensures !Ahead(forward, one[1], two[1])
  {
    hide Cross;
    var o, a, b := one[0], one[1], two[1];
    if Ahead(forward, a, b) {
      assert |one| >= 3 by {
        assert |two| >= 3 ==> Ahead(forward, b, two[|two| - 1]);
      }
      assert LeftOfEdges(one, b) && LeftOfEdges(two, a);
      Flip(o, a, b);
      Overshoots(forward, o, a, b, one[2]);
      assert false;
    }
  }

  lemma Flip(o: Point, a: Point, b: Point)
    ensures Cross(o, a, b) == -Cross(o, b, a)
  {
  }

  lemma RivalTails(forward: bool, one: seq<Point>, two: seq<Point>)
    requires Rivals(forward, one, two) && |one| >= 2 && |two| >= 2 && one[1] == two[1]
    ensures Rivals(forward, one[1..], two[1..])
  {
    hide Cross;
    forall q | q in two[1..] ensures LeftOfEdges(one[1..], q) {
      assert LeftOfEdges(one, q);
    }
    forall q | q in one[1..] ensures LeftOfEdges(two[1..], q) {
      assert LeftOfEdges(two, q);
    }
  }

  lemma {:induction false} OneChain(forward: bool, one: seq<Point>, two: seq<Point>)
    requires Rivals(forward, one, two)
    ensures one == two
    decreases |one|
  {
    hide Cross, LeftOfEdges, TurnsLeft;
    if |one| >= 2 && |two| >= 2 {
      SecondNotShort(forward, one, two);
      SecondNotShort(forward, two, one);
      RivalTails(forward, one, two);
      OneChain(forward, one[1..], two[1..]);
      assert one == [one[0]] + one[1..] && two == [two[0]] + two[1..];
    }
  }

  // On one line the hull is the two ends.
  lemma FlatHull(hull: seq<Point>, points: seq<Point>, first: Point, last: Point)
    requires IsHullOf(hull, points) && OnOneLine(points)
    requires first in points && Leads(true, first, points)
    requires last in points && Leads(false, last, points)
    ensures hull == if first == last then [first] else [first, last]
  {
    hide Cross, OnOneLine, Encloses, StrictlyConvex, Peaks, Leads;
    var k: nat :| k < |hull| && Peaks(hull, k, points);
    PeakEnds(hull, points, k);
    OneLead(true, hull[0], first, points);
    OneLead(false, hull[k], last, points);
    if |hull| == 2 {
      NotAtFirst(hull, points, k);
      assert hull == [hull[0], hull[1]] && hull[0] != hull[1];
    }
  }

  lemma OneLead(forward: bool, p: Point, q: Point, points: seq<Point>)
    requires p in points && q in points && Leads(forward, p, points) && Leads(forward, q, points)
    ensures p == q
  {
  }

  // The two chains of a strictly convex ring.
  function Rising(ring: seq<Point>, k: nat): seq<Point>
    requires k < |ring|
  {
    ring[..k + 1]
  }

  function Falling(ring: seq<Point>, k: nat): seq<Point>
    requires k < |ring|
  {
    ring[k..] + [ring[0]]
  }

  // Each is swept, turns left and has all points on its left.
  ghost predicate Walls(forward: bool, chain: seq<Point>, points: seq<Point>) {
    && |chain| >= 1 && Leads(forward, chain[0], points) && Leads(!forward, chain[|chain| - 1], points)
    && Swept(forward, chain) && TurnsLeft(chain)
    && (forall q :: q in chain ==> q in points)
    && (forall q :: q in points ==> LeftOfEdges(chain, q))
  }

  lemma RisingWalls(hull: seq<Point>, points: seq<Point>, k: nat)
    requires IsHullOf(hull, points) && !OnOneLine(points) && k < |hull| && Peaks(hull, k, points)
    ensures Walls(true, Rising(hull, k), points)
  {
    hide Cross, OnOneLine, Swept, Distinct;
    var chain, n := Rising(hull, k), |hull|;
    forall i: nat, j, l | j == i + 1 && l == j + 1 && l < |chain| ensures Cross(chain[i], chain[j], chain[l]) > 0.0 {
      assert Next(i, n) == j && Next(j, n) == l;
    }
    forall q | q in points ensures LeftOfEdges(chain, q) {
      forall i, j | 0 <= i && j == i + 1 && j < |chain| ensures Cross(chain[i], chain[j], q) >= 0.0 {
        assert Next(i, n) == j;
      }
    }
  }

  lemma FallingEdge(hull: seq<Point>, k: nat, i: nat)
    requires k < |hull| && i < |hull| - k
    ensures var chain := Falling(hull, k);
            |chain| == |hull| - k + 1 && chain[i] == hull[k + i] && chain[i + 1] == hull[Next(k + i, |hull|)]
  {
  }

  lemma FallingTurns(hull: seq<Point>, k: nat)
    requires StrictlyConvex(hull) && k < |hull|
    ensures TurnsLeft(Falling(hull, k))
  {
    hide Cross, Falling;
    var chain := Falling(hull, k);
    FallingEdge(hull, k, 0);
    forall i: nat, j, l | j == i + 1 && l == j + 1 && l < |chain| ensures Cross(chain[i], chain[j], chain[l]) > 0.0 {
      FallingEdge(hull, k, i);
      FallingEdge(hull, k, j);
    }
  }

  lemma FallingLeft(hull: seq<Point>, points: seq<Point>, k: nat, q: Point)
    requires Encloses(hull, points) && k < |hull| && q in points
    ensures LeftOfEdges(Falling(hull, k), q)
  {
    hide Cross, Falling;
    var chain := Falling(hull, k);
    FallingEdge(hull, k, 0);
    forall i: nat, j | j == i + 1 && j < |chain| ensures Cross(chain[i], chain[j], q) >= 0.0 {
      FallingEdge(hull, k, i);
    }
  }

  lemma FallingWalls(hull: seq<Point>, points: seq<Point>, k: nat)
    requires IsHullOf(hull, points) && !OnOneLine(points) && k < |hull| && Peaks(hull, k, points)
    ensures Walls(false, Falling(hull, k), points)
  {
    hide Cross, OnOneLine, Encloses, StrictlyConvex, TurnsLeft, LeftOfEdges, Distinct, Swept, Ahead;
    NotAtFirst(hull, points, k);
    FallsToFirst(hull, points, k);
    FallingTurns(hull, k);
    forall q | q in points ensures LeftOfEdges(Falling(hull, k), q) {
      FallingLeft(hull, points, k, q);
    }
    assert forall q :: q in Falling(hull, k) ==> q in points;
  }

  lemma FallsToFirst(hull: seq<Point>, points: seq<Point>, k: nat)
    requires Distinct(hull) && (forall p :: p in hull ==> p in points)
    requires 0 < k < |hull| && Peaks(hull, k, points)
    ensures Swept(false, Falling(hull, k))
  {
    var chain := Falling(hull, k);
    forall i | 0 <= i < |chain| - 1 ensures Before(hull[0], chain[i]) {
      assert chain[i] == hull[k + i] && hull[k + i] in points;
    }
  }

  lemma WallsRival(forward: bool, one: seq<Point>, two: seq<Point>, points: seq<Point>)
    requires Walls(forward, one, points) && Walls(forward, two, points)
    ensures Rivals(forward, one, two)
  {
    hide Cross, LeftOfEdges, TurnsLeft, Swept;
    assert one[0] in points && two[0] in points;
    assert one[|one| - 1] in points && two[|two| - 1] in points;
  }

  lemma NotAtFirst(hull: seq<Point>, points: seq<Point>, k: nat)
    requires Distinct(hull) && (forall p :: p in hull ==> p in points)
    requires |hull| >= 2 && k < |hull| && Peaks(hull, k, points)
    ensures k > 0
  {
    assert hull[1] in points;
  }

  lemma OneHull(hull: seq<Point>, other: seq<Point>, points: seq<Point>)
    requires IsHullOf(hull, points) && IsHullOf(other, points)
    ensures hull == other
  {
    hide Cross, Peaks, Encloses, StrictlyConvex, OnOneLine, Walls, Distinct, Rivals;
    if hull != [] {
      var k: nat :| k < |hull| && Peaks(hull, k, points);
      var l: nat :| l < |other| && Peaks(other, l, points);
      if OnOneLine(points) {
        PeakEnds(hull, points, k);
        FlatHull(hull, points, hull[0], hull[k]);
        FlatHull(other, points, hull[0], hull[k]);
      } else {
        RisingWalls(hull, points, k);
        RisingWalls(other, points, l);
        WallsRival(true, Rising(hull, k), Rising(other, l), points);
        OneChain(true, Rising(hull, k), Rising(other, l));
        FallingWalls(hull, points, k);
        FallingWalls(other, points, l);
        WallsRival(false, Falling(hull, k), Falling(other, l), points);
        OneChain(false, Falling(hull, k), Falling(other, l));
        assert |Rising(hull, k)| == k + 1 && |Rising(other, l)| == l + 1;
        assert hull == hull[..k] + Falling(hull, k)[..|hull| - k];
        assert other == other[..k] + Falling(other, k)[..|other| - k];
        assert hull[..k] == Rising(hull, k)[..k] && other[..k] == Rising(other, k)[..k];
      }
    }
  }

  lemma PeakEnds(hull: seq<Point>, points: seq<Point>, k: nat)
    requires k < |hull| && Peaks(hull, k, points)
    ensures Leads(true, hull[0], points) && Leads(false, hull[k], points)
  {
  }

  // A finite set of points has one hull: the ring, its first corner and its
  // direction are all decided by what it is to be.
  lemma HullUnique(hull: seq<Point>, points: seq<Point>)
    ensures IsHullOf(hull, points) <==> hull == HullOf(SortUnique(points))
  {
    hide IsHullOf;
    HullCorrect(points);
    if IsHullOf(hull, points) {
      OneHull(hull, HullOf(SortUnique(points)), points);
    }
  }

  // ----- the loops of the program -----

  method BuildChain(pts: seq<Point>) returns (chain: seq<Point>)
    ensures chain == Chain(pts)
  {
    chain := [];
    for i := 0 to |pts|
      invariant chain == Chain(pts[..i])
    {
      var p := pts[i];
      ghost var before := chain;
      while |chain| >= 2 && Cross(chain[|chain| - 2], chain[|chain| - 1], p) <= 0.0
        invariant Extend(chain, p) == Extend(before, p)
        decreases |chain|
      {
        chain := chain[..|chain| - 1];
      }
      chain := chain + [p];
      assert pts[..i + 1][..i] == pts[..i];
    }
    assert pts[..|pts|] == pts;
  }

  method ConvexHull(points: seq<Point>) returns (hull: seq<Point>)
    ensures IsHullOf(hull, points)
  {
    hide Cross, IsHullOf, Extend, Chain, Insert, SortUnique;
    var pts := SortUnique(points);
    if |pts| <= 2 {
      hull := pts;
    } else {
      var lower := BuildChain(pts);
      var upper := BuildChain(Reversed(pts));
      hull := lower[..|lower| - 1] + upper[..|upper| - 1];
    }
    HullCorrect(points);
  }
}
