// The fleet's working area: the busiest cells that explain a share of all
// activity, wrapped in a convex hull. Weights and coordinates are exact.
module ProjectArea {
  import opened MonotoneChain

  datatype Cell = Cell(gy: int, gx: int, weight: real)

  datatype Box = Box(south: real, west: real, north: real, east: real)

  datatype Area =
    | NoActivity
    | Area(kept: seq<Cell>, hull: seq<Point>, bbox: Box, coverage: real)

  function Weight(cells: seq<Cell>): real {
    if cells == [] then 0.0 else cells[0].weight + Weight(cells[1..])
  }

  // All activity: negative weights count as none.
  function Activity(cells: seq<Cell>): real {
    if cells == [] then 0.0
    else (if cells[0].weight > 0.0 then cells[0].weight else 0.0) + Activity(cells[1..])
  }

  function Busy(cells: seq<Cell>): seq<Cell> {
    if cells == [] then []
    else (if cells[0].weight > 0.0 then [cells[0]] else []) + Busy(cells[1..])
  }

  // ----- the stable sort, heaviest first -----

  function InsertByWeight(sorted: seq<Cell>, c: Cell): seq<Cell> {
    if sorted == [] then [c]
    else if sorted[0].weight >= c.weight then [sorted[0]] + InsertByWeight(sorted[1..], c)
    else [c] + sorted
  }

  function SortByWeight(cells: seq<Cell>): seq<Cell> {
    if cells == [] then []
    else InsertByWeight(SortByWeight(cells[..|cells| - 1]), cells[|cells| - 1])
  }

  ghost predicate HeaviestFirst(cells: seq<Cell>) {
    forall i, j :: 0 <= i < j < |cells| ==> cells[i].weight >= cells[j].weight
  }

  function OfWeight(cells: seq<Cell>, w: real): seq<Cell> {
    if cells == [] then []
    else (if cells[0].weight == w then [cells[0]] else []) + OfWeight(cells[1..], w)
  }

  lemma {:induction false} InsertPermutes(sorted: seq<Cell>, c: Cell)
    ensures multiset(InsertByWeight(sorted, c)) == multiset(sorted) + multiset{c}
  {
    if sorted != [] {
      InsertPermutes(sorted[1..], c);
      assert sorted == [sorted[0]] + sorted[1..];
    }
  }

  lemma {:induction false} InsertSorted(sorted: seq<Cell>, c: Cell)
    requires HeaviestFirst(sorted)
    ensures HeaviestFirst(InsertByWeight(sorted, c))
  {
    if sorted != [] && sorted[0].weight >= c.weight {
      var rest := InsertByWeight(sorted[1..], c);
      InsertSorted(sorted[1..], c);
      InsertPermutes(sorted[1..], c);
      forall i | 0 <= i < |rest| ensures sorted[0].weight >= rest[i].weight {
        assert rest[i] in multiset(rest);
        assert rest[i] == c || rest[i] in sorted[1..];
      }
    }
  }

  lemma {:induction false} SortSorts(cells: seq<Cell>)
    ensures HeaviestFirst(SortByWeight(cells))
    ensures multiset(SortByWeight(cells)) == multiset(cells)
  {
    if cells != [] {
      var n := |cells| - 1;
      SortSorts(cells[..n]);
      InsertSorted(SortByWeight(cells[..n]), cells[n]);
      InsertPermutes(SortByWeight(cells[..n]), cells[n]);
      assert cells == cells[..n] + [cells[n]];
    }
  }

  lemma {:induction false} OfWeightAppend(cells: seq<Cell>, c: Cell, w: real)
    ensures OfWeight(cells + [c], w) == OfWeight(cells, w) + (if c.weight == w then [c] else [])
  {
    if cells != [] {
      OfWeightAppend(cells[1..], c, w);
      assert (cells + [c])[1..] == cells[1..] + [c];
    }
  }

  lemma {:induction false} InsertStable(sorted: seq<Cell>, c: Cell, w: real)
    requires HeaviestFirst(sorted)
    ensures OfWeight(InsertByWeight(sorted, c), w) == OfWeight(sorted + [c], w)
  {
    OfWeightAppend(sorted, c, w);
    if sorted != [] {
      if sorted[0].weight >= c.weight {
        InsertStable(sorted[1..], c, w);
        OfWeightAppend(sorted[1..], c, w);
      } else if c.weight == w {
        LighterOnly(sorted, w);
      }
    }
  }

  lemma {:induction false} LighterOnly(cells: seq<Cell>, w: real)
    requires forall i :: 0 <= i < |cells| ==> cells[i].weight < w
    ensures OfWeight(cells, w) == []
  {
    if cells != [] {
      LighterOnly(cells[1..], w);
    }
  }

  // Cells of equal weight keep their order.
  lemma {:induction false} SortStable(cells: seq<Cell>, w: real)
    ensures OfWeight(SortByWeight(cells), w) == OfWeight(cells, w)
  {
    if cells != [] {
      var n := |cells| - 1;
      SortSorts(cells[..n]);
      SortStable(cells[..n], w);
      InsertStable(SortByWeight(cells[..n]), cells[n], w);
      OfWeightAppend(SortByWeight(cells[..n]), cells[n], w);
      OfWeightAppend(cells[..n], cells[n], w);
      assert cells == cells[..n] + [cells[n]];
    }
  }

  // ----- the exchange argument -----

  lemma {:induction false} WeightAppend(a: seq<Cell>, b: seq<Cell>)
    ensures Weight(a + b) == Weight(a) + Weight(b)
  {
    if a == [] {
      assert a + b == b;
    } else {
      WeightAppend(a[1..], b);
      assert (a + b)[1..] == a[1..] + b;
    }
  }

  function Without(cells: seq<Cell>, k: nat): seq<Cell>
    requires k < |cells|
  {
    cells[..k] + cells[k + 1..]
  }

  lemma RemoveAt(cells: seq<Cell>, k: nat)
    requires k < |cells|
    ensures Weight(cells) == cells[k].weight + Weight(Without(cells, k))
    ensures multiset(cells) == multiset(Without(cells, k)) + multiset{cells[k]}
  {
    RemoveWeight(cells, k);
    RemoveOne(cells, k);
  }

  lemma RemoveWeight(cells: seq<Cell>, k: nat)
    requires k < |cells|
    ensures Weight(cells) == cells[k].weight + Weight(Without(cells, k))
  {
    var head, tail := cells[..k], cells[k..];
    WeightAppend(head, tail);
    WeightAppend(head, tail[1..]);
    HeadWeight(tail);
    hide Weight;
    assert cells == head + tail;
    assert tail[1..] == cells[k + 1..];
  }

  lemma HeadWeight(cells: seq<Cell>)
    requires cells != []
    ensures Weight(cells) == cells[0].weight + Weight(cells[1..])
  {
  }

  lemma RemoveOne(cells: seq<Cell>, k: nat)
    requires k < |cells|
    ensures multiset(cells) == multiset(Without(cells, k)) + multiset{cells[k]}
  {
    assert cells == cells[..k] + ([cells[k]] + cells[k + 1..]);
  }

  lemma DropBoth(rest: multiset<Cell>, tail: multiset<Cell>, c: Cell, head: Cell)
    requires rest + multiset{c} <= tail + multiset{head}
    requires c == head || (rest + multiset{c})[head] == 0
    ensures rest <= tail
  {
    forall x | x in rest ensures rest[x] <= tail[x] {
      assert (rest + multiset{c})[x] <= (tail + multiset{head})[x];
    }
  }

  // One of the others can be dropped with the heaviest cell and weighs no more.
  lemma DropOne(sorted: seq<Cell>, others: seq<Cell>) returns (at: nat)
    requires HeaviestFirst(sorted) && others != [] && multiset(others) <= multiset(sorted)
    ensures sorted != [] && at < |others| && others[at].weight <= sorted[0].weight
    ensures multiset(Without(others, at)) <= multiset(sorted[1..])
  {
    hide Without;
    assert others[0] in multiset(others) && others[0] in multiset(sorted);
    at := 0;
    if sorted[0] in others {
      at :| 0 <= at < |others| && others[at] == sorted[0];
    }
    RemoveAt(others, at);
    RemoveAt(sorted, 0);
    assert Without(sorted, 0) == sorted[1..] by {
      FirstOut(sorted);
    }
    DropBoth(multiset(Without(others, at)), multiset(sorted[1..]), others[at], sorted[0]);
  }

  lemma FirstOut(cells: seq<Cell>)
    requires cells != []
    ensures Without(cells, 0) == cells[1..]
  {
  }

  // No choice of at most k cells outweighs the k heaviest.
  lemma {:induction false} HeaviestOutweigh(sorted: seq<Cell>, others: seq<Cell>, k: nat)
    requires HeaviestFirst(sorted) && forall i :: 0 <= i < |sorted| ==> sorted[i].weight >= 0.0
    requires multiset(others) <= multiset(sorted)
    requires |others| <= k <= |sorted|
    ensures Weight(others) <= Weight(sorted[..k])
  {
    if others == [] {
      NonNegative(sorted[..k]);
    } else {
      hide Without;
      var at := DropOne(sorted, others);
      RemoveAt(others, at);
      HeaviestOutweigh(sorted[1..], Without(others, at), k - 1);
      assert sorted[..k][1..] == sorted[1..][..k - 1];
    }
  }

  lemma {:induction false} NonNegative(cells: seq<Cell>)
    requires forall i :: 0 <= i < |cells| ==> cells[i].weight >= 0.0
    ensures Weight(cells) >= 0.0
  {
    if cells != [] {
      NonNegative(cells[1..]);
    }
  }

  lemma {:induction false} BusyCells(cells: seq<Cell>)
    ensures Weight(Busy(cells)) == Activity(cells) >= Weight(cells)
    ensures |Busy(cells)| <= |cells|
    ensures forall i :: 0 <= i < |Busy(cells)| ==> Busy(cells)[i].weight > 0.0
  {
    if cells != [] {
      BusyCells(cells[1..]);
      var busy, rest := Busy(cells), Busy(cells[1..]);
      if cells[0].weight > 0.0 {
        assert busy == [cells[0]] + rest && busy[1..] == rest;
      } else {
        assert busy == rest;
      }
    }
  }

  lemma {:induction false} BusyCount(cells: seq<Cell>, c: Cell)
    ensures multiset(Busy(cells))[c] == if c.weight > 0.0 then multiset(cells)[c] else 0
  {
    if cells != [] {
      BusyCount(cells[1..], c);
      assert multiset(cells) == multiset{cells[0]} + multiset(cells[1..]) by {
        assert cells == [cells[0]] + cells[1..];
      }
    }
  }

  lemma BusyWithin(others: seq<Cell>, cells: seq<Cell>)
    requires multiset(others) <= multiset(cells)
    ensures multiset(Busy(others)) <= multiset(Busy(cells)) <= multiset(cells)
  {
    forall c | true ensures multiset(Busy(others))[c] <= multiset(Busy(cells))[c] <= multiset(cells)[c] {
      BusyCount(others, c);
      BusyCount(cells, c);
    }
  }

  lemma {:induction false} WeightOfPermutation(a: seq<Cell>, b: seq<Cell>)
    requires multiset(a) == multiset(b)
    ensures Weight(a) == Weight(b)
  {
    hide Without;
    if a == [] {
      assert |multiset(b)| == 0;
    } else {
      assert a[0] in multiset(a) && a[0] in b;
      var at :| 0 <= at < |b| && b[at] == a[0];
      RemoveAt(b, at);
      RemoveAt(a, 0);
      FirstOut(a);
      SamePlusOne(multiset(a[1..]), multiset(Without(b, at)), a[0]);
      WeightOfPermutation(a[1..], Without(b, at));
    }
  }

  lemma SamePlusOne(a: multiset<Cell>, b: multiset<Cell>, c: Cell)
    requires a + multiset{c} == b + multiset{c}
    ensures a == b
  {
    assert a == a + multiset{c} - multiset{c};
    assert b == b + multiset{c} - multiset{c};
  }

  // ----- the cells that are kept -----

  // The shortest non-empty prefix of the sorted cells whose weight is the share,
  // or all of them.
  ghost predicate StopsAtShare(kept: seq<Cell>, sorted: seq<Cell>, total: real, share: real) {
    && 1 <= |kept| <= |sorted| && kept == sorted[..|kept|]
    && (forall j :: 1 <= j < |kept| ==> Weight(sorted[..j]) < share * total)
    && (Weight(kept) >= share * total || |kept| == |sorted|)
  }

  // No set of fewer cells, however chosen, reaches the share.
  ghost predicate SmallestCover(kept: seq<Cell>, cells: seq<Cell>, needed: real) {
    && multiset(kept) <= multiset(cells)
    && Weight(kept) >= needed
    && forall others: seq<Cell> :: FallsShort(others, cells, |kept|, needed)
  }

  ghost predicate FallsShort(others: seq<Cell>, cells: seq<Cell>, size: nat, needed: real) {
    multiset(others) <= multiset(cells) && |others| < size ==> Weight(others) < needed
  }

  lemma SortedBusy(cells: seq<Cell>)
    ensures var sorted := SortByWeight(Busy(cells));
            && HeaviestFirst(sorted) && Weight(sorted) == Activity(cells)
            && multiset(sorted) == multiset(Busy(cells))
            && forall i :: 0 <= i < |sorted| ==> sorted[i].weight >= 0.0
  {
    var sorted := SortByWeight(Busy(cells));
    SortSorts(Busy(cells));
    BusyCells(cells);
    WeightOfPermutation(sorted, Busy(cells));
    forall i | 0 <= i < |sorted| ensures sorted[i].weight >= 0.0 {
      assert sorted[i] in multiset(sorted);
      assert sorted[i] in Busy(cells);
    }
  }

  lemma FewerFallShort(kept: seq<Cell>, others: seq<Cell>, cells: seq<Cell>, share: real)
    requires 0.0 < share <= 1.0 && Activity(cells) > 0.0
    requires StopsAtShare(kept, SortByWeight(Busy(cells)), Activity(cells), share)
    requires multiset(others) <= multiset(cells) && |others| < |kept|
    ensures Weight(others) < share * Activity(cells)
  {
    hide Weight, Activity, Busy, SortByWeight;
    var sorted := SortByWeight(Busy(cells));
    SortedBusy(cells);
    BusyCells(others);
    BusyWithin(others, cells);
    HeaviestOutweigh(sorted, Busy(others), |kept| - 1);
    assert sorted[..0] == [];
    NoCells();
    assert share * Activity(cells) > 0.0;
  }

  lemma AnyFallsShort(kept: seq<Cell>, others: seq<Cell>, cells: seq<Cell>, share: real, needed: real)
    requires 0.0 < share <= 1.0 && Activity(cells) > 0.0 && needed == share * Activity(cells)
    requires StopsAtShare(kept, SortByWeight(Busy(cells)), Activity(cells), share)
    ensures FallsShort(others, cells, |kept|, needed)
  {
    if multiset(others) <= multiset(cells) && |others| < |kept| {
      FewerFallShort(kept, others, cells, share);
    }
  }

  lemma NoCells()
    ensures Weight([]) == 0.0
  {
  }

  lemma Prefix(cells: seq<Cell>, k: nat)
    requires k <= |cells|
    ensures multiset(cells[..k]) <= multiset(cells)
  {
    assert cells == cells[..k] + cells[k..];
  }

  lemma KeptReaches(kept: seq<Cell>, cells: seq<Cell>, share: real)
    requires 0.0 < share <= 1.0 && Activity(cells) > 0.0
    requires StopsAtShare(kept, SortByWeight(Busy(cells)), Activity(cells), share)
    ensures multiset(kept) <= multiset(cells) && Weight(kept) >= share * Activity(cells)
  {
    hide Weight, Activity, Busy, SortByWeight, HeaviestFirst;
    var total, sorted := Activity(cells), SortByWeight(Busy(cells));
    SortedBusy(cells);
    BusyWithin(cells, cells);
    Prefix(sorted, |kept|);
    assert share * total <= total;
    assert |kept| == |sorted| ==> kept == sorted;
  }

  lemma KeepsFewest(kept: seq<Cell>, cells: seq<Cell>, share: real, needed: real)
    requires 0.0 < share <= 1.0 && Activity(cells) > 0.0 && needed == share * Activity(cells)
    requires StopsAtShare(kept, SortByWeight(Busy(cells)), Activity(cells), share)
    ensures SmallestCover(kept, cells, needed)
  {
    hide StopsAtShare, FallsShort;
    KeptReaches(kept, cells, share);
    forall others: seq<Cell> ensures FallsShort(others, cells, |kept|, needed) {
      AnyFallsShort(kept, others, cells, share, needed);
    }
  }

  // Outside (0, 1] the cells kept are no smallest cover: a share of nothing is
  // reached without a cell, and more than all is reached by none.
  lemma KeepsFewestExactly(kept: seq<Cell>, cells: seq<Cell>, share: real, needed: real)
    requires Activity(cells) > 0.0 && needed == share * Activity(cells)
    requires StopsAtShare(kept, SortByWeight(Busy(cells)), Activity(cells), share)
    ensures SmallestCover(kept, cells, needed) <==> 0.0 < share <= 1.0
  {
    assert kept != [];
    hide StopsAtShare, FallsShort, SmallestCover;
    if share <= 0.0 {
      NothingReaches(kept, cells, share, needed);
    } else if share > 1.0 {
      NoneReachMore(kept, cells, share, needed);
    } else {
      KeepsFewest(kept, cells, share, needed);
    }
  }

  lemma NothingReaches(kept: seq<Cell>, cells: seq<Cell>, share: real, needed: real)
    requires Activity(cells) > 0.0 && needed == share * Activity(cells) && share <= 0.0 && kept != []
    ensures !SmallestCover(kept, cells, needed)
  {
    NoCells();
    assert multiset([]) <= multiset(cells);
    assert needed <= 0.0;
    assert !FallsShort([], cells, |kept|, needed);
  }

  lemma NoneReachMore(kept: seq<Cell>, cells: seq<Cell>, share: real, needed: real)
    requires Activity(cells) > 0.0 && needed == share * Activity(cells) && share > 1.0
    ensures !SmallestCover(kept, cells, needed)
  {
    hide Weight, Activity, Busy, FallsShort;
    if multiset(kept) <= multiset(cells) {
      AllTheActivity(kept, cells);
      assert needed > Activity(cells);
    }
  }

  // No choice of cells weighs more than all activity.
  lemma AllTheActivity(others: seq<Cell>, cells: seq<Cell>)
    requires multiset(others) <= multiset(cells)
    ensures Weight(others) <= Activity(cells)
  {
    hide Weight, Activity, Busy, SortByWeight;
    var sorted := SortByWeight(Busy(cells));
    SortedBusy(cells);
    BusyCells(others);
    BusyWithin(others, cells);
    Fewer(Busy(others), sorted);
    HeaviestOutweigh(sorted, Busy(others), |sorted|);
    assert sorted[..|sorted|] == sorted;
  }

  lemma Fewer(a: seq<Cell>, b: seq<Cell>)
    requires multiset(a) <= multiset(b)
    ensures |a| <= |b|
  {
    assert |multiset(a)| == |a| && |multiset(b)| == |b|;
    assert multiset(b) == multiset(a) + (multiset(b) - multiset(a));
  }

  // ----- bounds -----

  function CellBounds(c: Cell, step: real): Box {
    var south, west := c.gy as real * step, c.gx as real * step;
    Box(south, west, south + step, west + step)
  }

  function Corners(cells: seq<Cell>, step: real): seq<Point> {
    if cells == [] then []
    else
      var n := |cells| - 1;
      var b := CellBounds(cells[n], step);
      Corners(cells[..n], step)
      + [Point(b.west, b.south), Point(b.east, b.south), Point(b.east, b.north), Point(b.west, b.north)]
  }

  // The smallest box around the cells: none sticks out and every side is met.
  ghost predicate Bounds(box: Box, cells: seq<Cell>, step: real) {
    && (forall c :: c in cells ==>
          var b := CellBounds(c, step);
          box.south <= b.south && box.west <= b.west && b.north <= box.north && b.east <= box.east)
    && (exists c :: c in cells && CellBounds(c, step).south == box.south)
    && (exists c :: c in cells && CellBounds(c, step).west == box.west)
    && (exists c :: c in cells && CellBounds(c, step).north == box.north)
    && (exists c :: c in cells && CellBounds(c, step).east == box.east)
  }

  function Min(a: real, b: real): real { if a <= b then a else b }
  function Max(a: real, b: real): real { if a <= b then b else a }

  function Grow(box: Box, b: Box): Box {
    Box(Min(box.south, b.south), Min(box.west, b.west), Max(box.north, b.north), Max(box.east, b.east))
  }

  lemma GrowBounds(box: Box, cells: seq<Cell>, c: Cell, step: real)
    requires Bounds(box, cells, step)
    ensures Bounds(Grow(box, CellBounds(c, step)), cells + [c], step)
  {
    hide CellBounds;
    var grown, b := Grow(box, CellBounds(c, step)), CellBounds(c, step);
    assert c in cells + [c];
    var s :| s in cells && CellBounds(s, step).south == box.south;
    var w :| w in cells && CellBounds(w, step).west == box.west;
    var n :| n in cells && CellBounds(n, step).north == box.north;
    var e :| e in cells && CellBounds(e, step).east == box.east;
    assert s in cells + [c] && w in cells + [c] && n in cells + [c] && e in cells + [c];
  }

  // ----- the grid -----

  // A point lies in the cell that its coordinates fall to, in whole steps.
  ghost predicate InCell(q: Point, c: Cell, step: real)
    requires step > 0.0
  {
    (q.lat / step).Floor == c.gy && (q.lng / step).Floor == c.gx
  }

  ghost function Steps(n: real, step: real): real { n * step }

  lemma MoreSteps(a: real, b: real, step: real)
    requires step > 0.0
    ensures Steps(a, step) <= Steps(b, step) <==> a <= b
    ensures Steps(a + 1.0, step) == Steps(a, step) + step
  {
    if a <= b {
      assert (b - a) * step >= 0.0;
    } else {
      assert (a - b) * step > 0.0;
    }
  }

  lemma BetweenSteps(q: real, step: real, m: real)
    requires step > 0.0
    ensures m <= q < m + 1.0 <==> Steps(m, step) <= Steps(q, step) < Steps(m, step) + step
  {
    hide Steps;
    MoreSteps(m, q, step);
    MoreSteps(m + 1.0, q, step);
  }

  lemma WholeSteps(x: real, step: real, n: int)
    requires step > 0.0
    ensures (x / step).Floor == n <==> Steps(n as real, step) <= x < Steps(n as real, step) + step
  {
    var q := x / step;
    assert Steps(q, step) == x;
    BetweenSteps(q, step, n as real);
    hide Steps;
    assert q.Floor == n <==> n as real <= q < n as real + 1.0;
  }

  lemma InSteps(c: Cell, step: real)
    ensures CellBounds(c, step) == Box(Steps(c.gy as real, step), Steps(c.gx as real, step),
                                       Steps(c.gy as real, step) + step, Steps(c.gx as real, step) + step)
  {
    var south, west := c.gy as real * step, c.gx as real * step;
    assert Steps(c.gy as real, step) == south && Steps(c.gx as real, step) == west;
  }

  // The bounds of a cell hold exactly the points that fall to it.
  lemma GridLaw(q: Point, c: Cell, step: real)
    requires step > 0.0
    ensures var b := CellBounds(c, step);
            b.south <= q.lat < b.north && b.west <= q.lng < b.east <==> InCell(q, c, step)
  {
    WholeSteps(q.lat, step, c.gy);
    WholeSteps(q.lng, step, c.gx);
    InSteps(c, step);
    hide Steps, CellBounds;
  }

  ghost predicate GridCorner(p: Point, c: Cell, step: real) {
    && (p.lat == c.gy as real * step || p.lat == (c.gy + 1) as real * step)
    && (p.lng == c.gx as real * step || p.lng == (c.gx + 1) as real * step)
  }

  lemma CellCorner(c: Cell, step: real, p: Point)
    ensures var b := CellBounds(c, step);
            GridCorner(p, c, step) <==> (p.lat == b.south || p.lat == b.north) && (p.lng == b.west || p.lng == b.east)
  {
    assert (c.gy + 1) as real * step == c.gy as real * step + step;
    assert (c.gx + 1) as real * step == c.gx as real * step + step;
  }

  lemma {:induction false} CornersAre(cells: seq<Cell>, step: real, p: Point)
    ensures p in Corners(cells, step) <==> exists c :: c in cells && GridCorner(p, c, step)
  {
    if cells != [] {
      var n := |cells| - 1;
      var b := CellBounds(cells[n], step);
      CornersAre(cells[..n], step, p);
      assert cells == cells[..n] + [cells[n]];
      CellCorner(cells[n], step, p);
      hide CellBounds, GridCorner;
      assert p in Corners(cells, step) <==>
             || p in Corners(cells[..n], step)
             || ((p.lat == b.south || p.lat == b.north) && (p.lng == b.west || p.lng == b.east));
    }
  }

  // Where the corners of a box are left of an edge, so is all of it.
  lemma BoxLeft(o: Point, a: Point, b: Box, q: Point)
    requires b.south <= q.lat <= b.north && b.west <= q.lng <= b.east
    requires Cross(o, a, Point(b.west, b.south)) >= 0.0 && Cross(o, a, Point(b.east, b.south)) >= 0.0
    requires Cross(o, a, Point(b.west, b.north)) >= 0.0 && Cross(o, a, Point(b.east, b.north)) >= 0.0
    ensures Cross(o, a, q) >= 0.0
  {
    var dx, dy := a.lng - o.lng, a.lat - o.lat;
    var worst := Point(if dy >= 0.0 then b.east else b.west, if dx >= 0.0 then b.south else b.north);
    assert dx * (q.lat - worst.lat) >= 0.0;
    assert dy * (worst.lng - q.lng) >= 0.0;
    assert Cross(o, a, q) == Cross(o, a, worst) + dx * (q.lat - worst.lat) + dy * (worst.lng - q.lng);
  }

  // The area over the cells kept: every point of their ground is in the box and in
  // the hull, and the hull turns at corners of theirs alone.
  ghost predicate Covers(hull: seq<Point>, bbox: Box, kept: seq<Cell>, step: real)
    requires step > 0.0
  {
    && (forall c, q :: c in kept && InCell(q, c, step) ==>
          && bbox.south <= q.lat < bbox.north && bbox.west <= q.lng < bbox.east
          && forall i :: 0 <= i < |hull| ==> Cross(hull[i], hull[Next(i, |hull|)], q) >= 0.0)
    && (forall p :: p in hull ==> exists c :: c in kept && GridCorner(p, c, step))
  }

  lemma CoversKept(hull: seq<Point>, bbox: Box, kept: seq<Cell>, step: real)
    requires step > 0.0 && IsHullOf(hull, Corners(kept, step)) && Bounds(bbox, kept, step)
    ensures Covers(hull, bbox, kept, step)
  {
    forall p ensures p in Corners(kept, step) <==> exists c :: c in kept && GridCorner(p, c, step) {
      CornersAre(kept, step, p);
    }
    hide Cross, StrictlyConvex, OnOneLine, Distinct, Peaks, CellBounds, GridCorner, InCell, Corners;
    forall c, q | c in kept && InCell(q, c, step)
      ensures bbox.south <= q.lat < bbox.north && bbox.west <= q.lng < bbox.east
      ensures forall i :: 0 <= i < |hull| ==> Cross(hull[i], hull[Next(i, |hull|)], q) >= 0.0
    {
      var b := CellBounds(c, step);
      GridLaw(q, c, step);
      forall p: Point | (p.lat == b.south || p.lat == b.north) && (p.lng == b.west || p.lng == b.east)
        ensures p in Corners(kept, step)
      {
        CellCorner(c, step, p);
      }
      forall i | 0 <= i < |hull| ensures Cross(hull[i], hull[Next(i, |hull|)], q) >= 0.0 {
        BoxLeft(hull[i], hull[Next(i, |hull|)], b, q);
      }
    }
  }

  // ----- the loops of the program -----

  method Keep(sorted: seq<Cell>, total: real, share: real) returns (kept: seq<Cell>, acc: real)
    requires sorted != [] && total > 0.0
    ensures StopsAtShare(kept, sorted, total, share) && acc == Weight(kept)
  {
    kept, acc := [], 0.0;
    for i := 0 to |sorted|
      invariant kept == sorted[..i] && acc == Weight(kept)
      invariant forall j :: 1 <= j <= i ==> Weight(sorted[..j]) < share * total
    {
      kept := kept + [sorted[i]];
      acc := acc + sorted[i].weight;
      WeightAppend(sorted[..i], [sorted[i]]);
      assert sorted[..i + 1] == sorted[..i] + [sorted[i]];
      AtLeastShare(acc, total, share);
      if acc / total >= share {
        return;
      }
    }
    assert kept == sorted;
  }

  lemma AtLeastShare(acc: real, total: real, share: real)
    requires total > 0.0
    ensures acc / total >= share <==> acc >= share * total
  {
    var q := acc / total;
    assert q * total == acc;
    if q >= share {
      assert (q - share) * total >= 0.0;
    } else {
      assert (share - q) * total > 0.0;
    }
  }

  method Wrap(kept: seq<Cell>, step: real) returns (corners: seq<Point>, box: Box)
    requires kept != []
    ensures corners == Corners(kept, step) && Bounds(box, kept, step)
  {
    hide CellBounds;
    corners, box := [], CellBounds(kept[0], step);
    for i := 0 to |kept|
      invariant corners == Corners(kept[..i], step)
      invariant i == 0 ==> box == CellBounds(kept[0], step)
      invariant i > 0 ==> Bounds(box, kept[..i], step)
    {
      var b := CellBounds(kept[i], step);
      corners := corners
        + [Point(b.west, b.south), Point(b.east, b.south), Point(b.east, b.north), Point(b.west, b.north)];
      if i > 0 {
        GrowBounds(box, kept[..i], kept[i], step);
      }
      box := Grow(box, b);
      assert kept[..i + 1] == kept[..i] + [kept[i]];
      assert kept[..i + 1][..i] == kept[..i];
      if i == 0 {
        assert kept[0] in kept[..1];
      }
    }
    assert kept[..|kept|] == kept;
  }

  method ProjectArea(cells: seq<Cell>, step: real, share: real) returns (area: Area)
    ensures area.NoActivity? <==> Activity(cells) <= 0.0
    ensures area.Area? ==>
              && StopsAtShare(area.kept, SortByWeight(Busy(cells)), Activity(cells), share)
              && IsHullOf(area.hull, Corners(area.kept, step))
              && Bounds(area.bbox, area.kept, step)
              && area.coverage == Weight(area.kept) / Activity(cells)
    ensures area.Area? ==> (SmallestCover(area.kept, cells, share * Activity(cells)) <==> 0.0 < share <= 1.0)
    ensures area.Area? && step > 0.0 ==> Covers(area.hull, area.bbox, area.kept, step)
  {
    hide Covers, IsHullOf, Bounds, StopsAtShare, SmallestCover, Weight, SortByWeight, InsertByWeight, Busy, Corners;
    var total := Activity(cells);
    if total <= 0.0 {
      return NoActivity;
    }
    var sorted := SortByWeight(Busy(cells));
    SomethingBusy(cells);
    var kept, acc := Keep(sorted, total, share);
    KeptSome(kept, sorted, total, share);
    var corners, box := Wrap(kept, step);
    var hull := ConvexHull(corners);
    KeepsFewestExactly(kept, cells, share, share * Activity(cells));
    if step > 0.0 {
      CoversKept(hull, box, kept, step);
    }
    area := Area(kept, hull, box, acc / total);
  }

  lemma KeptSome(kept: seq<Cell>, sorted: seq<Cell>, total: real, share: real)
    requires StopsAtShare(kept, sorted, total, share)
    ensures kept != []
  {
  }

  lemma SomethingBusy(cells: seq<Cell>)
    requires Activity(cells) > 0.0
    ensures SortByWeight(Busy(cells)) != []
  {
    SortedBusy(cells);
  }
}
