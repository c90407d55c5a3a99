/** Snapping and timeline gestures (`src/commands/timeline.cpp`), and stepping on the output grid. */
module Timeline {
  import opened Wrappers
  import opened Gcds
  import opened RationalTimes
  import opened Model
  import opened SequencePlans
  import opened PlanBuilder
  import opened Rendering
  import opened Commands

  datatype GestureError =
    | UnsupportedGrid
    | IndexOutOfRange
    | InexactTime
    | SequenceGone
    | DropOutside
    | TrimElsewhere
    | EmptyClip
    | NoEarlierMedia

  // ----- distances

  function Gap(a: real, b: real): real { if a >= b then a - b else b - a }

  /** `distance`: exact, or refused when the difference does not fit. */
  function Distance(a: Time, b: Time): (r: Option<Time>)
    ensures r.Some? ==> r.value.Seconds() == Gap(a.Seconds(), b.Seconds())
  {
    if a.Seconds() >= b.Seconds() then Minus(a, b) else Minus(b, a)
  }

  /** `distance`, step by step. */
  method Apart(a: Time, b: Time) returns (gap: Option<Time>)
    ensures gap == Distance(a, b)
  {
    if a.Seconds() >= b.Seconds() {
      gap := Minus(a, b);
    } else {
      gap := Minus(b, a);
    }
  }

  // ----- the frame grid

  predicate SnapGrid(frame: Time) {
    frame != Zero && frame.value <= 1000000000 && frame.rate <= 1000000000
  }

  function GridPoint(k: int, frame: Time): real { k as real * frame.Seconds() }

  lemma GridIncreases(frame: Time, j: int, k: int)
    requires SnapGrid(frame) && j < k
    ensures GridPoint(j, frame) < GridPoint(k, frame)
  {
    EqualIffSameInstant(frame, Zero);
    SecondsNonnegative(frame);
    ZeroSeconds();
    hide RationalTime.Seconds;
    assert (k - j) as real * frame.Seconds() > 0.0;
  }

  /** Grid point `k` as an exact time; the products never leave 64 bits in the supported range. */
  function GridTime(k: int, frame: Time): (t: Time)
    requires SnapGrid(frame) && 0 <= k && k * frame.value <= MAX
    ensures t.Seconds() == GridPoint(k, frame)
  {
    MulAtMost(0, k, frame.value);
    ScaledSeconds(frame, k);
    Make(k * frame.value, frame.rate).value
  }

  /** A grid point no later than a day has a small index. */
  lemma GridFits(k: int, frame: Time)
    requires SnapGrid(frame) && 0 <= k && GridPoint(k, frame) <= 86400.0
    ensures (k + 1) * frame.value <= 86400 * 1000000000 + 1000000000 <= MAX
  {
    ScaledSeconds(frame, k);
    QuotientLess(86400, 1, k * frame.value, frame.rate);
    MulCommutes(k, frame.value);
    assert k * frame.value <= 86400 * frame.rate;
    assert (k + 1) * frame.value == k * frame.value + frame.value;
  }

  /** The two grid points around a position are at least as near as any other. */
  lemma NearestGridPoint(position: real, frame: Time, index: int, k: int)
    requires SnapGrid(frame)
    requires GridPoint(index, frame) <= position < GridPoint(index + 1, frame)
    ensures k <= index ==> Gap(position, GridPoint(index, frame)) <= Gap(position, GridPoint(k, frame))
    ensures k > index ==> Gap(position, GridPoint(index + 1, frame)) <= Gap(position, GridPoint(k, frame))
  {
    hide RationalTime.Seconds;
    if k < index { GridIncreases(frame, k, index); }
    if index + 1 < k { GridIncreases(frame, index + 1, k); }
  }

  /**
   The correction loops around the floating-point estimate: from any starting index in range they reach
   the last grid point at or before the position.
   */
  method GridIndex(position: Time, frame: Time, estimate: int) returns (index: int)
    requires SnapGrid(frame) && position.Seconds() <= 86400.0
    requires 0 <= estimate && (estimate + 1) * frame.value <= MAX
    ensures 0 <= index && (index + 1) * frame.value <= MAX
    ensures GridPoint(index, frame) <= position.Seconds() < GridPoint(index + 1, frame)
  {
    SecondsNonnegative(position);
    hide RationalTime.Seconds, GridPoint;
    assert GridPoint(0, frame) == 0.0 by { GridStart(frame); }
    index := estimate;
    while index > 0 && GridTime(index, frame).Seconds() > position.Seconds()
      invariant 0 <= index && (index + 1) * frame.value <= MAX
      decreases index
    {
      MulAtMost(index, index + 1, frame.value);
      index := index - 1;
    }
    ghost var from := index;
    while GridTime(index + 1, frame).Seconds() <= position.Seconds()
      invariant from <= index && (index + 1) * frame.value <= MAX
      invariant GridPoint(index, frame) <= position.Seconds()
      decreases 86400 * 1000000000 - index
    {
      GridFits(index + 1, frame);
      GridIndexBound(index + 1, frame);
      index := index + 1;
    }
  }

  lemma GridStart(frame: Time)
    ensures GridPoint(0, frame) == 0.0
  {
  }

  lemma GridIndexBound(k: int, frame: Time)
    requires SnapGrid(frame) && 0 <= k && GridPoint(k, frame) <= 86400.0
    ensures k <= 86400 * 1000000000
  {
    ScaledSeconds(frame, k);
    QuotientLess(86400, 1, k * frame.value, frame.rate);
    NonzeroValue(frame);
    MulAtMost(1, frame.value, k);
    MulCommutes(k, frame.value);
  }

  lemma NonzeroValue(t: Time)
    requires t != Zero
    ensures t.value > 0
  {
    EqualIffSameInstant(t, Zero);
  }

  // ----- nearest snap

  /** The first of the nearest points among those within tolerance, in the order they are considered. */
  ghost predicate FirstNearest(points: seq<real>, position: real, tolerance: real, r: Option<real>) {
    match r
    case None => forall j :: 0 <= j < |points| ==> Gap(position, points[j]) > tolerance
    case Some(p) =>
      exists m :: && 0 <= m < |points| && points[m] == p && Gap(position, p) <= tolerance
                  && (forall j :: 0 <= j < m ==> Gap(position, p) < Gap(position, points[j]))
                  && (forall j :: m <= j < |points| ==> Gap(position, p) <= Gap(position, points[j]))
  }

  /** The program's choice: a later point replaces the one kept only when it is strictly nearer. */
  ghost function FirstOfNearest(points: seq<Time>, position: Time, tolerance: Time): Option<Time> {
    if points == [] then None
    else
      var n := |points| - 1;
      var before := FirstOfNearest(points[..n], position, tolerance);
      var gap := Gap(position.Seconds(), points[n].Seconds());
      if gap <= tolerance.Seconds() && (before.None? || gap < Gap(position.Seconds(), before.value.Seconds()))
      then Some(points[n])
      else before
  }

  function InstantOf(t: Option<Time>): Option<real> { if t.None? then None else Some(t.value.Seconds()) }

  lemma {:induction false} FirstOfNearestIs(points: seq<Time>, position: Time, tolerance: Time)
    ensures FirstNearest(Instants(points), position.Seconds(), tolerance.Seconds(),
                         InstantOf(FirstOfNearest(points, position, tolerance)))
    ensures FirstOfNearest(points, position, tolerance).Some? ==>
              FirstOfNearest(points, position, tolerance).value in points
  {
    hide RationalTime.Seconds, FirstNearest, Gap;
    if points == [] {
      NothingConsidered(position.Seconds(), tolerance.Seconds());
    } else {
      var n := |points| - 1;
      FirstOfNearestIs(points[..n], position, tolerance);
      assert Instants(points) == Instants(points[..n]) + [points[n].Seconds()];
      var x, p := position.Seconds(), points[n].Seconds();
      var before := InstantOf(FirstOfNearest(points[..n], position, tolerance));
      if Gap(x, p) <= tolerance.Seconds() && (before.None? || Gap(x, p) < Gap(x, before.value)) {
        NewNearest(Instants(points[..n]), x, tolerance.Seconds(), before, p);
      } else {
        OldNearest(Instants(points[..n]), x, tolerance.Seconds(), before, p);
      }
    }
  }

  lemma NothingConsidered(x: real, tolerance: real)
    ensures FirstNearest([], x, tolerance, None)
  {
  }

  datatype Snap = Snap(found: bool, result: Time, best: Time) {
    function Chosen(): Option<Time> { if found then Some(result) else None }

    /** What is kept after these points have been considered. */
    ghost predicate Keeps(points: seq<Time>, position: Time, tolerance: Time) {
      && Chosen() == FirstOfNearest(points, position, tolerance)
      && (found ==> best.Seconds() == Gap(position.Seconds(), result.Seconds()))
    }
  }

  /** The lambda `consider`: only a strictly nearer point replaces the one kept. */
  method Consider(position: Time, tolerance: Time, snap: Snap, candidate: Time, ghost points: seq<Time>)
    returns (r: Option<Snap>)
    requires snap.Keeps(points, position, tolerance)
    ensures r.None? <==> Distance(position, candidate).None?
    ensures r.Some? ==> r.value.Keeps(points + [candidate], position, tolerance)
  {
    hide RationalTime.Seconds, Minus;
    assert (points + [candidate])[..|points|] == points;
    var delta := if position.Seconds() >= candidate.Seconds() then Minus(position, candidate)
                 else Minus(candidate, position);
    if delta.None? {
      return None;
    }
    if delta.value.Seconds() <= tolerance.Seconds() && (!snap.found || delta.value.Seconds() < snap.best.Seconds()) {
      return Some(Snap(true, candidate, delta.value));
    }
    return Some(snap);
  }

  lemma NewNearest(points: seq<real>, x: real, tolerance: real, r: Option<real>, p: real)
    requires FirstNearest(points, x, tolerance, r) && Gap(x, p) <= tolerance
    requires r.Some? ==> Gap(x, p) < Gap(x, r.value)
    ensures FirstNearest(points + [p], x, tolerance, Some(p))
  {
    var all := points + [p];
    assert all[|points|] == p;
    if r.Some? {
      var m :| && 0 <= m < |points| && points[m] == r.value
               && (forall j :: 0 <= j < m ==> Gap(x, r.value) < Gap(x, points[j]))
               && (forall j :: m <= j < |points| ==> Gap(x, r.value) <= Gap(x, points[j]));
      assert forall j :: 0 <= j < |points| ==> Gap(x, p) < Gap(x, points[j]);
    }
  }

  lemma OldNearest(points: seq<real>, x: real, tolerance: real, r: Option<real>, p: real)
    requires FirstNearest(points, x, tolerance, r)
    requires if r.Some? then Gap(x, p) >= Gap(x, r.value) || Gap(x, p) > tolerance else Gap(x, p) > tolerance
    ensures FirstNearest(points + [p], x, tolerance, r)
  {
    var all := points + [p];
    if r.Some? {
      var m :| && 0 <= m < |points| && points[m] == r.value && Gap(x, r.value) <= tolerance
               && (forall j :: 0 <= j < m ==> Gap(x, r.value) < Gap(x, points[j]))
               && (forall j :: m <= j < |points| ==> Gap(x, r.value) <= Gap(x, points[j]));
      assert all[m] == r.value;
    }
  }

  function Instants(times: seq<Time>): seq<real> {
    seq(|times|, i requires 0 <= i < |times| => times[i].Seconds())
  }

  /** The playhead, the edges and the whole frame grid. */
  ghost predicate SnapPoint(p: real, frame: Time, playhead: Time, edges: seq<Time>) {
    p == playhead.Seconds() || p in Instants(edges) || exists k :: 0 <= k && p == GridPoint(k, frame)
  }

  /**
   The result of snapping against infinitely many points: a nearest one within tolerance, the playhead
   before edges and edges before the grid; or none when every point is out of reach.
   */
  ghost predicate SnapsTo(position: Time, frame: Time, playhead: Time, edges: seq<Time>, tolerance: Time,
                          r: Option<Time>)
  {
    match r
    case None =>
      forall p :: SnapPoint(p, frame, playhead, edges) ==> Gap(position.Seconds(), p) > tolerance.Seconds()
    case Some(c) =>
      var near := Gap(position.Seconds(), c.Seconds());
      && near <= tolerance.Seconds() && SnapPoint(c.Seconds(), frame, playhead, edges)
      && (forall p :: SnapPoint(p, frame, playhead, edges) ==> near <= Gap(position.Seconds(), p))
      && (near == Gap(position.Seconds(), playhead.Seconds()) ==> c.Seconds() == playhead.Seconds())
      && (forall i :: 0 <= i < |edges| && near == Gap(position.Seconds(), edges[i].Seconds()) ==>
            c.Seconds() == playhead.Seconds() || c.Seconds() in Instants(edges))
  }

  /** Two grid points stand for all of them. */
  lemma FiniteCandidatesSuffice(position: Time, frame: Time, playhead: Time, edges: seq<Time>, tolerance: Time,
                                index: int, snap: Snap)
    requires SnapGrid(frame) && 0 <= index
    requires GridPoint(index, frame) <= position.Seconds() < GridPoint(index + 1, frame)
    requires FirstNearest([playhead.Seconds()] + Instants(edges) + [GridPoint(index, frame)]
                          + [GridPoint(index + 1, frame)],
                          position.Seconds(), tolerance.Seconds(), InstantOf(snap.Chosen()))
    ensures SnapsTo(position, frame, playhead, edges, tolerance, if snap.found then Some(snap.result) else None)
  {
    hide RationalTime.Seconds, GridPoint, SnapGrid;
    var points := [playhead.Seconds()] + Instants(edges) + [GridPoint(index, frame)] + [GridPoint(index + 1, frame)];
    var x := position.Seconds();
    forall p | SnapPoint(p, frame, playhead, edges)
      ensures exists j :: 0 <= j < |points| && Gap(x, points[j]) <= Gap(x, p)
    {
      NearbyCandidate(x, frame, playhead, edges, index, p);
    }
    if snap.found {
      var m :| && 0 <= m < |points| && points[m] == snap.result.Seconds() && Gap(x, points[m]) <= tolerance.Seconds()
               && (forall j :: 0 <= j < m ==> Gap(x, points[m]) < Gap(x, points[j]))
               && (forall j :: m <= j < |points| ==> Gap(x, points[m]) <= Gap(x, points[j]));
      ChosenSnaps(position, frame, playhead, edges, tolerance, index, points, m, snap.result);
    }
  }

  lemma ChosenSnaps(position: Time, frame: Time, playhead: Time, edges: seq<Time>, tolerance: Time, index: int,
                    points: seq<real>, m: nat, c: Time)
    requires 0 <= index && m < |points|
    requires points
             == [playhead.Seconds()] + Instants(edges) + [GridPoint(index, frame)] + [GridPoint(index + 1, frame)]
    requires var x := position.Seconds();
             && points[m] == c.Seconds() && Gap(x, points[m]) <= tolerance.Seconds()
             && (forall j :: 0 <= j < m ==> Gap(x, points[m]) < Gap(x, points[j]))
             && (forall j :: m <= j < |points| ==> Gap(x, points[m]) <= Gap(x, points[j]))
             && (forall p :: SnapPoint(p, frame, playhead, edges) ==>
                   exists j :: 0 <= j < |points| && Gap(x, points[j]) <= Gap(x, p))
    ensures SnapsTo(position, frame, playhead, edges, tolerance, Some(c))
  {
    hide RationalTime.Seconds, GridPoint, SnapPoint, Gap;
    CandidateIsSnapPoint(frame, playhead, edges, index, m);
    var near := Gap(position.Seconds(), points[m]);
    assert forall j :: 0 <= j < |points| ==> near <= Gap(position.Seconds(), points[j]);
    assert points[0] == playhead.Seconds();
    forall i | 0 <= i < |edges| && near == Gap(position.Seconds(), edges[i].Seconds())
      ensures c.Seconds() == playhead.Seconds() || c.Seconds() in Instants(edges)
    {
      assert points[1 + i] == edges[i].Seconds();
      if m > 0 { assert points[m] == Instants(edges)[m - 1]; }
    }
  }

  lemma NearbyCandidate(x: real, frame: Time, playhead: Time, edges: seq<Time>, index: int, p: real)
    requires SnapGrid(frame) && SnapPoint(p, frame, playhead, edges)
    requires GridPoint(index, frame) <= x < GridPoint(index + 1, frame)
    ensures var points :=
              [playhead.Seconds()] + Instants(edges) + [GridPoint(index, frame)] + [GridPoint(index + 1, frame)];
            exists j :: 0 <= j < |points| && Gap(x, points[j]) <= Gap(x, p)
  {
    hide RationalTime.Seconds, GridPoint, SnapGrid, Gap;
    var points := [playhead.Seconds()] + Instants(edges) + [GridPoint(index, frame)] + [GridPoint(index + 1, frame)];
    if p == playhead.Seconds() {
      assert points[0] == p;
    } else if p in Instants(edges) {
      var i :| 0 <= i < |edges| && Instants(edges)[i] == p;
      assert points[1 + i] == p;
    } else {
      var k :| 0 <= k && p == GridPoint(k, frame);
      NearestGridPoint(x, frame, index, k);
      assert points[1 + |edges|] == GridPoint(index, frame) && points[2 + |edges|] == GridPoint(index + 1, frame);
    }
  }

  lemma CandidateIsSnapPoint(frame: Time, playhead: Time, edges: seq<Time>, index: int, m: nat)
    requires 0 <= index && m < |edges| + 3
    ensures var points :=
              [playhead.Seconds()] + Instants(edges) + [GridPoint(index, frame)] + [GridPoint(index + 1, frame)];
            SnapPoint(points[m], frame, playhead, edges)
  {
    hide RationalTime.Seconds, GridPoint;
  }

  // ----- the choice among infinitely many points

  /** The last grid point at or before a position. */
  ghost function GridFloor(position: Time, frame: Time): (index: int)
    requires SnapGrid(frame)
    ensures 0 <= index && GridPoint(index, frame) <= position.Seconds() < GridPoint(index + 1, frame)
  {
    FrameIsPositive(frame);
    SecondsNonnegative(position);
    var index := (position.Seconds() / frame.Seconds()).Floor;
    FloorIsGridFloor(position.Seconds(), frame.Seconds(), index);
    index
  }

  lemma FrameIsPositive(frame: Time)
    requires SnapGrid(frame)
    ensures frame.Seconds() > 0.0
  {
    GridIncreases(frame, 0, 1);
    GridStart(frame);
  }

  lemma FloorIsGridFloor(x: real, f: real, index: int)
    requires f > 0.0 && x >= 0.0 && index == (x / f).Floor
    ensures 0 <= index && index as real * f <= x < (index + 1) as real * f
  {
    QuotientOrder(-1.0, x, f);
    QuotientOrder(index as real, x, f);
    QuotientOrder((index + 1) as real, x, f);
  }

  lemma GridFloorUnique(position: Time, frame: Time, index: int)
    requires SnapGrid(frame) && GridPoint(index, frame) <= position.Seconds() < GridPoint(index + 1, frame)
    ensures index == GridFloor(position, frame)
  {
    hide RationalTime.Seconds, GridPoint;
    var floor := GridFloor(position, frame);
    if index + 1 < floor { GridIncreases(frame, index + 1, floor); }
    if floor + 1 < index { GridIncreases(frame, floor + 1, index); }
  }

  /** Snapping supports frames of bounded fractions and positions of up to a day. */
  predicate Snappable(position: Time, frame: Time) {
    SnapGrid(frame) && position.Seconds() <= 86400.0
  }

  /** The two grid points around a position. */
  ghost function GridNeighbours(position: Time, frame: Time): seq<Time>
    requires Snappable(position, frame)
  {
    var index := GridFloor(position, frame);
    GridFits(index, frame);
    MulAtMost(index, index + 1, frame.value);
    [GridTime(index, frame), GridTime(index + 1, frame)]
  }

  /** What is considered, in this order. */
  ghost function Candidates(position: Time, frame: Time, playhead: Time, edges: seq<Time>): seq<Time>
    requires Snappable(position, frame)
  {
    [playhead] + edges + GridNeighbours(position, frame)
  }

  ghost function Nearest(position: Time, frame: Time, playhead: Time, edges: seq<Time>, tolerance: Time): Option<Time>
    requires Snappable(position, frame)
  {
    FirstOfNearest(Candidates(position, frame, playhead, edges), position, tolerance)
  }

  ghost predicate GapInexact(position: Time, points: seq<Time>) {
    exists i :: 0 <= i < |points| && Distance(position, points[i]).None?
  }

  /** Why snapping is refused: the first of its checks that fails, or none. */
  ghost function SnapRefusal(position: Time, frame: Time, playhead: Time, edges: seq<Time>, estimate: int)
    : Option<GestureError>
  {
    if !Snappable(position, frame) then Some(UnsupportedGrid)
    else if GapInexact(position, [playhead] + edges) then Some(InexactTime)
    else if (estimate + 2) * frame.value > MAX then Some(IndexOutOfRange)
    else if GapInexact(position, GridNeighbours(position, frame)) then Some(InexactTime)
    else None
  }

  /** An estimate at most one above the last grid point is always in range. */
  lemma EstimateInRange(position: Time, frame: Time, estimate: int)
    requires Snappable(position, frame) && estimate <= GridFloor(position, frame) + 1
    ensures (estimate + 2) * frame.value <= MAX
  {
    var index := GridFloor(position, frame);
    GridFits(index, frame);
    MulAtMost(estimate + 2, index + 3, frame.value);
    assert (index + 3) * frame.value == (index + 1) * frame.value + 2 * frame.value;
  }

  /** The choice is a nearest of all snap points, the infinite grid included. */
  lemma NearestSnaps(position: Time, frame: Time, playhead: Time, edges: seq<Time>, tolerance: Time)
    requires Snappable(position, frame)
    ensures SnapsTo(position, frame, playhead, edges, tolerance, Nearest(position, frame, playhead, edges, tolerance))
  {
    hide RationalTime.Seconds, GridPoint, FirstOfNearest, SnapsTo, FirstNearest, SnapGrid;
    var candidates := Candidates(position, frame, playhead, edges);
    FirstOfNearestIs(candidates, position, tolerance);
    var index := GridFloor(position, frame);
    var chosen := Nearest(position, frame, playhead, edges, tolerance);
    assert Instants(candidates)
        == [playhead.Seconds()] + Instants(edges) + [GridPoint(index, frame)] + [GridPoint(index + 1, frame)];
    FiniteCandidatesSuffice(position, frame, playhead, edges, tolerance, index,
                            Snap(chosen.Some?, if chosen.Some? then chosen.value else position, position));
  }

  /** The limits of `nearest_snap`. */
  method SupportsSnapping(position: Time, frame: Time) returns (ok: bool)
    ensures ok <==> Snappable(position, frame)
  {
    var day := RationalTime(86400, 1);
    return !(|| frame == Zero || frame.value > 1000000000 || frame.rate > 1000000000
             || position.Seconds() > day.Seconds());
  }

  /** `nearest_snap`, with an arbitrary starting estimate of the grid index. */
  method NearestSnap(position: Time, frame: Time, playhead: Time, edges: seq<Time>, tolerance: Time, estimate: int)
    returns (r: Result<Option<Time>, GestureError>)
    requires 0 <= estimate
    ensures r.Failure? <==> SnapRefusal(position, frame, playhead, edges, estimate).Some?
    ensures r.Failure? ==> Some(r.error) == SnapRefusal(position, frame, playhead, edges, estimate)
    ensures r.Success? ==> r.value == Nearest(position, frame, playhead, edges, tolerance)
    ensures r.Success? ==> SnapsTo(position, frame, playhead, edges, tolerance, r.value)
  {
    hide RationalTime.Seconds, GridPoint, Distance, GridTime, FirstOfNearest, SnapsTo, SnapGrid;
    var supported := SupportsSnapping(position, frame);
    if !supported {
      return Failure(UnsupportedGrid);
    }
    ghost var early := [playhead] + edges;
    var snap := Snap(false, position, tolerance);
    assert snap.Keeps([], position, tolerance) by { NothingKept(position, tolerance); }
    var next := Consider(position, tolerance, snap, playhead, []);
    if next.None? {
      assert early[0] == playhead;
      return Failure(InexactTime);
    }
    snap := next.value;
    assert [] + [playhead] == early[..1];
    for i := 0 to |edges|
      invariant snap.Keeps(early[..1 + i], position, tolerance)
      invariant forall j :: 0 <= j < 1 + i ==> Distance(position, early[j]).Some?
    {
      next := Consider(position, tolerance, snap, edges[i], early[..1 + i]);
      if next.None? {
        assert early[1 + i] == edges[i];
        return Failure(InexactTime);
      }
      snap := next.value;
      assert early[..1 + i] + [edges[i]] == early[..1 + i + 1];
    }
    assert early[..1 + |edges|] == early;
    if (estimate + 2) * frame.value > MAX {
      return Failure(IndexOutOfRange);
    }
    r := ConsiderGrid(position, frame, tolerance, snap, estimate, early);
    NearestSnaps(position, frame, playhead, edges, tolerance);
  }

  /** The last part of `nearest_snap`: the grid index is found, and its two neighbours are considered. */
  method ConsiderGrid(position: Time, frame: Time, tolerance: Time, snap: Snap, estimate: int, ghost early: seq<Time>)
    returns (r: Result<Option<Time>, GestureError>)
    requires Snappable(position, frame) && 0 <= estimate && (estimate + 2) * frame.value <= MAX
    requires snap.Keeps(early, position, tolerance)
    ensures r.Failure? <==> GapInexact(position, GridNeighbours(position, frame))
    ensures r.Failure? ==> r.error == InexactTime
    ensures r.Success? ==> r.value == FirstOfNearest(early + GridNeighbours(position, frame), position, tolerance)
  {
    NextProduct(estimate, frame.value);
    var index := GridIndex(position, frame, estimate);
    GridFloorUnique(position, frame, index);
    MulAtMost(index, index + 1, frame.value);
    hide RationalTime.Seconds, GridPoint, Distance, GridTime, FirstOfNearest, SnapGrid;
    var below, above := GridTime(index, frame), GridTime(index + 1, frame);
    assert GridNeighbours(position, frame) == [below, above];
    assert [below, above][0] == below && [below, above][1] == above;
    var next := Consider(position, tolerance, snap, below, early);
    if next.None? {
      return Failure(InexactTime);
    }
    next := Consider(position, tolerance, next.value, above, early + [below]);
    if next.None? {
      return Failure(InexactTime);
    }
    assert early + [below] + [above] == early + [below, above];
    return Success(next.value.Chosen());
  }

  lemma NothingKept(position: Time, tolerance: Time)
    ensures FirstOfNearest([], position, tolerance) == None
  {
  }

  lemma NextProduct(k: int, v: int)
    requires v >= 0
    ensures (k + 1) * v <= (k + 2) * v
  {
  }

  /** `snap_time`: the snapped position, or the position itself. */
  method SnapTime(position: Time, frame: Time, playhead: Time, edges: seq<Time>, tolerance: Time, estimate: int)
    returns (r: Result<Time, GestureError>)
    requires 0 <= estimate
    ensures r.Failure? <==> SnapRefusal(position, frame, playhead, edges, estimate).Some?
    ensures r.Failure? ==> Some(r.error) == SnapRefusal(position, frame, playhead, edges, estimate)
    ensures r.Success? ==> r.value == SnappedTime(position, frame, playhead, edges, tolerance)
    ensures r.Success? ==> Snapped(position, frame, playhead, edges, tolerance, r.value)
  {
    hide RationalTime.Seconds, SnapsTo, Nearest;
    var nearest := NearestSnap(position, frame, playhead, edges, tolerance, estimate);
    if nearest.Failure? {
      return Failure(nearest.error);
    }
    return Success(if nearest.value.Some? then nearest.value.value else position);
  }

  ghost function SnappedTime(position: Time, frame: Time, playhead: Time, edges: seq<Time>, tolerance: Time): Time
    requires Snappable(position, frame)
  {
    var nearest := Nearest(position, frame, playhead, edges, tolerance);
    if nearest.None? then position else nearest.value
  }

  /** A nearest reachable snap point, or the untouched position when none is reachable. */
  ghost predicate Snapped(position: Time, frame: Time, playhead: Time, edges: seq<Time>, tolerance: Time, t: Time) {
    || SnapsTo(position, frame, playhead, edges, tolerance, Some(t))
    || (t == position && SnapsTo(position, frame, playhead, edges, tolerance, None))
  }

  // ----- gestures

  datatype ClipGesture = Move | TrimLeft | TrimRight

  /** Where a gesture finds its clip, and the edges of every other clip in the sequence. */
  datatype Scene = Scene(clip: Option<Clip>, original: uint64, trackFound: bool, edges: seq<Time>)

  ghost predicate OnTrack(tracks: seq<Track>, clip: Clip, original: uint64) {
    exists t, k :: && 0 <= t < |tracks| && 0 <= k < |tracks[t].clips|
                   && tracks[t].clips[k] == clip && tracks[t].id == original
  }

  predicate EdgeOf(e: Time, clip: Clip, id: uint64) {
    clip.id != id && (e == clip.position || Some(e) == clip.End())
  }

  /** The edges are exactly the starts and ends of clips other than the one dragged. */
  ghost predicate OtherEdges(tracks: seq<Track>, id: uint64, edges: seq<Time>) {
    && (forall t, k :: 0 <= t < |tracks| && 0 <= k < |tracks[t].clips| && tracks[t].clips[k].id != id ==>
          && tracks[t].clips[k].position in edges
          && tracks[t].clips[k].End().Some? && tracks[t].clips[k].End().value in edges)
    && (forall e :: e in edges ==>
          exists t, k :: 0 <= t < |tracks| && 0 <= k < |tracks[t].clips| && EdgeOf(e, tracks[t].clips[k], id))
  }

  // What the collecting loops find.

  predicate ClipEndsFit(clips: seq<Clip>, id: uint64) {
    forall k :: 0 <= k < |clips| && clips[k].id != id ==> clips[k].End().Some?
  }

  /** Every clip but the dragged one has an end that fits 64 bits. */
  predicate EndsFit(tracks: seq<Track>, id: uint64) {
    forall t :: 0 <= t < |tracks| ==> ClipEndsFit(tracks[t].clips, id)
  }

  function ClipEdges(clips: seq<Clip>, id: uint64): seq<Time>
    requires ClipEndsFit(clips, id)
  {
    if clips == [] then []
    else
      var n := |clips| - 1;
      ClipEdges(clips[..n], id) + (if clips[n].id == id then [] else [clips[n].position, clips[n].End().value])
  }

  /** The edges of every clip but the dragged one, in the order of the loops. */
  function EdgesOf(tracks: seq<Track>, id: uint64): seq<Time>
    requires EndsFit(tracks, id)
  {
    if tracks == [] then []
    else
      var n := |tracks| - 1;
      EdgesOf(tracks[..n], id) + ClipEdges(tracks[n].clips, id)
  }

  function LastClip(clips: seq<Clip>, id: uint64): Option<Clip> {
    if clips == [] then None
    else if clips[|clips| - 1].id == id then Some(clips[|clips| - 1])
    else LastClip(clips[..|clips| - 1], id)
  }

  /** The dragged clip and its track; the last one should several have the ID. */
  function Dragged(tracks: seq<Track>, id: uint64): Option<(Clip, uint64)> {
    if tracks == [] then None
    else
      var n := |tracks| - 1;
      var here := LastClip(tracks[n].clips, id);
      if here.Some? then Some((here.value, tracks[n].id)) else Dragged(tracks[..n], id)
  }

  predicate HasTrack(tracks: seq<Track>, id: uint64) {
    exists t :: 0 <= t < |tracks| && tracks[t].id == id
  }

  lemma {:induction false} ClipIsListed(clips: seq<Clip>, id: uint64, k: nat)
    requires ClipEndsFit(clips, id) && k < |clips| && clips[k].id != id
    ensures clips[k].position in ClipEdges(clips, id) && clips[k].End().value in ClipEdges(clips, id)
  {
    hide RationalTime.Seconds, Clip.End;
    var n := |clips| - 1;
    var last := if clips[n].id == id then [] else [clips[n].position, clips[n].End().value];
    assert ClipEdges(clips, id) == ClipEdges(clips[..n], id) + last;
    if k < n {
      ClipIsListed(clips[..n], id, k);
    } else {
      assert last[0] == clips[k].position && last[1] == clips[k].End().value;
    }
  }

  lemma {:induction false} EdgeIsOfClip(clips: seq<Clip>, id: uint64, e: Time) returns (k: nat)
    requires ClipEndsFit(clips, id) && e in ClipEdges(clips, id)
    ensures k < |clips| && EdgeOf(e, clips[k], id)
  {
    hide RationalTime.Seconds, Clip.End;
    var n := |clips| - 1;
    if e in ClipEdges(clips[..n], id) {
      k := EdgeIsOfClip(clips[..n], id, e);
    } else {
      k := n;
    }
  }

  lemma {:induction false} TrackIsListed(tracks: seq<Track>, id: uint64, t: nat, e: Time)
    requires EndsFit(tracks, id) && t < |tracks| && e in ClipEdges(tracks[t].clips, id)
    ensures e in EdgesOf(tracks, id)
  {
    hide RationalTime.Seconds, ClipEndsFit, ClipEdges;
    var n := |tracks| - 1;
    if t < n { TrackIsListed(tracks[..n], id, t, e); }
  }

  lemma {:induction false} EdgeIsOfTrack(tracks: seq<Track>, id: uint64, e: Time) returns (t: nat)
    requires EndsFit(tracks, id) && e in EdgesOf(tracks, id)
    ensures t < |tracks| && e in ClipEdges(tracks[t].clips, id)
  {
    hide RationalTime.Seconds, ClipEndsFit, ClipEdges;
    var n := |tracks| - 1;
    if e in EdgesOf(tracks[..n], id) {
      t := EdgeIsOfTrack(tracks[..n], id, e);
    } else {
      t := n;
    }
  }

  lemma BothEdgesListed(tracks: seq<Track>, id: uint64, t: nat, k: nat)
    requires EndsFit(tracks, id) && t < |tracks| && k < |tracks[t].clips| && tracks[t].clips[k].id != id
    ensures var clip := tracks[t].clips[k];
            && clip.position in EdgesOf(tracks, id)
            && clip.End().Some? && clip.End().value in EdgesOf(tracks, id)
  {
    hide RationalTime.Seconds, Clip.End, ClipEdges, EdgesOf;
    ClipIsListed(tracks[t].clips, id, k);
    TrackIsListed(tracks, id, t, tracks[t].clips[k].position);
    TrackIsListed(tracks, id, t, tracks[t].clips[k].End().value);
  }

  /** The collected edges are exactly the starts and ends of the other clips. */
  lemma EdgesAreOthers(tracks: seq<Track>, id: uint64)
    requires EndsFit(tracks, id)
    ensures OtherEdges(tracks, id, EdgesOf(tracks, id))
  {
    hide RationalTime.Seconds, Clip.End, ClipEdges, EdgesOf, ClipEndsFit, EdgeOf;
    forall t, k | 0 <= t < |tracks| && 0 <= k < |tracks[t].clips| && tracks[t].clips[k].id != id {
      BothEdgesListed(tracks, id, t, k);
    }
    forall e | e in EdgesOf(tracks, id)
      ensures exists t, k :: 0 <= t < |tracks| && 0 <= k < |tracks[t].clips| && EdgeOf(e, tracks[t].clips[k], id)
    {
      var t := EdgeIsOfTrack(tracks, id, e);
      var k := EdgeIsOfClip(tracks[t].clips, id, e);
    }
  }

  lemma {:induction false} LastClipIs(clips: seq<Clip>, id: uint64)
    ensures LastClip(clips, id).Some? ==> LastClip(clips, id).value in clips && LastClip(clips, id).value.id == id
    ensures LastClip(clips, id).None? ==> forall k :: 0 <= k < |clips| ==> clips[k].id != id
  {
    if clips != [] { LastClipIs(clips[..|clips| - 1], id); }
  }

  /** The dragged clip is found exactly when some track has it, and on that track. */
  lemma {:induction false} DraggedIs(tracks: seq<Track>, id: uint64)
    ensures var found := Dragged(tracks, id);
            && (found.Some? ==> found.value.0.id == id && OnTrack(tracks, found.value.0, found.value.1))
            && (found.None? <==> NoClip(tracks, id))
  {
    hide LastClip;
    if tracks != [] {
      var n := |tracks| - 1;
      LastClipIs(tracks[n].clips, id);
      DraggedIs(tracks[..n], id);
      if LastClip(tracks[n].clips, id).Some? {
        var k :| 0 <= k < |tracks[n].clips| && tracks[n].clips[k] == LastClip(tracks[n].clips, id).value;
        assert tracks[n].clips[k].id == id;
      } else if Dragged(tracks[..n], id).Some? {
        var found := Dragged(tracks[..n], id).value;
        var t, k :| && 0 <= t < n && 0 <= k < |tracks[t].clips|
                    && tracks[t].clips[k] == found.0 && tracks[t].id == found.1;
      }
    }
  }

  ghost predicate NoClip(tracks: seq<Track>, id: uint64) {
    forall t, k :: 0 <= t < |tracks| && 0 <= k < |tracks[t].clips| ==> tracks[t].clips[k].id != id
  }

  /** One track of the collecting loop. */
  method CollectTrack(clips: seq<Clip>, id: uint64, edges: seq<Time>) returns (r: Option<(Option<Clip>, seq<Time>)>)
    ensures r.None? <==> !ClipEndsFit(clips, id)
    ensures r.Some? ==> r.value == (LastClip(clips, id), edges + ClipEdges(clips, id))
  {
    hide RationalTime.Seconds, Plus, Clip.End;
    var found: Option<Clip>, all := None, edges;
    for k := 0 to |clips|
      invariant ClipEndsFit(clips[..k], id)
      invariant found == LastClip(clips[..k], id) && all == edges + ClipEdges(clips[..k], id)
    {
      assert clips[..k + 1][..k] == clips[..k] && clips[..k + 1][k] == clips[k];
      if clips[k].id == id {
        found := Some(clips[k]);
      } else {
        var end := clips[k].End();
        if end.None? {
          return None;
        }
        all := all + [clips[k].position, end.value];
      }
    }
    assert clips[..|clips|] == clips;
    return Some((found, all));
  }

  /** The collecting loops of `timeline_drag`. */
  method Collect(tracks: seq<Track>, id: uint64, destination: uint64) returns (r: Option<Scene>)
    ensures r.None? <==> !EndsFit(tracks, id)
    ensures r.Some? ==>
              && r.value.edges == EdgesOf(tracks, id) && (r.value.trackFound <==> HasTrack(tracks, destination))
              && (if r.value.clip.None? then Dragged(tracks, id).None?
                  else Dragged(tracks, id) == Some((r.value.clip.value, r.value.original)))
  {
    hide RationalTime.Seconds, Plus, ClipEndsFit, ClipEdges, LastClip;
    var scene := Scene(None, 0, false, []);
    for t := 0 to |tracks|
      invariant EndsFit(tracks[..t], id)
      invariant scene.edges == EdgesOf(tracks[..t], id) && (scene.trackFound <==> HasTrack(tracks[..t], destination))
      invariant if scene.clip.None? then Dragged(tracks[..t], id).None?
                else Dragged(tracks[..t], id) == Some((scene.clip.value, scene.original))
    {
      assert tracks[..t + 1][..t] == tracks[..t] && tracks[..t + 1][t] == tracks[t];
      TrackSeen(tracks, t, destination);
      var track := CollectTrack(tracks[t].clips, id, scene.edges);
      if track.None? {
        return None;
      }
      scene := scene.(trackFound := scene.trackFound || tracks[t].id == destination, edges := track.value.1);
      if track.value.0.Some? {
        scene := scene.(clip := track.value.0, original := tracks[t].id);
      }
    }
    assert tracks[..|tracks|] == tracks;
    return Some(scene);
  }

  lemma TrackSeen(tracks: seq<Track>, t: nat, id: uint64)
    requires t < |tracks|
    ensures HasTrack(tracks[..t + 1], id) <==> HasTrack(tracks[..t], id) || tracks[t].id == id
  {
    assert tracks[..t + 1][t] == tracks[t];
    if HasTrack(tracks[..t], id) {
      var i :| 0 <= i < t && tracks[..t][i].id == id;
      assert tracks[..t + 1][i].id == id;
    }
    if HasTrack(tracks[..t + 1], id) && tracks[t].id != id {
      var i :| 0 <= i < t + 1 && tracks[..t + 1][i].id == id;
      assert tracks[..t][i].id == id;
    }
  }

  /** A trimmed clip shows, at every instant, the source the old clip would show there. */
  ghost predicate Aligned(clip: Clip, position: Time, range: TimeRange) {
    forall x: real :: SourceShown(position, range, x) == SourceShown(clip.position, clip.source, x)
  }

  /** The source instant a clip placed at `position` shows at timeline instant `x`. */
  function SourceShown(position: Time, range: TimeRange, x: real): real {
    range.start.Seconds() + (x - position.Seconds())
  }

  /** A right trim keeps the start and moves the end to the target. */
  function TrimmedRight(clip: Clip, target: Time): Result<Command, GestureError> {
    if target.Seconds() <= clip.position.Seconds() then Failure(EmptyClip)
    else
      var duration := Minus(target, clip.position);
      if duration.None? then Failure(InexactTime)
      else Success(TrimClip(clip.id, clip.position, TimeRange(clip.source.start, duration.value)))
  }

  /** A left trim moves the start to the target, revealing or hiding source, and keeps the end. */
  function TrimmedLeft(clip: Clip, end: Time, target: Time): Result<Command, GestureError> {
    if target.Seconds() >= end.Seconds() then Failure(EmptyClip)
    else
      var source :=
        if target.Seconds() >= clip.position.Seconds() then
          var offset := Minus(target, clip.position);
          if offset.None? then Failure(InexactTime)
          else
            var later := Plus(clip.source.start, offset.value);
            if later.None? then Failure(InexactTime) else Success(later.value)
        else
          var extension := Minus(clip.position, target);
          if extension.None? then Failure(InexactTime)
          else if extension.value.Seconds() > clip.source.start.Seconds() then Failure(NoEarlierMedia)
          else
            var earlier := Minus(clip.source.start, extension.value);
            if earlier.None? then Failure(InexactTime) else Success(earlier.value);
      if source.Failure? then Failure(source.error)
      else
        var duration := Minus(end, target);
        if duration.None? then Failure(InexactTime)
        else Success(TrimClip(clip.id, target, TimeRange(source.value, duration.value)))
  }

  /** The right trim of `timeline_drag`. */
  method TrimEnd(clip: Clip, target: Time) returns (r: Result<Command, GestureError>)
    ensures r == TrimmedRight(clip, target)
  {
    if target.Seconds() <= clip.position.Seconds() {
      return Failure(EmptyClip);
    }
    var duration := Minus(target, clip.position);
    if duration.None? {
      return Failure(InexactTime);
    }
    return Success(TrimClip(clip.id, clip.position, TimeRange(clip.source.start, duration.value)));
  }

  /** The left trim of `timeline_drag`. */
  method TrimStart(clip: Clip, end: Time, target: Time) returns (r: Result<Command, GestureError>)
    ensures r == TrimmedLeft(clip, end, target)
  {
    hide RationalTime.Seconds, Plus, Minus;
    if target.Seconds() >= end.Seconds() {
      return Failure(EmptyClip);
    }
    var source: Option<Time>;
    if target.Seconds() >= clip.position.Seconds() {
      var offset := Minus(target, clip.position);
      source := if offset.None? then None else Plus(clip.source.start, offset.value);
    } else {
      var extension := Minus(clip.position, target);
      if extension.Some? && extension.value.Seconds() > clip.source.start.Seconds() {
        return Failure(NoEarlierMedia);
      }
      source := if extension.None? then None else Minus(clip.source.start, extension.value);
    }
    if source.None? {
      return Failure(InexactTime);
    }
    var duration := Minus(end, target);
    if duration.None? {
      return Failure(InexactTime);
    }
    return Success(TrimClip(clip.id, target, TimeRange(source.value, duration.value)));
  }

  lemma RightTrimKeepsContent(clip: Clip, target: Time)
    requires TrimmedRight(clip, target).Success?
    ensures var trim := TrimmedRight(clip, target).value;
            && trim.position == clip.position && trim.range.start == clip.source.start
            && Aligned(clip, trim.position, trim.range)
            && trim.position.Seconds() + trim.range.duration.Seconds() == target.Seconds()
            && trim.range.duration.Seconds() > 0.0
  {
    hide RationalTime.Seconds, Plus, Minus;
  }

  /** A left trim shifts no content and keeps both the timeline end and the source end. */
  lemma LeftTrimKeepsContent(clip: Clip, end: Time, target: Time)
    requires clip.End() == Some(end) && TrimmedLeft(clip, end, target).Success?
    ensures var trim := TrimmedLeft(clip, end, target).value;
            && trim.position == target && Aligned(clip, trim.position, trim.range)
            && trim.position.Seconds() + trim.range.duration.Seconds() == end.Seconds()
            && trim.range.start.Seconds() + trim.range.duration.Seconds()
               == clip.source.start.Seconds() + clip.source.duration.Seconds()
            && trim.range.duration.Seconds() > 0.0
  {
    hide RationalTime.Seconds;
  }

  // ----- moving

  /**
   A move lands on a nearest place within tolerance: one where its start is on a snap point, or its end is
   on one that leaves room for the clip. Of equally near places a start wins, and the target is kept only
   when neither is in reach.
   */
  ghost predicate MoveSnapped(target: Time, duration: Time, frame: Time, playhead: Time, edges: seq<Time>,
                              tolerance: Time, t: Time)
  {
    var x, d, moved := target.Seconds(), duration.Seconds(), Gap(target.Seconds(), t.Seconds());
    && (forall p :: StartInReach(p, x, frame, playhead, edges, tolerance) ==> moved <= Gap(x, p))
    && (forall p :: EndInReach(p, x, d, frame, playhead, edges, tolerance) ==> moved <= Gap(x + d, p))
    && (|| SnapsTo(target, frame, playhead, edges, tolerance, Some(t))
        || (&& EndInReach(t.Seconds() + d, x, d, frame, playhead, edges, tolerance)
            && forall p :: StartInReach(p, x, frame, playhead, edges, tolerance) ==> moved < Gap(x, p))
        || (&& t == target
            && (forall p :: !StartInReach(p, x, frame, playhead, edges, tolerance))
            && (forall p :: !EndInReach(p, x, d, frame, playhead, edges, tolerance))))
  }

  ghost predicate StartInReach(p: real, x: real, frame: Time, playhead: Time, edges: seq<Time>, tolerance: Time) {
    SnapPoint(p, frame, playhead, edges) && Gap(x, p) <= tolerance.Seconds()
  }

  ghost predicate EndInReach(p: real, x: real, d: real, frame: Time, playhead: Time, edges: seq<Time>, tolerance: Time)
  {
    SnapPoint(p, frame, playhead, edges) && p >= d && Gap(x + d, p) <= tolerance.Seconds()
  }

  /** The end's nearest point is taken: it leaves room for the clip and is strictly nearer than the start's. */
  ghost predicate EndWins(target: Time, duration: Time, end: Time, left: Option<Time>, right: Option<Time>) {
    && right.Some? && right.value.Seconds() >= duration.Seconds()
    && (left.Some? ==> Gap(end.Seconds(), right.value.Seconds()) < Gap(target.Seconds(), left.value.Seconds()))
  }

  /** Why the snapping of a move is refused: the first of its checks that fails, or none. */
  ghost function MoveRefusal(target: Time, duration: Time, frame: Time, playhead: Time, edges: seq<Time>,
                             tolerance: Time, startEstimate: int, endEstimate: int): Option<GestureError>
  {
    var start := SnapRefusal(target, frame, playhead, edges, startEstimate);
    var end := Plus(target, duration);
    if start.Some? then start
    else if end.None? then Some(InexactTime)
    else if SnapRefusal(end.value, frame, playhead, edges, endEstimate).Some? then
      SnapRefusal(end.value, frame, playhead, edges, endEstimate)
    else
      var left := Nearest(target, frame, playhead, edges, tolerance);
      var right := Nearest(end.value, frame, playhead, edges, tolerance);
      if EndWins(target, duration, end.value, left, right) && Minus(right.value, duration).None? then Some(InexactTime)
      else None
  }

  /** What was chosen has an exact distance. */
  lemma ChosenGapFits(position: Time, frame: Time, playhead: Time, edges: seq<Time>, tolerance: Time, estimate: int)
    requires SnapRefusal(position, frame, playhead, edges, estimate).None?
    ensures var chosen := Nearest(position, frame, playhead, edges, tolerance);
            chosen.Some? ==> Distance(position, chosen.value).Some?
  {
    hide RationalTime.Seconds, Distance, FirstOfNearest, GridNeighbours, SnapGrid;
    var candidates := Candidates(position, frame, playhead, edges);
    FirstOfNearestIs(candidates, position, tolerance);
    forall i | 0 <= i < |candidates|
      ensures Distance(position, candidates[i]).Some?
    {
      var early, grid := [playhead] + edges, GridNeighbours(position, frame);
      if i < |early| { assert candidates[i] == early[i]; } else { assert candidates[i] == grid[i - |early|]; }
    }
  }

  lemma SnapPointsAreNonnegative(p: real, frame: Time, playhead: Time, edges: seq<Time>)
    requires SnapGrid(frame) && SnapPoint(p, frame, playhead, edges)
    ensures p >= 0.0
  {
    hide RationalTime.Seconds, GridPoint;
    SecondsNonnegative(playhead);
    if p in Instants(edges) {
      var i :| 0 <= i < |edges| && Instants(edges)[i] == p;
      SecondsNonnegative(edges[i]);
    } else if p != playhead.Seconds() {
      var k :| 0 <= k && p == GridPoint(k, frame);
      GridStart(frame);
      if k > 0 { GridIncreases(frame, 0, k); }
    }
  }

  /**
   When the end's nearest point leaves no room for the clip, the start is nearer to the beginning of the
   timeline than the end is to any point.
   */
  lemma DroppedEndIsFurther(x: real, d: real, frame: Time, playhead: Time, edges: seq<Time>, tolerance: Time,
                            right: real, p: real)
    requires SnapGrid(frame) && x >= 0.0 && right < d && SnapPoint(right, frame, playhead, edges)
    requires Gap(x + d, right) <= Gap(x + d, p) <= tolerance.Seconds()
    ensures StartInReach(0.0, x, frame, playhead, edges, tolerance) && Gap(x, 0.0) < Gap(x + d, p)
  {
    hide RationalTime.Seconds;
    GridStart(frame);
    SnapPointsAreNonnegative(right, frame, playhead, edges);
  }

  lemma MoveIsSnapped(target: Time, duration: Time, end: Time, frame: Time, playhead: Time, edges: seq<Time>,
                      tolerance: Time, left: Option<Time>, right: Option<Time>, t: Time)
    requires SnapGrid(frame) && Plus(target, duration) == Some(end)
    requires SnapsTo(target, frame, playhead, edges, tolerance, left)
    requires SnapsTo(end, frame, playhead, edges, tolerance, right)
    requires if EndWins(target, duration, end, left, right) then Minus(right.value, duration) == Some(t)
             else t == if left.Some? then left.value else target
    ensures MoveSnapped(target, duration, frame, playhead, edges, tolerance, t)
  {
    hide RationalTime.Seconds, SnapPoint, SnapGrid, Plus, Minus;
    SecondsNonnegative(target);
    var x, d := target.Seconds(), duration.Seconds();
    assert end.Seconds() == x + d;
    if EndWins(target, duration, end, left, right) {
      assert t.Seconds() + d == right.value.Seconds();
    } else {
      forall p | EndInReach(p, x, d, frame, playhead, edges, tolerance)
        ensures left.Some? && Gap(x, left.value.Seconds()) <= Gap(x + d, p)
      {
        if right.Some? && right.value.Seconds() < d {
          DroppedEndIsFurther(x, d, frame, playhead, edges, tolerance, right.value.Seconds(), p);
        }
      }
    }
  }

  /** The snapping part of a move: the nearer of a snapped start and a snapped end. */
  method SnapMove(target: Time, duration: Time, frame: Time, playhead: Time, edges: seq<Time>, tolerance: Time,
                  startEstimate: int, endEstimate: int)
    returns (r: Result<Time, GestureError>)
    requires 0 <= startEstimate && 0 <= endEstimate
    ensures var refusal := MoveRefusal(target, duration, frame, playhead, edges, tolerance, startEstimate, endEstimate);
            (r.Failure? <==> refusal.Some?) && (r.Failure? ==> Some(r.error) == refusal)
    ensures r.Success? ==> MoveSnapped(target, duration, frame, playhead, edges, tolerance, r.value)
  {
    hide RationalTime.Seconds, SnapGrid, SnapPoint, SnapsTo, Nearest, SnapRefusal, Plus, Minus, Distance, MoveSnapped;
    var left := NearestSnap(target, frame, playhead, edges, tolerance, startEstimate);
    if left.Failure? {
      return Failure(left.error);
    }
    var end := Plus(target, duration);
    if end.None? {
      return Failure(InexactTime);
    }
    var right := NearestSnap(end.value, frame, playhead, edges, tolerance, endEstimate);
    if right.Failure? {
      return Failure(right.error);
    }
    SupportedWhenAccepted(target, frame, playhead, edges, startEstimate);
    ChosenGapFits(target, frame, playhead, edges, tolerance, startEstimate);
    ChosenGapFits(end.value, frame, playhead, edges, tolerance, endEstimate);
    if right.value.Some? && right.value.value.Seconds() >= duration.Seconds() {
      var endWins := true;
      if left.value.Some? {
        var endGap := Apart(end.value, right.value.value);
        var startGap := Apart(target, left.value.value);
        endWins := endGap.value.Seconds() < startGap.value.Seconds();
      }
      if endWins {
        var start := Minus(right.value.value, duration);
        if start.None? {
          return Failure(InexactTime);
        }
        MoveIsSnapped(target, duration, end.value, frame, playhead, edges, tolerance, left.value, right.value,
                      start.value);
        return Success(start.value);
      }
    }
    var kept := if left.value.Some? then left.value.value else target;
    MoveIsSnapped(target, duration, end.value, frame, playhead, edges, tolerance, left.value, right.value, kept);
    return Success(kept);
  }

  lemma SupportedWhenAccepted(position: Time, frame: Time, playhead: Time, edges: seq<Time>, estimate: int)
    requires SnapRefusal(position, frame, playhead, edges, estimate).None?
    ensures Snappable(position, frame) && SnapGrid(frame)
  {
    hide RationalTime.Seconds, GapInexact;
  }

  // ----- the whole gesture

  /** What a drag is asked to do. */
  datatype Drag = Drag(id: uint64, destination: uint64, gesture: ClipGesture, target: Time, snapping: bool,
                       playhead: Time, tolerance: Time, startEstimate: nat, endEstimate: nat)

  /** Why the target of a drag cannot be snapped. */
  ghost function TargetRefusal(drag: Drag, clip: Clip, frame: Time, edges: seq<Time>): Option<GestureError> {
    if !drag.snapping then None
    else if drag.gesture == Move then
      MoveRefusal(drag.target, clip.source.duration, frame, drag.playhead, edges, drag.tolerance, drag.startEstimate,
                  drag.endEstimate)
    else SnapRefusal(drag.target, frame, drag.playhead, edges, drag.startEstimate)
  }

  /** Why a trim to `t` is refused. */
  ghost function TrimRefusal(gesture: ClipGesture, clip: Clip, t: Time): Option<GestureError> {
    if gesture == Move then None
    else if clip.End().None? then Some(InexactTime)
    else
      var trimmed := if gesture == TrimRight then TrimmedRight(clip, t) else TrimmedLeft(clip, clip.End().value, t);
      if trimmed.Failure? then Some(trimmed.error) else None
  }

  /** Why a drag is refused: the first of its checks that fails, or none. */
  ghost function Refusal(drag: Drag, sequence: Option<Sequence>): Option<GestureError> {
    if sequence.None? then Some(SequenceGone)
    else
      var tracks, frame := sequence.value.tracks, sequence.value.frameDuration;
      if !EndsFit(tracks, drag.id) then Some(InexactTime)
      else if Dragged(tracks, drag.id).None? || !HasTrack(tracks, drag.destination) then Some(DropOutside)
      else
        var (clip, original) := Dragged(tracks, drag.id).value;
        if drag.gesture != Move && drag.destination != original then Some(TrimElsewhere)
        else
          var edges := EdgesOf(tracks, drag.id);
          var target := TargetRefusal(drag, clip, frame, edges);
          if target.Some? then target
          else if drag.gesture == Move then None
          else
            TrimRefusal(drag.gesture, clip,
                        if drag.snapping then SnappedTime(drag.target, frame, drag.playhead, edges, drag.tolerance)
                        else drag.target)
  }

  function SequenceOf(project: ProjectSnapshot, id: uint64): Option<Sequence> {
    var found := FindSequence(project.sequences, id);
    if found.None? then None else Some(project.sequences[found.value])
  }

  /** The command a gesture turns into, once its target is `t`. */
  ghost predicate DragResult(drag: Drag, clip: Clip, original: uint64, frame: Time, edges: seq<Time>, t: Time,
                             command: Command)
  {
    && (!drag.snapping ==> t == drag.target)
    && (match drag.gesture
        case Move =>
          && command == MoveClip(clip.id, drag.destination, t)
          && (drag.snapping ==>
                MoveSnapped(drag.target, clip.source.duration, frame, drag.playhead, edges, drag.tolerance, t))
        case TrimRight =>
          && drag.destination == original && TrimmedRight(clip, t) == Success(command)
          && (drag.snapping ==> Snapped(drag.target, frame, drag.playhead, edges, drag.tolerance, t))
        case TrimLeft =>
          && drag.destination == original && clip.End().Some?
          && TrimmedLeft(clip, clip.End().value, t) == Success(command)
          && (drag.snapping ==> Snapped(drag.target, frame, drag.playhead, edges, drag.tolerance, t)))
  }

  /** A drag became one command on the dragged clip, snapped against the edges of all others. */
  ghost predicate Dropped(drag: Drag, sequence: Sequence, command: Command) {
    && EndsFit(sequence.tracks, drag.id) && Dragged(sequence.tracks, drag.id).Some?
    && var (clip, original) := Dragged(sequence.tracks, drag.id).value;
       && HasTrack(sequence.tracks, drag.destination)
       && exists t: Time ::
            DragResult(drag, clip, original, sequence.frameDuration, EdgesOf(sequence.tracks, drag.id), t, command)
  }

  /** The snapping of `timeline_drag`. */
  method DragTarget(drag: Drag, clip: Clip, frame: Time, edges: seq<Time>) returns (r: Result<Time, GestureError>)
    ensures r.Failure? <==> TargetRefusal(drag, clip, frame, edges).Some?
    ensures r.Failure? ==> Some(r.error) == TargetRefusal(drag, clip, frame, edges)
    ensures r.Success? && !drag.snapping ==> r.value == drag.target
    ensures r.Success? && drag.snapping && drag.gesture == Move ==>
              MoveSnapped(drag.target, clip.source.duration, frame, drag.playhead, edges, drag.tolerance, r.value)
    ensures r.Success? && drag.snapping && drag.gesture != Move ==>
              && Snappable(drag.target, frame)
              && r.value == SnappedTime(drag.target, frame, drag.playhead, edges, drag.tolerance)
              && Snapped(drag.target, frame, drag.playhead, edges, drag.tolerance, r.value)
  {
    hide RationalTime.Seconds, MoveSnapped, Snapped, SnappedTime, MoveRefusal;
    if !drag.snapping {
      return Success(drag.target);
    }
    if drag.gesture == Move {
      r := SnapMove(drag.target, clip.source.duration, frame, drag.playhead, edges, drag.tolerance, drag.startEstimate,
                    drag.endEstimate);
    } else {
      r := SnapTime(drag.target, frame, drag.playhead, edges, drag.tolerance, drag.startEstimate);
    }
  }

  /** `timeline_drag`. A drag becomes one move or trim of its clip, or is refused by the first check that fails. */
  method TimelineDrag(project: ProjectSnapshot, sequence: uint64, drag: Drag) returns (r: Result<Command, GestureError>)
    ensures r.Failure? <==> Refusal(drag, SequenceOf(project, sequence)).Some?
    ensures r.Failure? ==> Some(r.error) == Refusal(drag, SequenceOf(project, sequence))
    ensures r.Success? ==> Dropped(drag, SequenceOf(project, sequence).value, r.value)
  {
    hide RationalTime.Seconds, TrimmedLeft, TrimmedRight, MoveSnapped, Snapped, SnappedTime, EdgesOf, Dragged, EndsFit;
    hide TargetRefusal, HasTrack, Clip.End;
    var found := FindSequence(project.sequences, sequence);
    if found.None? {
      return Failure(SequenceGone);
    }
    var seq_ := project.sequences[found.value];
    var collected := Collect(seq_.tracks, drag.id, drag.destination);
    if collected.None? {
      return Failure(InexactTime);
    }
    var scene := collected.value;
    if scene.clip.None? || !scene.trackFound {
      return Failure(DropOutside);
    }
    var clip := scene.clip.value;
    if drag.gesture != Move && drag.destination != scene.original {
      return Failure(TrimElsewhere);
    }
    var target := DragTarget(drag, clip, seq_.frameDuration, scene.edges);
    if target.Failure? {
      return Failure(target.error);
    }
    var t := target.value;
    DraggedIs(seq_.tracks, drag.id);
    if drag.gesture == Move {
      r := Success(MoveClip(drag.id, drag.destination, t));
    } else {
      var end := clip.End();
      if end.None? {
        return Failure(InexactTime);
      }
      if drag.gesture == TrimRight {
        r := TrimEnd(clip, t);
      } else {
        r := TrimStart(clip, end.value, t);
      }
      if r.Failure? {
        return r;
      }
    }
    assert DragResult(drag, clip, scene.original, seq_.frameDuration, scene.edges, t, r.value);
  }

  /**
   In a valid project a drag is refused because nothing is there to drag or nowhere to drop it exactly when
   no clip or no track of the sequence has the ID asked for, and a trim exactly when it leaves its track; an
   unsnapped move is refused for no other reason.
   */
  lemma RefusalMeans(project: ProjectSnapshot, s: nat, drag: Drag)
    requires Valid(project) && s < |project.sequences|
    ensures var sequence := project.sequences[s];
            var r := Refusal(drag, Some(sequence));
            var here := !NoClip(sequence.tracks, drag.id) && HasTrack(sequence.tracks, drag.destination);
            && (r == Some(DropOutside) <==> !here)
            && (r == Some(TrimElsewhere) <==>
                  here && drag.gesture != Move && Dragged(sequence.tracks, drag.id).value.1 != drag.destination)
            && (drag.gesture == Move && !drag.snapping ==> (r.None? <==> here))
  {
    hide RationalTime.Seconds, Dragged, HasTrack, NoClip, EndsFit, EdgesOf, OnTrack, Valid;
    hide TargetRefusal, TrimRefusal, SnappedTime;
    DraggedIs(project.sequences[s].tracks, drag.id);
    ValidEndsFit(project, s, drag.id);
    var tracks, frame := project.sequences[s].tracks, project.sequences[s].frameDuration;
    if Dragged(tracks, drag.id).Some? {
      var clip := Dragged(tracks, drag.id).value.0;
      var edges := EdgesOf(tracks, drag.id);
      TargetErrors(drag, clip, frame, edges);
      TrimErrors(drag.gesture, clip, drag.target);
      if TargetRefusal(drag, clip, frame, edges).None? && drag.snapping && drag.gesture != Move {
        TrimErrors(drag.gesture, clip, SnappedTime(drag.target, frame, drag.playhead, edges, drag.tolerance));
      }
    }
  }

  lemma TargetErrors(drag: Drag, clip: Clip, frame: Time, edges: seq<Time>)
    ensures var r := TargetRefusal(drag, clip, frame, edges);
            && (r.Some? ==> r.value == UnsupportedGrid || r.value == IndexOutOfRange || r.value == InexactTime)
            && (!drag.snapping ==> r.None?)
            && (r.None? && drag.snapping && drag.gesture != Move ==> Snappable(drag.target, frame))
  {
    hide RationalTime.Seconds, Plus, Minus, Nearest, GapInexact, GridNeighbours, EndWins, SnapGrid;
  }

  lemma TrimErrors(gesture: ClipGesture, clip: Clip, t: Time)
    ensures var r := TrimRefusal(gesture, clip, t);
            && (r.Some? ==> r.value == EmptyClip || r.value == NoEarlierMedia || r.value == InexactTime)
            && (gesture == Move ==> r.None?)
  {
    hide RationalTime.Seconds, Plus, Minus, Clip.End;
  }

  lemma ValidEndsFit(project: ProjectSnapshot, s: nat, id: uint64)
    requires Valid(project) && s < |project.sequences|
    ensures EndsFit(project.sequences[s].tracks, id)
  {
    hide ValidSequence;
    hide RationalTime.Seconds, Ordered, ValidRecord, ValidAsset, NoDuplicates, Allocated, ValidRouting, ValidOutput;
    var sequence := project.sequences[s];
    assert ValidSequence(sequence, project.media);
    forall t | 0 <= t < |sequence.tracks|
      ensures ClipEndsFit(sequence.tracks[t].clips, id)
    {
      TrackEndsFit(sequence, project.media, t, id);
    }
  }

  lemma TrackEndsFit(sequence: Sequence, media: seq<MediaAsset>, t: nat, id: uint64)
    requires ValidSequence(sequence, media) && t < |sequence.tracks|
    ensures ClipEndsFit(sequence.tracks[t].clips, id)
  {
    hide RationalTime.Seconds, Ordered, ValidRouting, ValidOutput;
    assert ValidTrack(sequence.tracks[t], media);
    forall k | 0 <= k < |sequence.tracks[t].clips|
      ensures sequence.tracks[t].clips[k].End().Some?
    {
      assert ValidClip(sequence.tracks[t].clips[k], media, sequence.tracks[t].kind);
    }
  }

  /** A right trim is refused exactly when it would leave nothing, or when the new duration does not fit. */
  lemma RightTrimRefused(clip: Clip, target: Time)
    ensures var r := TrimmedRight(clip, target);
            && (r == Failure(EmptyClip) <==> target.Seconds() <= clip.position.Seconds())
            && (r == Failure(InexactTime) <==>
                  target.Seconds() > clip.position.Seconds() && Minus(target, clip.position).None?)
            && (r.Failure? ==> r.error == EmptyClip || r.error == InexactTime)
  {
    hide RationalTime.Seconds, Minus;
  }

  /**
   A left trim is refused for missing media exactly when the target would show source from before its
   beginning and the distance to it fits; for an inexact time exactly when a time it computes does not fit.
   */
  lemma LeftTrimRefused(clip: Clip, end: Time, target: Time)
    requires clip.End() == Some(end)
    ensures var r := TrimmedLeft(clip, end, target);
            var moved := if target.Seconds() >= clip.position.Seconds() then Minus(target, clip.position)
                         else Minus(clip.position, target);
            var shown := SourceShown(clip.position, clip.source, target.Seconds());
            && (r == Failure(EmptyClip) <==> target.Seconds() >= end.Seconds())
            && (r == Failure(NoEarlierMedia) <==> target.Seconds() < end.Seconds() && shown < 0.0 && moved.Some?)
            && (r == Failure(InexactTime) <==>
                  && target.Seconds() < end.Seconds()
                  && (moved.None? || (shown >= 0.0 && (SourceStart(clip, target).None? || Minus(end, target).None?))))
            && (r.Failure? ==> r.error in {EmptyClip, NoEarlierMedia, InexactTime})
  {
    hide RationalTime.Seconds, Plus, Minus;
    SecondsNonnegative(clip.source.start);
    SecondsNonnegative(target);
  }

  /** The source a left-trimmed clip begins with, when that time is exact. */
  function SourceStart(clip: Clip, target: Time): (r: Option<Time>)
    ensures r.Some? ==> r.value.Seconds() == SourceShown(clip.position, clip.source, target.Seconds())
  {
    hide RationalTime.Seconds;
    if target.Seconds() >= clip.position.Seconds() then
      var offset := Minus(target, clip.position);
      if offset.None? then None else Plus(clip.source.start, offset.value)
    else
      var extension := Minus(clip.position, target);
      if extension.None? then None else Minus(clip.source.start, extension.value)
  }

  // ----- stepping on the output grid

  /**
   The grid search and target of `SequenceTransport::step`: the next grid point, or the last one before
   the position, clamped to the sequence.
   */
  method Step(plan: SequencePlan, position: Time, direction: int, estimate: int) returns (target: Time)
    requires WithinLimits(plan) && position.Seconds() <= plan.duration.Seconds()
    requires 0 <= estimate < FRAME_LIMIT
    ensures target.Seconds() == StepTarget(plan, position.Seconds(), direction)
  {
    SecondsNonnegative(position);
    hide RationalTime.Seconds, WithinLimits, FrameSeconds;
    var index := estimate;
    FrameStart(plan);
    while FrameTime(plan, index).Seconds() > position.Seconds() && index > 0
      invariant 0 <= index < FRAME_LIMIT
      decreases index
    {
      index := index - 1;
    }
    while FrameTime(plan, index + 1).Seconds() <= position.Seconds()
      invariant 0 <= index < FRAME_LIMIT && FrameSeconds(plan, index) <= position.Seconds()
      decreases FRAME_LIMIT - index
    {
      LimitOfDuration(plan);
      FrameBelowLimit(plan, index + 1);
      index := index + 1;
    }
    LastFrameUnique(plan, position.Seconds(), index);
    var here := FrameTime(plan, index);
    if direction >= 0 {
      index := index + 1;
    } else if here.Seconds() >= position.Seconds() && index > 0 {
      index := index - 1;
    }
    var stepped := FrameTime(plan, index);
    target := if stepped.Seconds() < plan.duration.Seconds() then stepped else plan.duration;
  }

  lemma LimitOfDuration(plan: SequencePlan)
    requires WithinLimits(plan)
    ensures plan.duration.Seconds() <= 86400.0
  {
  }

  lemma FrameStart(plan: SequencePlan)
    ensures FrameSeconds(plan, 0) == 0.0
  {
  }

  /** The last frame at or before an instant. */
  function LastFrame(plan: SequencePlan, x: real): int
    requires WithinLimits(plan)
  {
    (x / plan.frameDuration.Seconds()).Floor
  }

  lemma LastFrameUnique(plan: SequencePlan, x: real, k: int)
    requires WithinLimits(plan)
    ensures FrameSeconds(plan, k) <= x < FrameSeconds(plan, k + 1) <==> k == LastFrame(plan, x)
  {
    hide RationalTime.Seconds;
    QuotientOrder(k as real, x, plan.frameDuration.Seconds());
    QuotientOrder((k + 1) as real, x, plan.frameDuration.Seconds());
  }

  /** Where a step leads: forward to the next grid point, backward to the one strictly before the position. */
  function StepTarget(plan: SequencePlan, x: real, direction: int): real
    requires WithinLimits(plan)
  {
    var k := LastFrame(plan, x);
    var next := if direction >= 0 then k + 1
                else if FrameSeconds(plan, k) >= x && k > 0 then k - 1 else k;
    Lesser(FrameSeconds(plan, next), plan.duration.Seconds())
  }

  /** Forward then backward, and backward then forward, return to a grid point the clamp does not touch. */
  lemma StepsCancel(plan: SequencePlan, k: int)
    requires WithinLimits(plan) && 0 <= k && FrameSeconds(plan, k) < plan.duration.Seconds()
    ensures FrameSeconds(plan, k + 1) <= plan.duration.Seconds() ==>
              StepTarget(plan, StepTarget(plan, FrameSeconds(plan, k), 1), -1) == FrameSeconds(plan, k)
    ensures k > 0 ==>
              StepTarget(plan, StepTarget(plan, FrameSeconds(plan, k), -1), 1) == FrameSeconds(plan, k)
  {
    hide RationalTime.Seconds, LastFrame, FrameSeconds, WithinLimits;
    FramesIncrease(plan, k, k + 1);
    FramesIncrease(plan, k + 1, k + 2);
    FramesIncrease(plan, k - 1, k);
    LastFrameUnique(plan, FrameSeconds(plan, k), k);
    LastFrameUnique(plan, FrameSeconds(plan, k + 1), k + 1);
    LastFrameUnique(plan, FrameSeconds(plan, k - 1), k - 1);
  }
}
