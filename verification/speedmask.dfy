/** The speed mask: each section's band is painted with its quantised limit, the lower one where bands overlap. */
module SpeedMask {
  import opened Frames
  import opened Rounding
  import opened Segments

  const MASK_MAX := 100

  function Quantise(v: real, step: real): (q: int)
    requires step > 0.0
    ensures 1 <= q <= MASK_MAX
  {
    var n := RoundHalfEven(v / step);
    if n < 1 then 1 else if n > MASK_MAX then MASK_MAX else n
  }

  lemma DivideMonotone(u: real, v: real, step: real)
    requires step > 0.0 && u <= v
    ensures u / step <= v / step
  {
    assert (v - u) / step >= 0.0;
    assert v / step == u / step + (v - u) / step;
  }

  /** A lower limit never gets a higher cell value. */
  lemma QuantiseIsMonotone(u: real, v: real, step: real)
    requires step > 0.0 && u <= v
    ensures Quantise(u, step) <= Quantise(v, step)
  {
    DivideMonotone(u, v, step);
    RoundIsMonotone(u / step, v / step);
  }

  /** The limit a cell value stands for is at most half a step off; limits below half a step or above the largest value
      are clipped to the two ends. */
  lemma QuantiseIsNearest(v: real, step: real)
    requires step > 0.0
    ensures var q := Quantise(v, step);
      && (0.5 * step <= v <= 100.5 * step ==> q as real * step - v <= 0.5 * step && v - q as real * step <= 0.5 * step)
      && (v < 0.5 * step ==> q == 1) && (v > 100.5 * step ==> q == 100)
  {
    var r, q := v / step, Quantise(v, step);
    assert r * step == v;
    QuantiseRounds(v, step);
    ScaleOrder(0.5, r, step);
    ScaleOrder(r, 100.5, step);
    hide Quantise;
    if 0.5 <= r <= 100.5 {
      HalfStep(q as real, r, v, step);
      HalfStep(r, q as real, q as real * step, step);
    }
  }

  lemma HalfStep(a: real, b: real, w: real, step: real)
    requires step > 0.0 && a - b <= 0.5 && w == b * step
    ensures a * step - w <= 0.5 * step
  {
    ScaleUp(a - b, 0.5, step);
    assert (a - b) * step == a * step - w;
  }

  lemma ScaleUp(a: real, b: real, step: real)
    requires a <= b && step > 0.0
    ensures a * step <= b * step
  {
  }

  lemma QuantiseRounds(v: real, step: real)
    requires step > 0.0
    ensures var r, q := v / step, Quantise(v, step);
      && (0.5 <= r <= 100.5 ==> -0.5 <= q as real - r <= 0.5) && (r < 0.5 ==> q == 1) && (r > 100.5 ==> q == 100)
  {
  }

  lemma ScaleOrder(a: real, b: real, step: real)
    requires step > 0.0
    ensures a <= b <==> a * step <= b * step
    ensures a < b <==> a * step < b * step
  {
    assert (b - a) * step == b * step - a * step;
    if a < b {
      Positive(b - a, step);
    } else if a > b {
      Positive(a - b, step);
    }
  }

  datatype Section = Section(a: Point, b: Point, limit: real, q: int)

  predicate Covers(s: Section, c: Point, half: real) {
    Near(s.a, s.b, c, half)
  }

  /** One cell after the sections in order: its value (0 for none) and the section that set it (-1 for none). */
  function Paint(sections: seq<Section>, c: Point, half: real): (int, int) {
    if sections == [] then (0, -1)
    else
      var k := |sections| - 1;
      var (value, owner) := Paint(sections[..k], c, half);
      if Covers(sections[k], c, half) && (value == 0 || sections[k].q < value) then (sections[k].q, k) else (value, owner)
  }

  ghost predicate Quantised(sections: seq<Section>, step: real)
    requires step > 0.0
  {
    forall i :: 0 <= i < |sections| ==> sections[i].q == Quantise(sections[i].limit, step)
  }

  /** The value is the least of the covering sections' values, set by the first section that has it. */
  ghost predicate Lowest(sections: seq<Section>, c: Point, half: real, value: int, owner: int) {
    if forall i :: 0 <= i < |sections| ==> !Covers(sections[i], c, half) then value == 0 && owner == -1
    else
      && 0 <= owner < |sections| && Covers(sections[owner], c, half) && value == sections[owner].q
      && (forall i :: 0 <= i < |sections| && Covers(sections[i], c, half) ==> value <= sections[i].q)
      && (forall i :: 0 <= i < owner && Covers(sections[i], c, half) ==> value < sections[i].q)
  }

  lemma {:induction false} PaintIsLowest(sections: seq<Section>, c: Point, half: real)
    requires forall i :: 0 <= i < |sections| ==> sections[i].q > 0
    ensures Lowest(sections, c, half, Paint(sections, c, half).0, Paint(sections, c, half).1)
  {
    hide Covers;
    if sections != [] {
      var k := |sections| - 1;
      PaintIsLowest(sections[..k], c, half);
      assert forall i :: 0 <= i < k ==> sections[..k][i] == sections[i];
    }
  }

  /** In terms of the limits themselves: the cell value is the quantised lowest limit of the covering sections. */
  lemma PaintIsLowestLimit(sections: seq<Section>, c: Point, half: real, step: real, m: nat)
    requires step > 0.0 && Quantised(sections, step)
    requires m < |sections| && Covers(sections[m], c, half)
    requires forall i :: 0 <= i < |sections| && Covers(sections[i], c, half) ==> sections[m].limit <= sections[i].limit
    ensures Paint(sections, c, half).0 == Quantise(sections[m].limit, step)
  {
    hide Covers, Quantise;
    assert forall i :: 0 <= i < |sections| ==> Quantise(sections[i].limit, step) >= 1;
    PaintIsLowest(sections, c, half);
    var owner := Paint(sections, c, half).1;
    QuantiseIsMonotone(sections[m].limit, sections[owner].limit, step);
  }

  /** When section b is painted, the cell already holds another value, which section a set. */
  predicate Conflicts(sections: seq<Section>, c: Point, half: real, a: int, b: int) {
    && 0 <= b < |sections| && Covers(sections[b], c, half)
    && var (value, owner) := Paint(sections[..b], c, half); owner == a && value > 0 && value != sections[b].q
  }

  /** The point lies in both bands, with different values, and a is the first section before b with the least value there. */
  ghost predicate Meets(sections: seq<Section>, c: Point, half: real, a: int, b: int) {
    && 0 <= a < b < |sections| && Covers(sections[a], c, half) && Covers(sections[b], c, half)
    && sections[a].q != sections[b].q
    && (forall i :: 0 <= i < b && Covers(sections[i], c, half) ==> sections[a].q <= sections[i].q)
    && (forall i :: 0 <= i < a && Covers(sections[i], c, half) ==> sections[a].q < sections[i].q)
  }

  lemma ConflictMeans(sections: seq<Section>, c: Point, half: real, a: int, b: int)
    requires forall i :: 0 <= i < |sections| ==> sections[i].q > 0
    ensures Conflicts(sections, c, half, a, b) <==> Meets(sections, c, half, a, b)
  {
    hide Covers;
    if 0 <= b < |sections| {
      PaintIsLowest(sections[..b], c, half);
      assert forall i :: 0 <= i < b ==> sections[..b][i] == sections[i];
    }
  }

  lemma {:induction false} WithoutConflictOneValue(sections: seq<Section>, c: Point, half: real, n: nat)
    requires forall i :: 0 <= i < |sections| ==> sections[i].q > 0
    requires n <= |sections| && forall a: int, b: int :: b < n ==> !Conflicts(sections, c, half, a, b)
    ensures forall i :: 0 <= i < n && Covers(sections[i], c, half) ==> Paint(sections[..n], c, half).0 == sections[i].q
    ensures Paint(sections[..n], c, half).0 >= 0
  {
    hide Covers;
    if n > 0 {
      WithoutConflictOneValue(sections, c, half, n - 1);
      assert sections[..n][..n - 1] == sections[..n - 1] && sections[..n][n - 1] == sections[n - 1];
      assert !Conflicts(sections, c, half, Paint(sections[..n - 1], c, half).1, n - 1);
      PaintIsLowest(sections[..n - 1], c, half);
    }
  }

  /** A cell causes a warning exactly when it lies in two bands with different values. */
  lemma ConflictIff(sections: seq<Section>, c: Point, half: real)
    requires forall i :: 0 <= i < |sections| ==> sections[i].q > 0
    ensures (exists a: int, b: int :: Conflicts(sections, c, half, a, b)) <==> TwoValues(sections, c, half)
  {
    hide Covers;
    if a: int, b: int :| Conflicts(sections, c, half, a, b) {
      ConflictMeans(sections, c, half, a, b);
    } else {
      assert sections[..|sections|] == sections;
      WithoutConflictOneValue(sections, c, half, |sections|);
    }
  }

  ghost predicate TwoValues(sections: seq<Section>, c: Point, half: real) {
    exists i, j :: 0 <= i < |sections| && 0 <= j < |sections| && Covers(sections[i], c, half) && Covers(sections[j], c, half)
      && sections[i].q != sections[j].q
  }

  // ----- the grids

  datatype Geometry = Geometry(resolution: real, originX: real, originY: real, width: nat, height: nat)

  function Centre(g: Geometry, j: int, i: int): Point {
    Point(g.originX + (i as real + 0.5) * g.resolution, g.originY + (j as real + 0.5) * g.resolution)
  }

  type Cell = (int, int)

  function Cells(g: Geometry): set<Cell> {
    set j, i | 0 <= j < g.height && 0 <= i < g.width :: (j, i)
  }

  /** The cells on which section b meets another value of section a. */
  function ConflictCells(sections: seq<Section>, g: Geometry, half: real, a: int, b: int): set<Cell> {
    set c | c in Cells(g) && Conflicts(sections, Centre(g, c.0, c.1), half, a, b)
  }

  function SectionsOf(waypoints: seq<Point>, limits: seq<real>, step: real): (s: seq<Section>)
    requires |waypoints| == |limits| + 1 && step > 0.0
    ensures Quantised(s, step) && |s| == |limits|
  {
    seq(|limits|, i requires 0 <= i < |limits| => Section(waypoints[i], waypoints[i + 1], limits[i], Quantise(limits[i], step)))
  }

  lemma CentreIsMiddle(g: Geometry, j: int, i: int)
    ensures IsMiddle(Centre(g, j, i), Point(g.originX, g.originY), g.resolution, i, j)
  {
  }

  /** The section from the k-th waypoint to the next passes the point. */
  predicate Passes(waypoints: seq<Point>, k: nat, c: Point, half: real)
    requires k + 1 < |waypoints|
  {
    Near(waypoints[k], waypoints[k + 1], c, half)
  }

  /** In terms of the waypoints: the cell value is that of the lowest limit of the sections between neighbouring waypoints that
      pass the cell's middle, and 0 when none does. */
  lemma CellIsLowestLimit(waypoints: seq<Point>, limits: seq<real>, g: Geometry, half: real, step: real, j: int, i: int, m: nat)
    requires |waypoints| == |limits| + 1 && step > 0.0 && m < |limits|
    ensures var c := Centre(g, j, i); var value := Paint(SectionsOf(waypoints, limits, step), c, half).0;
      && (value == 0 <==> forall k: nat :: k < |limits| ==> !Passes(waypoints, k, c, half))
      && (Passes(waypoints, m, c, half)
          && (forall k: nat :: k < |limits| && Passes(waypoints, k, c, half) ==> limits[m] <= limits[k])
          ==> value == Quantise(limits[m], step))
  {
    hide Near, Quantise, Centre;
    var c, s := Centre(g, j, i), SectionsOf(waypoints, limits, step);
    assert forall k: nat :: k < |s| ==> Covers(s[k], c, half) == Passes(waypoints, k, c, half) && s[k].limit == limits[k];
    assert forall k :: 0 <= k < |s| ==> s[k].q >= 1;
    hide Paint, Covers, Passes, SectionsOf;
    PaintIsLowest(s, c, half);
    if Passes(waypoints, m, c, half) && forall k: nat :: k < |limits| && Passes(waypoints, k, c, half) ==> limits[m] <= limits[k] {
      PaintIsLowestLimit(s, c, half, step, m);
    }
  }

  ghost predicate PaintedSoFar(value: array2<int>, owner: array2<int>, g: Geometry, sections: seq<Section>, half: real)
    reads value, owner
  {
    && value.Length0 == owner.Length0 == g.height && value.Length1 == owner.Length1 == g.width
    && forall j, i :: 0 <= j < g.height && 0 <= i < g.width ==>
         (value[j, i], owner[j, i]) == Paint(sections, Centre(g, j, i), half)
  }

  ghost predicate Counted(conflicts: map<(int, int), nat>, sections: seq<Section>, g: Geometry, half: real, k: nat) {
    && (forall key :: key in conflicts <==> key.1 < k && ConflictCells(sections, g, half, key.0, key.1) != {})
    && (forall key :: key in conflicts ==> conflicts[key] == |ConflictCells(sections, g, half, key.0, key.1)|)
  }

  /** generate(): the mask, the section that set each cell, and the number of conflicting cells of each pair of sections. */
  method Generate(waypoints: seq<Point>, limits: seq<real>, g: Geometry, half: real, step: real)
    returns (ok: bool, value: array2<int>, owner: array2<int>, conflicts: map<(int, int), nat>)
    ensures ok <==> half > 0.0 && |waypoints| >= 2 && |limits| + 1 == |waypoints| && step > 0.0
    ensures fresh(value) && fresh(owner)
    ensures ok ==> var sections := SectionsOf(waypoints, limits, step);
      PaintedSoFar(value, owner, g, sections, half) && Counted(conflicts, sections, g, half, |sections|)
  {
    hide Covers, Conflicts, Centre, Quantise, ConflictCells, Counted;
    conflicts := map[];
    if half <= 0.0 || |waypoints| < 2 || |limits| != |waypoints| - 1 || step <= 0.0 {
      ok, value, owner := false, new int[0, 0], new int[0, 0];
      return;
    }
    ok, value, owner := true, new int[g.height, g.width]((j, i) => 0), new int[g.height, g.width]((j, i) => -1);
    var sections := SectionsOf(waypoints, limits, step);
    NothingCounted(sections, g, half);
    var k := 0;
    while k < |sections|
      invariant 0 <= k <= |sections|
      invariant PaintedSoFar(value, owner, g, sections[..k], half)
      invariant Counted(conflicts, sections, g, half, k)
    {
      conflicts := CountConflicts(value, owner, g, sections, half, k, conflicts);
      PaintSection(value, owner, g, sections, half, k);
      k := k + 1;
    }
    assert sections[..k] == sections;
  }

  lemma NothingCounted(sections: seq<Section>, g: Geometry, half: real)
    ensures Counted(map[], sections, g, half, 0)
  {
    hide Covers, Centre, Paint;
  }

  method PaintSection(value: array2<int>, owner: array2<int>, g: Geometry, sections: seq<Section>, half: real, k: nat)
    requires k < |sections| && value != owner && PaintedSoFar(value, owner, g, sections[..k], half)
    modifies value, owner
    ensures PaintedSoFar(value, owner, g, sections[..k + 1], half)
  {
    hide Covers, Centre;
    var s := sections[k];
    assert sections[..k + 1][..k] == sections[..k] && sections[..k + 1][k] == s;
    forall j, i | 0 <= j < g.height && 0 <= i < g.width && Covers(s, Centre(g, j, i), half)
                  && (value[j, i] == 0 || s.q < value[j, i]) {
      owner[j, i] := k;
    }
    forall j, i | 0 <= j < g.height && 0 <= i < g.width && Covers(s, Centre(g, j, i), half)
                  && (value[j, i] == 0 || s.q < value[j, i]) {
      value[j, i] := s.q;
    }
  }

  /** The cells of diff that section a owns. */
  function Owned(diff: set<Cell>, owner: array2<int>, a: int): set<Cell>
    requires forall c: Cell :: c in diff ==> 0 <= c.0 < owner.Length0 && 0 <= c.1 < owner.Length1
    reads owner
  {
    set c | c in diff && owner[c.0, c.1] == a
  }

  /** The cells of section k's band that hold another value, counted by the section that owns them. */
  method CountConflicts(value: array2<int>, owner: array2<int>, g: Geometry, sections: seq<Section>, half: real, k: nat,
                        before: map<(int, int), nat>) returns (after: map<(int, int), nat>)
    requires k < |sections| && PaintedSoFar(value, owner, g, sections[..k], half)
    requires forall i :: 0 <= i < |sections| ==> sections[i].q > 0
    requires Counted(before, sections, g, half, k)
    ensures Counted(after, sections, g, half, k + 1)
  {
    hide Covers, Centre, Conflicts;
    var s := sections[k];
    var diff := set c | c in Cells(g) && Covers(s, Centre(g, c.0, c.1), half) && value[c.0, c.1] > 0 && value[c.0, c.1] != s.q;
    var owners := set c | c in diff :: owner[c.0, c.1];
    forall a: int
      ensures Owned(diff, owner, a) == ConflictCells(sections, g, half, a, k)
      ensures ConflictCells(sections, g, half, a, k) != {} <==> a in owners
      ensures a in owners ==> 0 <= a < k
    {
      OwnedDiff(value, owner, g, sections, half, k, a, diff, owners);
    }
    hide PaintedSoFar, ConflictCells, Owned, Counted;
    KeysBefore(before, sections, g, half, k);
    after := CountOwners(diff, owner, owners, k, before);
    CountedNext(before, after, owners, sections, g, half, k);
  }

  lemma KeysBefore(before: map<(int, int), nat>, sections: seq<Section>, g: Geometry, half: real, k: nat)
    requires Counted(before, sections, g, half, k)
    ensures forall key :: key in before ==> key.1 < k
  {
  }

  lemma CountedNext(before: map<(int, int), nat>, after: map<(int, int), nat>, owners: set<int>, sections: seq<Section>,
                    g: Geometry, half: real, k: nat)
    requires Counted(before, sections, g, half, k)
    requires forall a: int :: ConflictCells(sections, g, half, a, k) != {} <==> a in owners
    requires forall key :: key in after <==> key in before || (key.1 == k && key.0 in owners)
    requires forall key :: key in before ==> key in after && after[key] == before[key]
    requires forall a :: a in owners ==> (a, k) in after && after[(a, k)] == |ConflictCells(sections, g, half, a, k)|
    ensures Counted(after, sections, g, half, k + 1)
  {
    hide ConflictCells;
    forall key | key in after
      ensures key.1 < k + 1 && ConflictCells(sections, g, half, key.0, key.1) != {}
      ensures after[key] == |ConflictCells(sections, g, half, key.0, key.1)|
    {
      if key !in before {
        assert key == (key.0, k);
      }
    }
  }

  function Get(m: map<(int, int), nat>, key: (int, int)): nat {
    if key in m then m[key] else 0
  }

  lemma NonEmptyHas(s: set<int>)
    requires s != {}
    ensures exists a: int :: a in s
  {
    assert (forall a: int :: a !in s) ==> s == {};
  }

  method CountOwners(diff: set<Cell>, owner: array2<int>, owners: set<int>, k: nat, before: map<(int, int), nat>)
    returns (after: map<(int, int), nat>)
    requires forall c: Cell :: c in diff ==> 0 <= c.0 < owner.Length0 && 0 <= c.1 < owner.Length1
    requires forall a :: a in owners ==> 0 <= a < k
    requires forall key :: key in before ==> key.1 < k
    ensures forall key :: key in after <==> key in before || (key.1 == k && key.0 in owners)
    ensures forall key :: key in before ==> key in after && after[key] == before[key]
    ensures forall a :: a in owners ==> (a, k) in after && after[(a, k)] == |Owned(diff, owner, a)|
  {
    after := before;
    var others := owners;
    while others != {}
      invariant others <= owners
      invariant forall key :: key in after <==> key in before || (key.1 == k && key.0 in owners && key.0 !in others)
      invariant forall key :: key in before ==> after[key] == before[key]
      invariant forall a :: a in owners && a !in others ==> after[(a, k)] == |Owned(diff, owner, a)|
      decreases |others|
    {
      NonEmptyHas(others);
      var other :| other in others;
      var n := |Owned(diff, owner, other)|;
      var key := (if other < k then other else k, if other < k then k else other);
      after := after[key := Get(after, key) + n];
      others := others - {other};
    }
  }

  lemma OwnedDiff(value: array2<int>, owner: array2<int>, g: Geometry, sections: seq<Section>, half: real, k: nat, a: int,
                  diff: set<Cell>, owners: set<int>)
    requires k < |sections| && PaintedSoFar(value, owner, g, sections[..k], half)
    requires forall i :: 0 <= i < |sections| ==> sections[i].q > 0
    requires diff == set c | c in Cells(g) && Covers(sections[k], Centre(g, c.0, c.1), half) && value[c.0, c.1] > 0
                             && value[c.0, c.1] != sections[k].q
    requires owners == set c | c in diff :: owner[c.0, c.1]
    ensures Owned(diff, owner, a) == ConflictCells(sections, g, half, a, k)
    ensures ConflictCells(sections, g, half, a, k) != {} <==> a in owners
    ensures a in owners ==> 0 <= a < k
  {
    hide Covers, Centre;
    assert Owned(diff, owner, a) == ConflictCells(sections, g, half, a, k);
    if a in owners {
      var c :| c in diff && owner[c.0, c.1] == a;
      assert c in ConflictCells(sections, g, half, a, k);
      PaintIsLowest(sections[..k], Centre(g, c.0, c.1), half);
    }
    if ConflictCells(sections, g, half, a, k) != {} {
      var c :| c in ConflictCells(sections, g, half, a, k);
      assert c in diff && owner[c.0, c.1] == a;
    }
  }

  /** Some warning is given exactly when some cell of the grid lies in two bands with different values. */
  lemma WarningIff(sections: seq<Section>, g: Geometry, half: real, conflicts: map<(int, int), nat>)
    requires forall i :: 0 <= i < |sections| ==> sections[i].q > 0
    requires Counted(conflicts, sections, g, half, |sections|)
    ensures conflicts != map[]
            <==> exists j, i :: 0 <= j < g.height && 0 <= i < g.width && TwoValues(sections, Centre(g, j, i), half)
  {
    hide Conflicts, TwoValues, Centre, Meets;
    if conflicts != map[] {
      var key :| key in conflicts;
      var c :| c in ConflictCells(sections, g, half, key.0, key.1);
      ConflictIff(sections, Centre(g, c.0, c.1), half);
    }
    if j, i :| 0 <= j < g.height && 0 <= i < g.width && TwoValues(sections, Centre(g, j, i), half) {
      ConflictIff(sections, Centre(g, j, i), half);
      var a: int, b: int :| Conflicts(sections, Centre(g, j, i), half, a, b);
      BelowLength(sections, Centre(g, j, i), half, a, b);
      assert (j, i) in ConflictCells(sections, g, half, a, b);
      assert (a, b) in conflicts;
    }
  }

  lemma BelowLength(sections: seq<Section>, c: Point, half: real, a: int, b: int)
    requires Conflicts(sections, c, half, a, b)
    ensures b < |sections|
  {
  }

  ghost predicate MeetsAt(sections: seq<Section>, g: Geometry, half: real, j: int, i: int, key: (int, int)) {
    0 <= j < g.height && 0 <= i < g.width && Meets(sections, Centre(g, j, i), half, key.0, key.1)
  }

  /** A pair of sections is warned about exactly when they meet on some cell, and the number it carries is that of those cells. */
  lemma WarningCounts(sections: seq<Section>, g: Geometry, half: real, conflicts: map<(int, int), nat>, key: (int, int))
    returns (cells: set<Cell>)
    requires forall i :: 0 <= i < |sections| ==> sections[i].q > 0
    requires Counted(conflicts, sections, g, half, |sections|)
    ensures forall j, i :: (j, i) in cells <==> MeetsAt(sections, g, half, j, i, key)
    ensures key in conflicts <==> cells != {}
    ensures key in conflicts ==> conflicts[key] == |cells|
  {
    hide Conflicts, Centre, Meets;
    cells := ConflictCells(sections, g, half, key.0, key.1);
    forall j, i
      ensures (j, i) in cells <==> MeetsAt(sections, g, half, j, i, key)
    {
      ConflictMeans(sections, Centre(g, j, i), half, key.0, key.1);
    }
    if cells != {} {
      var c :| c in cells;
      BelowLength(sections, Centre(g, c.0, c.1), half, key.0, key.1);
    }
  }
}
