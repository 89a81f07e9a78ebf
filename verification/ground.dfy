/** The ground of the converted map: the greatest surface under the lowest observed points that obeys the slope limit,
    computed by rounds of relaxation over the eight neighbours of every cell. */
module Ground {

  /** A cell value; Inf stands for numpy's inf. */
  datatype Height = Inf | Fin(v: real)

  predicate Leq(a: Height, b: Height) {
    b.Inf? || (a.Fin? && a.v <= b.v)
  }

  function Min(a: Height, b: Height): Height {
    if Leq(a, b) then a else b
  }

  function Plus(a: Height, c: real): Height {
    if a.Inf? then Inf else Fin(a.v + c)
  }

  datatype Cell = Cell(y: int, x: int)

  type Grid = seq<seq<Height>>

  /** The value at a cell, Inf outside the grid: what _shifted fills in. */
  function At(g: Grid, c: Cell): Height {
    if 0 <= c.y < |g| && 0 <= c.x < |g[c.y]| then g[c.y][c.x] else Inf
  }

  predicate Shape(g: Grid, h: nat, w: nat) {
    |g| == h && forall y :: 0 <= y < h ==> |g[y]| == w
  }

  predicate InGrid(h: nat, w: nat, c: Cell) {
    0 <= c.y < h && 0 <= c.x < w
  }

  /** The problem: grid size, cost of a straight and of a diagonal step, and the allowed cells. */
  datatype Terrain = Terrain(h: nat, w: nat, straight: real, diagonal: real, allowed: set<Cell>)

  /** A diagonal step costs at least a straight one and at most two. */
  ghost predicate Valid(t: Terrain) {
    && 0.0 < t.straight <= t.diagonal <= 2.0 * t.straight
    && forall c :: c in t.allowed ==> InGrid(t.h, t.w, c)
  }

  const NEIGHBOURS: seq<Cell> :=
    [Cell(-1, -1), Cell(-1, 0), Cell(-1, 1), Cell(0, -1), Cell(0, 1), Cell(1, -1), Cell(1, 0), Cell(1, 1)]

  function Moved(c: Cell, d: Cell): Cell {
    Cell(c.y + d.y, c.x + d.x)
  }

  function StepCost(t: Terrain, d: Cell): real {
    if d.y != 0 && d.x != 0 then t.diagonal else t.straight
  }

  // ----- one round

  /** The least of the old value and the candidates of the first k neighbours. */
  function Best(t: Terrain, g: Grid, c: Cell, k: nat): Height
    requires k <= 8
  {
    if k == 0 then At(g, c)
    else Min(Best(t, g, c, k - 1), Plus(At(g, Moved(c, NEIGHBOURS[k - 1])), StepCost(t, NEIGHBOURS[k - 1])))
  }

  /** The grid after k of the eight neighbours: np.where keeps the minimum in allowed cells and inf elsewhere. */
  function Partial(t: Terrain, g: Grid, k: nat): (r: Grid)
    requires 1 <= k <= 8
    ensures Shape(r, t.h, t.w)
    ensures forall c :: InGrid(t.h, t.w, c) ==> At(r, c) == if c in t.allowed then Best(t, g, c, k) else Inf
  {
    seq(t.h, y => seq(t.w, x => if Cell(y, x) in t.allowed then Best(t, g, Cell(y, x), k) else Inf))
  }

  function Round(t: Terrain, g: Grid): Grid {
    Partial(t, g, 8)
  }

  function Rounds(t: Terrain, z: Grid, k: nat): Grid {
    if k == 0 then z else Round(t, Rounds(t, z, k - 1))
  }

  /** cand and np.where for one neighbour, over the whole grid. */
  function Sweep(t: Terrain, g: Grid, prev: Grid, d: Cell): (r: Grid)
    ensures Shape(r, t.h, t.w)
    ensures forall c :: InGrid(t.h, t.w, c) ==>
              At(r, c) == if c in t.allowed then Min(At(g, c), Plus(At(prev, Moved(c, d)), StepCost(t, d))) else Inf
  {
    seq(t.h, y => seq(t.w, x =>
      if Cell(y, x) in t.allowed then Min(At(g, Cell(y, x)), Plus(At(prev, Moved(Cell(y, x), d)), StepCost(t, d))) else Inf))
  }

  lemma SameGrid(a: Grid, b: Grid, h: nat, w: nat)
    requires Shape(a, h, w) && Shape(b, h, w)
    requires forall c :: InGrid(h, w, c) ==> At(a, c) == At(b, c)
    ensures a == b
  {
    forall y | 0 <= y < h ensures a[y] == b[y] {
      forall x | 0 <= x < w ensures a[y][x] == b[y][x] { assert InGrid(h, w, Cell(y, x)); assert At(a, Cell(y, x)) == At(b, Cell(y, x)); }
    }
  }

  /** The inner loop of one round: the eight neighbours one after the other, all read from the previous grid. */
  method RelaxOnce(t: Terrain, prev: Grid) returns (g: Grid)
    requires Shape(prev, t.h, t.w)
    ensures Shape(g, t.h, t.w) && g == Round(t, prev)
  {
    hide At, StepCost;
    g := prev;
    var k := 0;
    while k < 8
      invariant 0 <= k <= 8 && Shape(g, t.h, t.w)
      invariant k > 0 ==> g == Partial(t, prev, k)
      invariant k == 0 ==> g == prev
    {
      var next := Sweep(t, g, prev, NEIGHBOURS[k]);
      SweepExtends(t, g, prev, k);
      g := next;
      k := k + 1;
    }
  }

  lemma SweepExtends(t: Terrain, g: Grid, prev: Grid, k: nat)
    requires k < 8 && Shape(g, t.h, t.w) && g == if k == 0 then prev else Partial(t, prev, k)
    ensures Sweep(t, g, prev, NEIGHBOURS[k]) == Partial(t, prev, k + 1)
  {
    hide At, StepCost, Moved, Min, Partial, Sweep;
    var a, b := Sweep(t, g, prev, NEIGHBOURS[k]), Partial(t, prev, k + 1);
    forall c | InGrid(t.h, t.w, c) ensures At(a, c) == At(b, c) {
      if c in t.allowed {
        assert At(g, c) == Best(t, prev, c, k);
        assert Best(t, prev, c, k + 1)
            == Min(Best(t, prev, c, k), Plus(At(prev, Moved(c, NEIGHBOURS[k])), StepCost(t, NEIGHBOURS[k])));
      }
    }
    SameGrid(a, b, t.h, t.w);
  }

  /** The relaxation loop: at most `rounds` rounds, stopped early when a round changes nothing. */
  method Relax(t: Terrain, z: Grid, rounds: nat) returns (g: Grid, stable: bool)
    requires Shape(z, t.h, t.w)
    ensures Shape(g, t.h, t.w) && g == Rounds(t, z, rounds)
    ensures stable <==> exists k :: 0 <= k < rounds && Rounds(t, z, k) == Rounds(t, z, k + 1)
    ensures stable ==> Round(t, g) == g
  {
    hide Round;
    g, stable := z, false;
    var n := 0;
    while n < rounds
      invariant 0 <= n <= rounds && Shape(g, t.h, t.w) && g == Rounds(t, z, n)
      invariant !stable && forall k :: 0 <= k < n ==> Rounds(t, z, k) != Rounds(t, z, k + 1)
    {
      var prev := g;
      g := RelaxOnce(t, prev);
      assert g == Rounds(t, z, n + 1);
      if prev == g {
        stable := true;
        Settled(t, z, n, rounds);
        return;
      }
      n := n + 1;
    }
  }

  /** Once a round changes nothing, no later round does. */
  lemma {:induction false} Settled(t: Terrain, z: Grid, n: nat, m: nat)
    requires n <= m && Rounds(t, z, n) == Rounds(t, z, n + 1)
    ensures Rounds(t, z, m) == Rounds(t, z, n)
    decreases m - n
  {
    if n < m {
      Settled(t, z, n, m - 1);
      assert Rounds(t, z, m) == Round(t, Rounds(t, z, m - 1));
    }
  }

  // ----- what one round does to a cell

  predicate Adjacent(a: Cell, b: Cell) {
    -1 <= b.y - a.y <= 1 && -1 <= b.x - a.x <= 1 && a != b
  }

  function Between(t: Terrain, a: Cell, b: Cell): real {
    if a.y != b.y && a.x != b.x then t.diagonal else t.straight
  }

  lemma {:induction false} BestBelow(t: Terrain, g: Grid, c: Cell, k: nat, i: nat)
    requires i < k <= 8
    ensures Leq(Best(t, g, c, k), Plus(At(g, Moved(c, NEIGHBOURS[i])), StepCost(t, NEIGHBOURS[i])))
  {
    if i < k - 1 {
      BestBelow(t, g, c, k - 1, i);
    }
  }

  lemma {:induction false} BestNotAbove(t: Terrain, g: Grid, c: Cell, k: nat)
    requires k <= 8
    ensures Leq(Best(t, g, c, k), At(g, c))
  {
    if k > 0 {
      BestNotAbove(t, g, c, k - 1);
    }
  }

  lemma NeighbourIndex(a: Cell, b: Cell) returns (i: nat)
    requires Adjacent(a, b)
    ensures i < 8 && Moved(b, NEIGHBOURS[i]) == a
  {
    i := if a.y - b.y == -1 then (a.x - b.x) + 1 else if a.y - b.y == 0 then (if a.x - b.x == -1 then 3 else 4)
         else (a.x - b.x) + 6;
  }

  /** An allowed cell ends a round not above its old value, and not above any neighbour's old value plus the step. */
  lemma RoundBelow(t: Terrain, g: Grid, c: Cell)
    requires c in t.allowed && InGrid(t.h, t.w, c)
    ensures Leq(At(Round(t, g), c), At(g, c))
    ensures forall a :: Adjacent(a, c) ==> Leq(At(Round(t, g), c), Plus(At(g, a), Between(t, a, c)))
  {
    BestNotAbove(t, g, c, 8);
    forall a | Adjacent(a, c) ensures Leq(At(Round(t, g), c), Plus(At(g, a), Between(t, a, c))) {
      var i := NeighbourIndex(a, c);
      BestBelow(t, g, c, 8, i);
    }
  }

  lemma {:induction false} BestAttained(t: Terrain, g: Grid, c: Cell, k: nat) returns (a: Cell)
    requires k <= 8
    ensures Best(t, g, c, k) == At(g, c) || (Adjacent(a, c) && Best(t, g, c, k) == Plus(At(g, a), Between(t, a, c)))
  {
    a := c;
    if k > 0 {
      a := BestAttained(t, g, c, k - 1);
      if !Leq(Best(t, g, c, k - 1), Plus(At(g, Moved(c, NEIGHBOURS[k - 1])), StepCost(t, NEIGHBOURS[k - 1]))) {
        a := Moved(c, NEIGHBOURS[k - 1]);
      }
    }
  }

  /** And it ends a round at one of these values; a cell that is not allowed ends it at Inf. */
  lemma RoundAttained(t: Terrain, g: Grid, c: Cell) returns (a: Cell)
    requires InGrid(t.h, t.w, c)
    ensures c !in t.allowed ==> At(Round(t, g), c) == Inf
    ensures c in t.allowed ==> At(Round(t, g), c) == At(g, c)
                               || (Adjacent(a, c) && At(Round(t, g), c) == Plus(At(g, a), Between(t, a, c)))
  {
    a := BestAttained(t, g, c, 8);
  }

  // ----- walks

  /** A walk inside the allowed cells that starts at an observed cell. */
  ghost predicate Walk(t: Terrain, z: Grid, p: seq<Cell>) {
    && p != [] && At(z, p[0]).Fin?
    && (forall i :: 0 <= i < |p| ==> p[i] in t.allowed)
    && (forall i :: 0 <= i < |p| - 1 ==> Adjacent(p[i], p[i + 1]))
  }

  function Last(p: seq<Cell>): Cell
    requires p != []
  {
    p[|p| - 1]
  }

  /** The lowest point of the start plus the steps. */
  ghost function WalkCost(t: Terrain, z: Grid, p: seq<Cell>): real
    requires Walk(t, z, p)
  {
    if |p| == 1 then At(z, p[0]).v
    else WalkCost(t, z, p[..|p| - 1]) + Between(t, p[|p| - 2], Last(p))
  }

  /** Every observed cell is allowed. */
  ghost predicate Observed(t: Terrain, z: Grid) {
    Shape(z, t.h, t.w) && forall c :: At(z, c).Fin? ==> c in t.allowed
  }

  lemma {:induction false} RoundsShape(t: Terrain, z: Grid, k: nat)
    requires Observed(t, z)
    ensures Observed(t, Rounds(t, z, k))
  {
    if k > 0 {
      var g := Rounds(t, z, k);
      forall c | At(g, c).Fin? ensures c in t.allowed { assert InGrid(t.h, t.w, c); }
    } else {
    }
  }

  /** After k rounds no cell is above the cost of a walk of at most k steps that ends there. */
  lemma {:induction false} RoundsBelowWalk(t: Terrain, z: Grid, k: nat, p: seq<Cell>)
    requires Valid(t) && Observed(t, z) && Walk(t, z, p) && |p| - 1 <= k
    ensures Leq(At(Rounds(t, z, k), Last(p)), Fin(WalkCost(t, z, p)))
  {
    if k > 0 {
      var g := Rounds(t, z, k - 1);
      RoundBelow(t, g, Last(p));
      if |p| - 1 < k {
        RoundsBelowWalk(t, z, k - 1, p);
      } else {
        var q := p[..|p| - 1];
        RoundsBelowWalk(t, z, k - 1, q);
        assert Adjacent(Last(q), Last(p));
      }
    }
  }

  lemma LongerWalk(t: Terrain, z: Grid, q: seq<Cell>, c: Cell)
    requires Walk(t, z, q) && c in t.allowed && Adjacent(Last(q), c)
    ensures Walk(t, z, q + [c]) && WalkCost(t, z, q + [c]) == WalkCost(t, z, q) + Between(t, Last(q), c)
  {
    hide Adjacent, Between, At;
    var p := q + [c];
    assert p[..|p| - 1] == q;
    assert forall i :: 0 <= i < |p| - 1 ==> p[i] == q[i];
  }

  /** After k rounds a finite cell holds the cost of some walk of at most k steps. */
  lemma {:induction false} RoundsAttained(t: Terrain, z: Grid, k: nat, c: Cell) returns (p: seq<Cell>)
    requires Observed(t, z) && At(Rounds(t, z, k), c).Fin?
    ensures Walk(t, z, p) && |p| - 1 <= k && Last(p) == c && At(Rounds(t, z, k), c) == Fin(WalkCost(t, z, p))
  {
    hide Round, Between, At, Walk, WalkCost, Adjacent, Observed;
    if k == 0 {
      p := SingleWalk(t, z, c);
    } else {
      FiniteInGrid(t, z, k, c);
      var a := RoundAttained(t, Rounds(t, z, k - 1), c);
      if At(Rounds(t, z, k), c) == At(Rounds(t, z, k - 1), c) {
        p := RoundsAttained(t, z, k - 1, c);
      } else {
        var q := RoundsAttained(t, z, k - 1, a);
        NotEmpty(t, z, q);
        LongerWalk(t, z, q, c);
        p := q + [c];
      }
    }
  }

  lemma SingleWalk(t: Terrain, z: Grid, c: Cell) returns (p: seq<Cell>)
    requires Observed(t, z) && At(z, c).Fin?
    ensures Walk(t, z, p) && |p| == 1 && Last(p) == c && At(z, c) == Fin(WalkCost(t, z, p))
  {
    p := [c];
  }

  lemma NotEmpty(t: Terrain, z: Grid, q: seq<Cell>)
    requires Walk(t, z, q)
    ensures q != []
  {
  }

  lemma FiniteInGrid(t: Terrain, z: Grid, k: nat, c: Cell)
    requires Observed(t, z) && At(Rounds(t, z, k), c).Fin?
    ensures InGrid(t.h, t.w, c) && c in t.allowed
  {
    RoundsShape(t, z, k);
  }

  // ----- the envelope

  /** Below every observed lowest point, and within the slope limit of every allowed neighbour. */
  ghost predicate Surface(t: Terrain, z: Grid, f: Grid) {
    && (forall c :: c in t.allowed ==> Leq(At(f, c), At(z, c)))
    && (forall a, c :: a in t.allowed && c in t.allowed && Adjacent(a, c) ==> Leq(At(f, c), Plus(At(f, a), Between(t, a, c))))
  }

  lemma SurfaceLimits(t: Terrain, z: Grid, f: Grid, a: Cell, c: Cell)
    requires Surface(t, z, f) && c in t.allowed
    ensures Leq(At(f, c), At(z, c))
    ensures a in t.allowed && Adjacent(a, c) ==> Leq(At(f, c), Plus(At(f, a), Between(t, a, c)))
  {
  }

  /** Every surface stays below every round. */
  lemma {:induction false} SurfaceBelowRounds(t: Terrain, z: Grid, f: Grid, k: nat, c: Cell)
    requires Observed(t, z) && Surface(t, z, f) && c in t.allowed
    ensures Leq(At(f, c), At(Rounds(t, z, k), c))
  {
    hide Round, Between, At, Adjacent, Observed, Surface;
    if k == 0 {
      SurfaceLimits(t, z, f, c, c);
    } else if At(Rounds(t, z, k), c).Fin? {
      FiniteInGrid(t, z, k, c);
      var g := Rounds(t, z, k - 1);
      SurfaceBelowRounds(t, z, f, k - 1, c);
      var a := RoundAttained(t, g, c);
      if At(Rounds(t, z, k), c) != At(g, c) {
        FiniteInGrid(t, z, k - 1, a);
        SurfaceBelowRounds(t, z, f, k - 1, a);
        SurfaceLimits(t, z, f, a, c);
      }
    }
  }

  lemma {:induction false} RoundsFall(t: Terrain, z: Grid, k: nat, c: Cell)
    requires Valid(t) && Observed(t, z) && c in t.allowed
    ensures Leq(At(Rounds(t, z, k), c), At(z, c))
  {
    if k > 0 {
      RoundsFall(t, z, k - 1, c);
      RoundBelow(t, Rounds(t, z, k - 1), c);
    }
  }

  /** The greatest surface. */
  ghost predicate Envelope(t: Terrain, z: Grid, g: Grid) {
    Surface(t, z, g) && forall f, c :: Surface(t, z, f) && c in t.allowed ==> Leq(At(f, c), At(g, c))
  }

  /** Rounds that have settled give the greatest surface. */
  lemma SettledIsEnvelope(t: Terrain, z: Grid, k: nat)
    requires Valid(t) && Observed(t, z) && Round(t, Rounds(t, z, k)) == Rounds(t, z, k)
    ensures Envelope(t, z, Rounds(t, z, k))
  {
    var g := Rounds(t, z, k);
    forall c | c in t.allowed ensures Leq(At(g, c), At(z, c)) { RoundsFall(t, z, k, c); }
    forall a, c | a in t.allowed && c in t.allowed && Adjacent(a, c) ensures Leq(At(g, c), Plus(At(g, a), Between(t, a, c))) {
      RoundBelow(t, g, c);
    }
    forall f, c | Surface(t, z, f) && c in t.allowed ensures Leq(At(f, c), At(g, c)) { SurfaceBelowRounds(t, z, f, k, c); }
  }

  lemma SurfaceIsSettled(t: Terrain, z: Grid, k: nat)
    requires Valid(t) && Observed(t, z) && Surface(t, z, Rounds(t, z, k))
    ensures Round(t, Rounds(t, z, k)) == Rounds(t, z, k)
  {
    var g, g' := Rounds(t, z, k), Rounds(t, z, k + 1);
    RoundsShape(t, z, k);
    RoundsShape(t, z, k + 1);
    forall c | InGrid(t.h, t.w, c) ensures At(g', c) == At(g, c) {
      hide Round, Between, At, Surface, Observed, Valid;
      var a := RoundAttained(t, g, c);
      if c in t.allowed {
        RoundBelow(t, g, c);
        if At(g', c) != At(g, c) {
          FiniteInGrid(t, z, k, a);
          SurfaceLimits(t, z, g, a, c);
        }
      } else if At(g, c).Fin? {
        FiniteInGrid(t, z, k, c);
      }
    }
    SameGrid(g', g, t.h, t.w);
  }

  /** The grid after k rounds is the greatest surface exactly when one more round changes nothing. */
  lemma EnvelopeIffSettled(t: Terrain, z: Grid, k: nat)
    requires Valid(t) && Observed(t, z)
    ensures Envelope(t, z, Rounds(t, z, k)) <==> Rounds(t, z, k + 1) == Rounds(t, z, k)
  {
    hide Round, Surface, Observed, Valid;
    assert Rounds(t, z, k + 1) == Round(t, Rounds(t, z, k));
    if Rounds(t, z, k + 1) == Rounds(t, z, k) {
      SettledIsEnvelope(t, z, k);
    }
    if Envelope(t, z, Rounds(t, z, k)) {
      SurfaceIsSettled(t, z, k);
    }
  }

  /** A walk of at most n steps to the same cell that costs no more. */
  ghost predicate Shortcut(t: Terrain, z: Grid, n: nat, p: seq<Cell>, q: seq<Cell>)
    requires Walk(t, z, p)
  {
    Walk(t, z, q) && |q| - 1 <= n && Last(q) == Last(p) && WalkCost(t, z, q) <= WalkCost(t, z, p)
  }

  /** n rounds settle exactly when no cell needs a cheapest walk of more than n steps. */
  lemma SettlesIff(t: Terrain, z: Grid, n: nat)
    requires Valid(t) && Observed(t, z)
    ensures Round(t, Rounds(t, z, n)) == Rounds(t, z, n)
            <==> forall p :: Walk(t, z, p) ==> exists q :: Shortcut(t, z, n, p, q)
  {
    hide Round, Walk, WalkCost;
    if Round(t, Rounds(t, z, n)) == Rounds(t, z, n) {
      forall p | Walk(t, z, p) ensures exists q :: Shortcut(t, z, n, p, q) { ShortcutOfSettled(t, z, n, p); }
    }
    if forall p :: Walk(t, z, p) ==> exists q :: Shortcut(t, z, n, p, q) {
      SettledByShortcuts(t, z, n);
    }
  }

  lemma ShortcutOfSettled(t: Terrain, z: Grid, n: nat, p: seq<Cell>)
    requires Valid(t) && Observed(t, z) && Round(t, Rounds(t, z, n)) == Rounds(t, z, n) && Walk(t, z, p)
    ensures exists q :: Shortcut(t, z, n, p, q)
  {
    NotEmpty(t, z, p);
    hide Round, Walk, WalkCost, At, Observed, Valid;
    var m := if |p| - 1 > n then |p| - 1 else n;
    Settled(t, z, n, m);
    RoundsBelowWalk(t, z, m, p);
    var q := RoundsAttained(t, z, n, Last(p));
    assert Shortcut(t, z, n, p, q);
  }

  lemma SettledByShortcuts(t: Terrain, z: Grid, n: nat)
    requires Valid(t) && Observed(t, z)
    requires forall p :: Walk(t, z, p) ==> exists q :: Shortcut(t, z, n, p, q)
    ensures Round(t, Rounds(t, z, n)) == Rounds(t, z, n)
  {
    var g, g' := Rounds(t, z, n), Rounds(t, z, n + 1);
    RoundsShape(t, z, n);
    RoundsShape(t, z, n + 1);
    forall c | InGrid(t.h, t.w, c) ensures At(g', c) == At(g, c) {
      hide Round, Walk, WalkCost, At, Valid;
      if At(g', c).Fin? {
        FiniteInGrid(t, z, n + 1, c);
        RoundBelow(t, g, c);
        var p := RoundsAttained(t, z, n + 1, c);
        var q :| Shortcut(t, z, n, p, q);
        RoundsBelowWalk(t, z, n, q);
      } else if At(g, c).Fin? {
        FiniteInGrid(t, z, n, c);
        RoundBelow(t, g, c);
      }
    }
    SameGrid(g', g, t.h, t.w);
  }

  // ----- every cell allowed: the straight line is the cheapest walk

  function Abs(a: int): nat {
    if a < 0 then -a else a
  }

  function Larger(a: nat, b: nat): nat {
    if a >= b then a else b
  }

  function Smaller(a: nat, b: nat): nat {
    if a >= b then b else a
  }

  /** How many king's moves apart two cells are. */
  function Moves(a: Cell, b: Cell): nat {
    Larger(Abs(b.y - a.y), Abs(b.x - a.x))
  }

  function Times(k: real, n: int): real {
    k * (n as real)
  }

  /** The cost of the direct way: diagonal steps first, then straight ones. */
  function Direct(t: Terrain, a: Cell, b: Cell): real {
    var dy, dx := Abs(b.y - a.y), Abs(b.x - a.x);
    Times(t.straight, Larger(dy, dx)) + Times(t.diagonal - t.straight, Smaller(dy, dx))
  }

  lemma NotMore(k: real, m: int, n: int)
    requires k >= 0.0 && n <= m
    ensures Times(k, n) <= Times(k, m)
  {
  }

  lemma OneMore(k: real, n: int)
    ensures Times(k, n + 1) == Times(k, n) + k
  {
    assert (n + 1) as real == n as real + 1.0;
  }

  lemma AtMostOneMore(k: real, m: int, n: int)
    requires k >= 0.0 && n <= m + 1
    ensures Times(k, n) <= Times(k, m) + k
  {
    NotMore(k, m + 1, n);
    OneMore(k, m);
  }

  /** One step changes the direct cost by at most the step. */
  lemma DirectTriangle(t: Terrain, s: Cell, a: Cell, c: Cell)
    requires Valid(t) && Adjacent(a, c)
    ensures Direct(t, s, c) <= Direct(t, s, a) + Between(t, a, c)
  {
    hide Valid, Larger, Smaller, Abs, Times;
    var my, mx, ny, nx := Abs(a.y - s.y), Abs(a.x - s.x), Abs(c.y - s.y), Abs(c.x - s.x);
    var e := t.diagonal - t.straight;
    ValidCosts(t);
    LengthsGrow(s, a, c);
    AtMostOneMore(t.straight, Larger(my, mx), Larger(ny, nx));
    AtMostOneMore(e, Smaller(my, mx), Smaller(ny, nx));
    if a.y == c.y || a.x == c.x {
      if Larger(ny, nx) <= Larger(my, mx) {
        NotMore(t.straight, Larger(my, mx), Larger(ny, nx));
      } else {
        NotMore(e, Smaller(my, mx), Smaller(ny, nx));
      }
    }
  }

  lemma ValidCosts(t: Terrain)
    requires Valid(t)
    ensures 0.0 < t.straight <= t.diagonal <= 2.0 * t.straight
  {
  }

  /** Both lengths grow by one step at most, and only one of them when the step is straight. */
  lemma LengthsGrow(s: Cell, a: Cell, c: Cell)
    requires Adjacent(a, c)
    ensures var my, mx, ny, nx := Abs(a.y - s.y), Abs(a.x - s.x), Abs(c.y - s.y), Abs(c.x - s.x);
      && Larger(ny, nx) <= Larger(my, mx) + 1 && Smaller(ny, nx) <= Smaller(my, mx) + 1
      && (a.y == c.y || a.x == c.x ==> Larger(ny, nx) <= Larger(my, mx) || Smaller(ny, nx) <= Smaller(my, mx))
  {
  }

  function Toward(from: int, to: int): int {
    if to < from then from - 1 else if to > from then from + 1 else from
  }

  /** The cell before c on the direct way from s. */
  function Back(s: Cell, c: Cell): Cell {
    Cell(Toward(c.y, s.y), Toward(c.x, s.x))
  }

  lemma BackMoves(t: Terrain, s: Cell, c: Cell)
    requires s != c
    ensures Adjacent(Back(s, c), c) && Moves(s, Back(s, c)) == Moves(s, c) - 1
    ensures InGrid(t.h, t.w, s) && InGrid(t.h, t.w, c) ==> InGrid(t.h, t.w, Back(s, c))
  {
  }

  lemma LengthsBack(s: Cell, c: Cell)
    requires s != c
    ensures var b := Back(s, c);
      var my, mx, ny, nx := Abs(b.y - s.y), Abs(b.x - s.x), Abs(c.y - s.y), Abs(c.x - s.x);
      Larger(ny, nx) == Larger(my, mx) + 1
      && Smaller(ny, nx) == Smaller(my, mx) + if c.y != s.y && c.x != s.x then 1 else 0
    ensures (c.y != s.y && c.x != s.x) <==> (c.y != Back(s, c).y && c.x != Back(s, c).x)
  {
  }

  lemma DirectStep(t: Terrain, s: Cell, c: Cell)
    requires s != c
    ensures Direct(t, s, c) == Direct(t, s, Back(s, c)) + Between(t, Back(s, c), c)
  {
    hide Back, Larger, Smaller, Abs, Times;
    var b := Back(s, c);
    LengthsBack(s, c);
    OneMore(t.straight, Larger(Abs(b.y - s.y), Abs(b.x - s.x)));
    OneMore(t.diagonal - t.straight, Smaller(Abs(b.y - s.y), Abs(b.x - s.x)));
  }

  predicate AllAllowed(t: Terrain) {
    forall y, x :: 0 <= y < t.h && 0 <= x < t.w ==> Cell(y, x) in t.allowed
  }

  lemma {:induction false} RoundsBelowDirect(t: Terrain, z: Grid, k: nat, s: Cell, c: Cell)
    requires Valid(t) && Observed(t, z) && AllAllowed(t)
    requires At(z, s).Fin? && InGrid(t.h, t.w, c) && Moves(s, c) <= k
    ensures Leq(At(Rounds(t, z, k), c), Fin(At(z, s).v + Direct(t, s, c)))
  {
    hide Direct, Between, Back, Round, At, StepCost, Moves, AllAllowed, Observed, Valid, Adjacent, InGrid;
    InAllAllowed(t, c);
    DirectSelf(t, c);
    if s == c {
      RoundsFall(t, z, k, c);
    } else {
      var b := Back(s, c);
      ObservedInGrid(t, z, s);
      DirectStep(t, s, c);
      BackMoves(t, s, c);
      RoundsBelowDirect(t, z, k - 1, s, b);
      RoundBelowNeighbour(t, z, k, b, c);
    }
  }

  lemma DirectSelf(t: Terrain, c: Cell)
    ensures Direct(t, c, c) == 0.0 && Moves(c, c) == 0
  {
  }

  lemma RoundBelowNeighbour(t: Terrain, z: Grid, k: nat, a: Cell, c: Cell)
    requires k > 0 && Adjacent(a, c) && c in t.allowed && InGrid(t.h, t.w, c)
    ensures Leq(At(Rounds(t, z, k), c), Plus(At(Rounds(t, z, k - 1), a), Between(t, a, c)))
  {
    hide At, Between, Adjacent, Round;
    RoundBelow(t, Rounds(t, z, k - 1), c);
  }

  lemma InAllAllowed(t: Terrain, c: Cell)
    requires AllAllowed(t) && InGrid(t.h, t.w, c)
    ensures c in t.allowed
  {
    assert c == Cell(c.y, c.x);
  }

  lemma ObservedInGrid(t: Terrain, z: Grid, s: Cell)
    requires Observed(t, z) && At(z, s).Fin?
    ensures InGrid(t.h, t.w, s)
  {
  }

  lemma {:induction false} RoundsAboveDirect(t: Terrain, z: Grid, k: nat, c: Cell) returns (s: Cell)
    requires Valid(t) && Observed(t, z) && At(Rounds(t, z, k), c).Fin?
    ensures At(z, s).Fin? && At(z, s).v + Direct(t, s, c) <= At(Rounds(t, z, k), c).v
  {
    hide Direct, Round, Between, At, Observed, Valid, Adjacent;
    if k == 0 {
      s := c;
      DirectSelf(t, c);
    } else {
      FiniteInGrid(t, z, k, c);
      var a := RoundAttained(t, Rounds(t, z, k - 1), c);
      if At(Rounds(t, z, k), c) == At(Rounds(t, z, k - 1), c) {
        s := RoundsAboveDirect(t, z, k - 1, c);
      } else {
        s := RoundsAboveDirect(t, z, k - 1, a);
        DirectTriangle(t, s, a, c);
      }
    }
  }

  /** With every cell allowed, as many rounds as the longer side of the grid settle. */
  lemma AllAllowedSettles(t: Terrain, z: Grid, k: nat)
    requires Valid(t) && Observed(t, z) && AllAllowed(t) && t.h <= k + 1 && t.w <= k + 1
    ensures Rounds(t, z, k + 1) == Rounds(t, z, k)
  {
    hide Round, Direct, Valid;
    var g, g' := Rounds(t, z, k), Rounds(t, z, k + 1);
    RoundsShape(t, z, k);
    RoundsShape(t, z, k + 1);
    forall c | InGrid(t.h, t.w, c) ensures At(g', c) == At(g, c) {
      InAllAllowed(t, c);
      RoundBelow(t, g, c);
      hide Round, Direct, Valid, AllAllowed, At;
      if At(g', c).Fin? {
        var s := RoundsAboveDirect(t, z, k + 1, c);
        ObservedInGrid(t, z, s);
        RoundsBelowDirect(t, z, k, s, c);
      }
    }
    SameGrid(g', g, t.h, t.w);
  }

  // ----- an allowed region shaped like a U needs more rounds than estimate_ground gives it

  /** Two rows joined at their right ends: every cell of rows 0 and 2, and the last cell of row 1. */
  predicate InBend(w: nat, c: Cell) {
    InGrid(3, w, c) && (c.y != 1 || c.x == w - 1)
  }

  /** How many steps along the U a cell is away from the start of row 0. */
  function Along(w: nat, c: Cell): int {
    if c.y == 0 then c.x else if c.y == 1 then w - 1 else if c.x == w - 1 then w else 2 * w - 2 - c.x
  }

  function BendTerrain(w: nat, straight: real, diagonal: real): (t: Terrain)
    ensures t.h == 3 && t.w == w && t.straight == straight && t.diagonal == diagonal
    ensures forall c :: c in t.allowed <==> InBend(w, c)
  {
    Terrain(3, w, straight, diagonal, set y, x | 0 <= y < 3 && 0 <= x < w && InBend(w, Cell(y, x)) :: Cell(y, x))
  }

  /** Every cell of the U is observed: low at the start of row 0, high everywhere else. */
  function BendGrid(w: nat, high: real): (z: Grid)
    ensures Shape(z, 3, w)
    ensures forall c :: At(z, c) == if InBend(w, c) then Fin(if c == Cell(0, 0) then 0.0 else high) else Inf
  {
    seq(3, y => seq(w, x => if InBend(w, Cell(y, x)) then Fin(if y == 0 && x == 0 then 0.0 else high) else Inf))
  }

  lemma StepAlong(w: nat, a: Cell, c: Cell)
    requires InBend(w, a) && InBend(w, c) && Adjacent(a, c)
    ensures Along(w, c) <= Along(w, a) + 1
  {
  }

  /** The cell before c on the U. */
  lemma StepBack(w: nat, c: Cell) returns (a: Cell)
    requires InBend(w, c) && Along(w, c) > 0 && w > 1
    ensures InBend(w, a) && Adjacent(a, c) && Along(w, a) == Along(w, c) - 1
  {
    a := if c.y == 0 then Cell(0, c.x - 1)
         else if c.y == 1 then Cell(0, w - 2)
         else if c.x >= w - 2 then Cell(1, w - 1)
         else Cell(2, c.x + 1);
  }

  /** Cells more than k steps along the U have not changed after k rounds. */
  lemma {:induction false} StillHigh(w: nat, straight: real, diagonal: real, high: real, k: nat, c: Cell)
    requires 0.0 < straight <= diagonal && high > 0.0 && InBend(w, c) && Along(w, c) > k
    ensures At(Rounds(BendTerrain(w, straight, diagonal), BendGrid(w, high), k), c) == Fin(high)
  {
    hide Round, Between, At, InBend, Adjacent, Along;
    var t, z := BendTerrain(w, straight, diagonal), BendGrid(w, high);
    if k == 0 {
      AlongStart(w);
    } else {
      BendIsObserved(t, z, w, straight, diagonal, high);
      var g := Rounds(t, z, k - 1);
      StillHigh(w, straight, diagonal, high, k - 1, c);
      BendInGrid(w, c);
      RoundBelow(t, g, c);
      var a := RoundAttained(t, g, c);
      if At(Round(t, g), c) != At(g, c) {
        FiniteInGrid(t, z, k - 1, a);
        StepAlong(w, a, c);
        StillHigh(w, straight, diagonal, high, k - 1, a);
        StepIsPositive(t, a, c);
      }
    }
  }

  lemma AlongStart(w: nat)
    ensures Along(w, Cell(0, 0)) == 0
  {
  }

  lemma BendInGrid(w: nat, c: Cell)
    requires InBend(w, c)
    ensures InGrid(3, w, c)
  {
  }

  lemma StepIsPositive(t: Terrain, a: Cell, c: Cell)
    requires 0.0 < t.straight <= t.diagonal
    ensures 0.0 < Between(t, a, c) <= t.diagonal
  {
  }

  lemma BendIsObserved(t: Terrain, z: Grid, w: nat, straight: real, diagonal: real, high: real)
    requires t == BendTerrain(w, straight, diagonal) && z == BendGrid(w, high)
    ensures Observed(t, z)
  {
  }

  /** Cells at most k steps along the U have come down. */
  lemma {:induction false} ComeDown(w: nat, straight: real, diagonal: real, high: real, k: nat, c: Cell)
    requires 0.0 < straight <= diagonal <= 2.0 * straight && w > 1 && InBend(w, c) && Along(w, c) <= k
    ensures Leq(At(Rounds(BendTerrain(w, straight, diagonal), BendGrid(w, high), k), c), Fin(Times(diagonal, Along(w, c))))
    decreases k
  {
    hide Round, Between, At, InBend, Adjacent, Along, Times;
    var t, z := BendTerrain(w, straight, diagonal), BendGrid(w, high);
    BendIsObserved(t, z, w, straight, diagonal, high);
    BendInGrid(w, c);
    if Along(w, c) <= 0 {
      OnlyStart(w, c);
      NoMoves(diagonal);
      BendIsValid(t, w, straight, diagonal);
      RoundsFall(t, z, k, c);
    } else {
      var a := StepBack(w, c);
      ComeDown(w, straight, diagonal, high, k - 1, a);
      RoundBelowNeighbour(t, z, k, a, c);
      StepIsPositive(t, a, c);
      OneMore(diagonal, Along(w, a));
    }
  }

  lemma OnlyStart(w: nat, c: Cell)
    requires InBend(w, c) && Along(w, c) <= 0 && w > 1
    ensures c == Cell(0, 0) && Along(w, c) == 0
  {
  }

  lemma BendIsValid(t: Terrain, w: nat, straight: real, diagonal: real)
    requires t == BendTerrain(w, straight, diagonal) && 0.0 < straight <= diagonal <= 2.0 * straight
    ensures Valid(t)
  {
  }

  /** On a U of width w, rounds 0 to 2 w - 3 all leave the grid unsettled, for any step costs. */
  lemma BendNeedsRounds(w: nat, straight: real, diagonal: real, high: real, n: nat)
    requires 0.0 < straight <= diagonal <= 2.0 * straight && w > 1 && n <= 2 * w - 3
    requires high > Times(diagonal, 2 * w - 2) && high > 0.0
    ensures var t, z := BendTerrain(w, straight, diagonal), BendGrid(w, high); Rounds(t, z, n) != Rounds(t, z, n + 1)
  {
    hide Round, At, Times;
    var t, z := BendTerrain(w, straight, diagonal), BendGrid(w, high);
    var end := Cell(2, 0);
    StillHigh(w, straight, diagonal, high, 2 * w - 3, end);
    ComeDown(w, straight, diagonal, high, 2 * w - 2, end);
    if Rounds(t, z, n) == Rounds(t, z, n + 1) {
      Settled(t, z, n, 2 * w - 3);
      Settled(t, z, n, 2 * w - 2);
    }
  }

  /** estimate_ground's h + w + 1 rounds are not enough on a U seven or more cells wide, for any step costs: no round leaves
      the grid alone, and the result is not the greatest surface. Without a fill radius the U is all that is allowed. */
  lemma BendDoesNotSettle(w: nat, chamfer: Terrain, straight: real, diagonal: real) returns (t: Terrain, z: Grid)
    requires 0.0 < straight <= diagonal <= 2.0 * straight && w >= 7 && 0.0 < chamfer.straight <= chamfer.diagonal
    ensures t.h == 3 && t.w == w && t.straight == straight && t.diagonal == diagonal && Valid(t) && Observed(t, z)
    ensures forall c :: c in t.allowed <==> InGrid(t.h, t.w, c) && WithinReach(chamfer, z, 0.0, c)
    ensures forall n: nat :: n <= t.h + t.w + 1 ==> Rounds(t, z, n) != Rounds(t, z, n + 1)
    ensures !Envelope(t, z, Rounds(t, z, t.h + t.w + 1))
  {
    hide Round, Times, Envelope, WithinReach;
    var high := Times(diagonal, 2 * w - 2) + 1.0;
    SmallestCost(diagonal, 2 * w - 2);
    t, z := BendTerrain(w, straight, diagonal), BendGrid(w, high);
    BendIsObserved(t, z, w, straight, diagonal, high);
    BendIsValid(t, w, straight, diagonal);
    forall n: nat | n <= t.h + t.w + 1 ensures Rounds(t, z, n) != Rounds(t, z, n + 1) {
      BendNeedsRounds(w, straight, diagonal, high, n);
    }
    EnvelopeIffSettled(t, z, t.h + t.w + 1);
    forall c ensures WithinReach(chamfer, z, 0.0, c) <==> At(z, c).Fin? { NoRadiusNoFill(chamfer, z, c); }
  }

  lemma NoRadiusNoFill(t: Terrain, z: Grid, c: Cell)
    requires 0.0 < t.straight <= t.diagonal
    ensures WithinReach(t, z, 0.0, c) <==> At(z, c).Fin?
  {
    ObservedWithinReach(t, z, 0.0, c);
    hide At;
    if WithinReach(t, z, 0.0, c) {
      var s :| At(z, s).Fin? && Direct(t, s, c) <= 0.0;
      if s != c {
        DirectIsPositive(t, s, c);
      }
    }
  }

  lemma DirectIsPositive(t: Terrain, s: Cell, c: Cell)
    requires 0.0 < t.straight <= t.diagonal && s != c
    ensures Direct(t, s, c) > 0.0
  {
    var dy, dx := Abs(c.y - s.y), Abs(c.x - s.x);
    SmallestCost(t.diagonal - t.straight, Smaller(dy, dx));
    NotMore(t.straight, Larger(dy, dx), 1);
    NoMoves(t.straight);
    OneMore(t.straight, 0);
    hide Times;
  }

  // ----- the fill radius

  /** The observed cells at height zero: the start of the distance relaxation. */
  function Zeros(z: Grid): (r: Grid)
    ensures |r| == |z| && (forall y :: 0 <= y < |z| ==> |r[y]| == |z[y]|)
    ensures forall c :: At(r, c) == if At(z, c).Fin? then Fin(0.0) else Inf
  {
    seq(|z|, y requires 0 <= y < |z| => seq(|z[y]|, x requires 0 <= x < |z[y]| => if z[y][x].Fin? then Fin(0.0) else Inf))
  }

  function Ceil(v: real): int {
    -((-v).Floor)
  }

  function AllCells(h: nat, w: nat): set<Cell> {
    set y, x | 0 <= y < h && 0 <= x < w :: Cell(y, x)
  }

  /** A cell within the fill radius (8-neighbour chamfer distance) of an observed cell. */
  ghost predicate WithinReach(t: Terrain, z: Grid, fill: real, c: Cell) {
    exists s :: At(z, s).Fin? && Direct(t, s, c) <= fill
  }

  lemma MovesCost(t: Terrain, s: Cell, c: Cell)
    requires Valid(t)
    ensures Times(t.straight, Moves(s, c)) <= Direct(t, s, c)
  {
    ValidCosts(t);
    hide Valid;
    SmallestCost(t.diagonal - t.straight, Smaller(Abs(c.y - s.y), Abs(c.x - s.x)));
    hide Times;
  }

  lemma SmallestCost(k: real, n: nat)
    requires k >= 0.0
    ensures Times(k, n) >= 0.0
  {
  }

  lemma NoMoves(k: real)
    ensures Times(k, 0) == 0.0
  {
  }

  lemma EnoughRounds(cell: real, fill: real, moves: nat)
    requires cell > 0.0 && Times(cell, moves) <= fill
    ensures moves <= Ceil(fill / cell)
  {
    var q := fill / cell;
    assert q * cell == fill;
    assert (moves as real) > q ==> (moves as real) * cell > q * cell;
  }

  /** ceil(radius / cell) + 1 rounds are enough to decide the fill radius exactly. */
  lemma DistanceDecidesReach(t: Terrain, z: Grid, fill: real, c: Cell)
    requires Valid(t) && t.allowed == AllCells(t.h, t.w) && Shape(z, t.h, t.w) && fill >= 0.0 && InGrid(t.h, t.w, c)
    ensures Ceil(fill / t.straight) >= 0
    ensures var d := At(Rounds(t, Zeros(z), Ceil(fill / t.straight) + 1), c);
      (d.Fin? && d.v <= fill) <==> WithinReach(t, z, fill, c)
  {
    hide Direct, Valid, Ceil, Observed, AllCells, Round, At, Shape, Times;
    ValidCosts(t);
    NoMoves(t.straight);
    EnoughRounds(t.straight, fill, 0);
    var k := Ceil(fill / t.straight) + 1;
    var zero := Zeros(z);
    ZerosObserved(t, z);
    var d := At(Rounds(t, zero, k), c);
    if d.Fin? && d.v <= fill {
      var s := RoundsAboveDirect(t, zero, k, c);
      assert At(z, s).Fin? && Direct(t, s, c) <= fill;
    }
    if WithinReach(t, z, fill, c) {
      var s :| At(z, s).Fin? && Direct(t, s, c) <= fill;
      MovesCost(t, s, c);
      EnoughRounds(t.straight, fill, Moves(s, c));
      assert At(zero, s) == Fin(0.0);
      RoundsBelowDirect(t, zero, k, s, c);
    }
  }

  lemma ZerosObserved(t: Terrain, z: Grid)
    requires t.allowed == AllCells(t.h, t.w) && Shape(z, t.h, t.w)
    ensures Observed(t, Zeros(z)) && AllAllowed(t)
  {
    var zero := Zeros(z);
    forall a | At(zero, a).Fin? ensures a in t.allowed { assert InGrid(t.h, t.w, a); assert a == Cell(a.y, a.x); }
  }

  // ----- estimate_ground from the binned points on

  lemma SquareGrows(a: real, b: real)
    requires 0.0 < a < b
    ensures a * a < b * b
  {
    assert a * a < a * b;
    assert a * b < b * b;
  }

  lemma SquareMultiples(a: real)
    requires a > 0.0
    ensures a * a < 2.0 * (a * a) < (2.0 * a) * (2.0 * a)
  {
  }

  predicate IsRootTwo(straight: real, diagonal: real) {
    diagonal > 0.0 && diagonal * diagonal == 2.0 * (straight * straight)
  }

  /** The square root of two is between one and two. */
  lemma RootTwo(straight: real, diagonal: real)
    requires straight > 0.0 && IsRootTwo(straight, diagonal)
    ensures straight <= diagonal <= 2.0 * straight
  {
    SquareMultiples(straight);
    if diagonal < straight {
      SquareGrows(diagonal, straight);
    }
    if diagonal > 2.0 * straight {
      SquareGrows(2.0 * straight, diagonal);
    }
  }

  const MAX_CELLS := 20_000_000

  /** The arguments estimate_ground accepts. */
  predicate Accepts(h: nat, w: nat, cell: real, slope: real, fill: real) {
    cell > 0.0 && 0.0 < slope < 90.0 && fill >= 0.0 && w * h <= MAX_CELLS
  }

  /** zmin is the lowest point per cell (Inf where the cell has none), cell the cell size, slope the limit in degrees, rise
      its tangent times the cell size; the two diagonals are the square-root-of-two multiples. */
  method EstimateGround(zmin: Grid, h: nat, w: nat, cell: real, cellDiagonal: real, slope: real, fill: real, rise: real,
                        riseDiagonal: real)
    returns (ok: bool, g: Grid, t: Terrain, settled: bool)
    requires Shape(zmin, h, w)
    requires Accepts(h, w, cell, slope, fill) ==> rise > 0.0 && IsRootTwo(cell, cellDiagonal) && IsRootTwo(rise, riseDiagonal)
    ensures ok <==> cell > 0.0 && 0.0 < slope < 90.0 && fill >= 0.0 && w * h <= 20_000_000
    ensures ok ==> Valid(t) && Observed(t, zmin) && t.h == h && t.w == w && t.straight == rise && t.diagonal == riseDiagonal
    ensures ok ==> forall c :: c in t.allowed <==>
              InGrid(h, w, c) && WithinReach(Terrain(h, w, cell, cellDiagonal, AllCells(h, w)), zmin, fill, c)
    ensures ok ==> g == Rounds(t, zmin, h + w + 1)
    ensures ok && settled ==> Envelope(t, zmin, g)
    ensures ok && AllAllowed(t) ==> settled
  {
    hide IsRootTwo;
    ok := Accepts(h, w, cell, slope, fill);
    if !ok {
      g, t, settled := [], Terrain(h, w, rise, riseDiagonal, {}), false;
      return;
    }
    RootTwo(cell, cellDiagonal);
    RootTwo(rise, riseDiagonal);
    var allowed := AllowedCells(zmin, h, w, cell, cellDiagonal, fill);
    t := Terrain(h, w, rise, riseDiagonal, allowed);
    hide Direct, Round, WithinReach, Envelope, AllAllowed, Observed, AllCells;
    ReachableAreObserved(t, Terrain(h, w, cell, cellDiagonal, AllCells(h, w)), zmin, fill);
    g, settled := Relax(t, zmin, h + w + 1);
    if settled {
      SettledIsEnvelope(t, zmin, h + w + 1);
    }
    SettlesInTime(t, zmin);
  }

  lemma SettlesInTime(t: Terrain, z: Grid)
    requires Valid(t) && Observed(t, z)
    ensures AllAllowed(t) ==> exists k :: 0 <= k < t.h + t.w + 1 && Rounds(t, z, k) == Rounds(t, z, k + 1)
  {
    var k := Larger(t.h, t.w);
    if AllAllowed(t) {
      AllAllowedSettles(t, z, k);
    }
  }

  lemma ReachableAreObserved(t: Terrain, chamfer: Terrain, z: Grid, fill: real)
    requires fill >= 0.0 && Shape(z, t.h, t.w)
    requires forall c :: c in t.allowed <==> InGrid(t.h, t.w, c) && WithinReach(chamfer, z, fill, c)
    ensures Observed(t, z)
  {
    forall c | At(z, c).Fin? ensures c in t.allowed {
      ObservedWithinReach(chamfer, z, fill, c);
      hide WithinReach;
    }
  }

  /** The cells that may hold ground: observed, or within the fill radius by the truncated distance relaxation. */
  method AllowedCells(zmin: Grid, h: nat, w: nat, cell: real, cellDiagonal: real, fill: real) returns (allowed: set<Cell>)
    requires Shape(zmin, h, w) && fill >= 0.0 && 0.0 < cell <= cellDiagonal <= 2.0 * cell
    ensures forall c :: c in allowed <==>
              InGrid(h, w, c) && WithinReach(Terrain(h, w, cell, cellDiagonal, AllCells(h, w)), zmin, fill, c)
  {
    hide Direct, Round, Ceil, WithinReach, Times;
    NoMoves(cell);
    var chamfer := Terrain(h, w, cell, cellDiagonal, AllCells(h, w));
    var zero := Zeros(zmin);
    EnoughRounds(cell, fill, 0);
    var dist, _ := Relax(chamfer, zero, Ceil(fill / cell) + 1);
    allowed := set y, x | 0 <= y < h && 0 <= x < w &&
      (zmin[y][x].Fin? || (At(dist, Cell(y, x)).Fin? && At(dist, Cell(y, x)).v <= fill)) :: Cell(y, x);
    forall c ensures c in allowed <==> InGrid(h, w, c) && WithinReach(chamfer, zmin, fill, c) {
      assert c == Cell(c.y, c.x);
      if InGrid(h, w, c) {
        ObservedWithinReach(chamfer, zmin, fill, c);
        DistanceDecidesReach(chamfer, zmin, fill, c);
      }
    }
  }

  lemma ObservedWithinReach(t: Terrain, z: Grid, fill: real, c: Cell)
    requires fill >= 0.0
    ensures At(z, c).Fin? ==> WithinReach(t, z, fill, c)
  {
    assert Direct(t, c, c) == 0.0;
  }
}
