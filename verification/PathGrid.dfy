/** The walkable grid searched by dev/algorithmic/src/ob_path_search.cpp: cell indices and
    coordinates, the eight directions, which single steps are allowed, and walks made of steps.

    The map is one row-major array of ints. Index 0 doubles as "no cell" in the source, so cell 0
    can never be entered; everything below is stated with that convention. */
module PathGrid {

  const BLOCKED := 10000

  /** MapData and MapWidth. The height is only ever used through the array length. */
  datatype Grid = Grid(cells: seq<int>, width: nat)

  /** The header's promise about the map: 1 is walkable, 10000 is not. */
  ghost predicate UnitCost(g: Grid) {
    forall p :: 0 <= p < |g.cells| ==> g.cells[p] == 1 || g.cells[p] == BLOCKED
  }

  /** A cell that can be entered. */
  predicate Free(g: Grid, p: int) {
    0 < p < |g.cells| && 0 < g.cells[p] < BLOCKED
  }

  function X(p: nat, w: nat): nat
    requires w > 0
  {
    p % w
  }

  function Y(p: nat, w: nat): nat
    requires w > 0
  {
    p / w
  }

  function Abs(x: int): nat {
    if x < 0 then -x else x
  }

  /** The 10/4 estimate between two coordinates. */
  function Distance(x1: int, y1: int, x2: int, y2: int): nat {
    var dx, dy := Abs(x1 - x2), Abs(y1 - y2);
    if dx > dy then dx * 10 + dy * 4 else dy * 10 + dx * 4
  }

  /** Ten for every step along the longer side and four for every step along the shorter one, whichever
      way they go: what the straight and the slanted neighbours add. */
  lemma DistanceSteps(x: int, y: int, dx: nat, dy: nat)
    ensures dx > dy ==> Distance(x, y, x + dx, y + dy) == Distance(x, y, x + dx, y - dy) ==
                        Distance(x, y, x - dx, y + dy) == Distance(x, y, x - dx, y - dy) == 10 * dx + 4 * dy
    ensures dx <= dy ==> Distance(x, y, x + dx, y + dy) == Distance(x, y, x + dx, y - dy) ==
                         Distance(x, y, x - dx, y + dy) == Distance(x, y, x - dx, y - dy) == 4 * dx + 10 * dy
    ensures Distance(0, 0, 3, 2) == 38 && Distance(0, 0, 2, 3) == 38
  {
  }

  /** The estimate from cell p to a point. */
  function DistanceTo(p: nat, w: nat, x2: int, y2: int): nat
    requires w > 0
  {
    Distance(x2, y2, X(p, w), Y(p, w))
  }

  // ---------- directions ----------

  /** The eight directions in the numbering of PathDir:
      0 up, 1 right-up, 2 right, 3 right-down, 4 down, 5 left-down, 6 left, 7 left-up. */
  type Dir = d: int | 0 <= d < 8

  function DirX(d: Dir): int {
    if d == 1 || d == 2 || d == 3 then 1 else if d == 5 || d == 6 || d == 7 then -1 else 0
  }

  function DirY(d: Dir): int {
    if d == 7 || d == 0 || d == 1 then -1 else if d == 3 || d == 4 || d == 5 then 1 else 0
  }

  function RowOffset(w: int, dy: int): int {
    if dy == 0 then 0 else if dy < 0 then -w else w
  }

  /** The index one step away. */
  function Target(w: nat, p: nat, d: Dir): int {
    p + RowOffset(w, DirY(d)) + DirX(d)
  }

  /** A legal single step: it does not leave the row it moves along, enters a free cell, and a
      diagonal needs both cells beside the corner free. */
  predicate CanStep(g: Grid, p: nat, d: Dir)
    requires g.width > 0
  {
    && 0 <= X(p, g.width) + DirX(d) < g.width
    && Free(g, Target(g.width, p, d))
    && (DirX(d) != 0 && DirY(d) != 0 ==>
          Free(g, p + DirX(d)) && Free(g, p + RowOffset(g.width, DirY(d))))
  }

  /** The direction codes go clockwise from up, which is towards lower rows. */
  lemma Compass(w: nat, p: nat)
    ensures Target(w, p, 0) == p - w && Target(w, p, 1) == p - (w - 1) && Target(w, p, 2) == p + 1
    ensures Target(w, p, 3) == p + (w + 1) && Target(w, p, 4) == p + w && Target(w, p, 5) == p + (w - 1)
    ensures Target(w, p, 6) == p - 1 && Target(w, p, 7) == p - (w + 1)
  {
  }

  ghost predicate Edge(g: Grid, u: nat, v: nat)
    requires g.width > 0
  {
    exists d: Dir :: CanStep(g, u, d) && v == Target(g.width, u, d)
  }

  function Opposite(d: Dir): Dir {
    (d + 4) % 8
  }

  // ---------- coordinates ----------

  lemma DivModUnique(p: int, w: int, q: int, r: int)
    requires w > 0 && 0 <= r < w && p == q * w + r
    ensures p / w == q && p % w == r
  {
    var k, r' := p / w - q, p % w;
    assert p == (p / w) * w + r';
    assert (p / w) * w == q * w + k * w by { assert p / w == q + k; }
    assert k * w == r - r';
    SmallMultiple(k, w);
  }

  lemma SmallMultiple(k: int, w: int)
    requires w > 0 && -w < k * w < w
    ensures k == 0
  {
    MultipleAtLeast(k, w);
  }

  lemma MultipleAtLeast(k: int, w: int)
    requires w > 0
    ensures k >= 1 ==> k * w >= w
    ensures k <= -1 ==> k * w <= -w
  {
    if k >= 1 {
      assert (k - 1) * w >= 0;
    } else if k <= -1 {
      assert (-1 - k) * w >= 0;
    }
  }

  /** A legal step moves the coordinates by the direction vector, so it never wraps to another row. */
  lemma StepMovesCoordinates(g: Grid, p: nat, d: Dir)
    requires g.width > 0 && CanStep(g, p, d)
    ensures Target(g.width, p, d) >= 0
    ensures X(Target(g.width, p, d), g.width) == X(p, g.width) + DirX(d)
    ensures Y(Target(g.width, p, d), g.width) == Y(p, g.width) + DirY(d)
  {
    var w := g.width;
    var t := Target(w, p, d);
    assert p == (p / w) * w + p % w;
    assert (p / w + DirY(d)) * w == (p / w) * w + RowOffset(w, DirY(d));
    DivModUnique(t, w, p / w + DirY(d), p % w + DirX(d));
  }

  /** Steps can be undone: from a free cell, the opposite step is legal and comes back. */
  lemma StepReverses(g: Grid, p: nat, d: Dir)
    requires g.width > 0 && Free(g, p) && CanStep(g, p, d)
    ensures CanStep(g, Target(g.width, p, d), Opposite(d))
    ensures Target(g.width, Target(g.width, p, d), Opposite(d)) == p
  {
    StepMovesCoordinates(g, p, d);
  }

  lemma EdgeSymmetric(g: Grid, u: nat, v: nat)
    requires g.width > 0 && Free(g, u) && Edge(g, u, v)
    ensures Free(g, v) && Edge(g, v, u)
  {
    var d: Dir :| CanStep(g, u, d) && v == Target(g.width, u, d);
    StepReverses(g, u, d);
  }

  // ---------- walks ----------

  /** Every step of `dirs`, taken from p, is legal. */
  predicate Walkable(g: Grid, p: nat, dirs: seq<Dir>)
    requires g.width > 0
    decreases |dirs|
  {
    dirs == [] ||
    (CanStep(g, p, dirs[0]) && Walkable(g, Target(g.width, p, dirs[0]), dirs[1..]))
  }

  function WalkEnd(g: Grid, p: nat, dirs: seq<Dir>): nat
    requires g.width > 0 && Walkable(g, p, dirs)
    decreases |dirs|
  {
    if dirs == [] then p else WalkEnd(g, Target(g.width, p, dirs[0]), dirs[1..])
  }

  function SumX(dirs: seq<Dir>): int
    decreases |dirs|
  {
    if dirs == [] then 0 else DirX(dirs[0]) + SumX(dirs[1..])
  }

  function SumY(dirs: seq<Dir>): int
    decreases |dirs|
  {
    if dirs == [] then 0 else DirY(dirs[0]) + SumY(dirs[1..])
  }

  /** A walk ends exactly its summed direction vectors away, in coordinates. */
  lemma {:induction false} WalkDisplacement(g: Grid, p: nat, dirs: seq<Dir>)
    requires g.width > 0 && Walkable(g, p, dirs)
    ensures X(WalkEnd(g, p, dirs), g.width) == X(p, g.width) + SumX(dirs)
    ensures Y(WalkEnd(g, p, dirs), g.width) == Y(p, g.width) + SumY(dirs)
    decreases |dirs|
  {
    if dirs != [] {
      StepMovesCoordinates(g, p, dirs[0]);
      WalkDisplacement(g, Target(g.width, p, dirs[0]), dirs[1..]);
    }
  }

  lemma {:induction false} WalkAppend(g: Grid, p: nat, dirs: seq<Dir>, d: Dir)
    requires g.width > 0 && Walkable(g, p, dirs) && CanStep(g, WalkEnd(g, p, dirs), d)
    ensures Walkable(g, p, dirs + [d])
    ensures WalkEnd(g, p, dirs + [d]) == Target(g.width, WalkEnd(g, p, dirs), d)
    decreases |dirs|
  {
    if dirs == [] {
      var t := Target(g.width, p, d);
      assert Walkable(g, t, []) && WalkEnd(g, t, []) == t;
      assert (dirs + [d])[1..] == [];
    } else {
      WalkAppend(g, Target(g.width, p, dirs[0]), dirs[1..], d);
      assert (dirs + [d])[1..] == dirs[1..] + [d];
    }
  }

  // ---------- reachability ----------

  /** v can be reached from s in exactly n steps. */
  ghost predicate ReachIn(g: Grid, s: nat, v: nat, n: nat)
    requires g.width > 0
    decreases n
  {
    if n == 0 then v == s else exists u: nat :: ReachIn(g, s, u, n - 1) && Edge(g, u, v)
  }

  ghost predicate Reachable(g: Grid, s: nat, v: nat)
    requires g.width > 0
  {
    exists n: nat :: ReachIn(g, s, v, n)
  }

  /** n is the length of a shortest walk from s to v. */
  ghost predicate Shortest(g: Grid, s: nat, v: nat, n: nat)
    requires g.width > 0
  {
    ReachIn(g, s, v, n) && forall m: nat :: ReachIn(g, s, v, m) ==> n <= m
  }
}
