/** What the best-first order of dev/algorithmic/src/ob_path_search.cpp is for: a request along a free
    row is answered by the row itself, whatever the rest of the map is, long before the limit. Two
    requests are worked out down to the numbers that are returned. */
module PathStraight {
  import opened PathGrid
  import opened PathLabels
  import opened PathBacktrack
  import opened PathOrder
  import opened PathSearch
  import opened PathWaypoints

  /** The k cells to the right of s are free and in its row. */
  predicate FreeRow(g: Grid, s: nat, k: nat) {
    && g.width > 0 && s + k < |g.cells| && X(s, g.width) + k < g.width && k < NO_LABEL - 1
    && forall v: nat :: s < v <= s + k ==> Free(g, v)
  }

  lemma RowCell(g: Grid, s: nat, k: nat, i: nat)
    requires FreeRow(g, s, k) && i <= k
    ensures X(s + i, g.width) == X(s, g.width) + i && Y(s + i, g.width) == Y(s, g.width)
  {
    DivModUnique(s + i, g.width, s / g.width, s % g.width + i);
  }

  lemma SameCoordinates(g: Grid, u: nat, v: nat)
    requires g.width > 0 && X(u, g.width) == X(v, g.width) && Y(u, g.width) == Y(v, g.width)
    ensures u == v
  {
    assert u == u / g.width * g.width + u % g.width && v == v / g.width * g.width + v % g.width;
  }

  lemma StepRight(g: Grid, s: nat, k: nat, i: nat)
    requires FreeRow(g, s, k) && i < k
    ensures CanStep(g, s + i, 2) && Around(g, s + i, 1) == s + i + 1
  {
    hide X, Y;
    RowCell(g, s, k, i);
    assert Free(g, s + i + 1);
  }

  // ---------- the state after i turns ----------

  /** No label reaches beyond column x, and each one is at least as large as its column is far from s. */
  ghost predicate Behind(g: Grid, s: nat, x: nat, a: Sweep)
    requires g.width > 0
  {
    && |a.lab| == |g.cells|
    && (forall v: nat :: Labelled(a.lab, v) ==> X(v, g.width) <= x && X(v, g.width) <= X(s, g.width) + a.lab[v])
    && (forall v: nat :: v in a.due ==> Labelled(a.lab, v))
  }

  /** After i turns the front of the search is the i-th cell of the row. */
  ghost predicate AtFront(g: Grid, s: nat, i: nat, a: Sweep)
    requires g.width > 0
  {
    && Behind(g, s, X(s, g.width) + i, a)
    && s + i in a.due && s + i < |a.lab| && a.lab[s + i] == i && a.count <= 8 * i
  }

  lemma OpeningFront(g: Grid, s: nat)
    requires g.width > 0 && s < |g.cells|
    ensures AtFront(g, s, 0, Opening(g, s))
  {
    hide X;
  }

  /** Every other labelled cell has a larger key than the front. */
  lemma FrontIsBest(g: Grid, s: nat, k: nat, i: nat, a: Sweep, v: nat)
    requires FreeRow(g, s, k) && i <= k && AtFront(g, s, i, a) && Labelled(a.lab, v) && v != s + i
    ensures Key(a.lab, g.width, X(s + k, g.width), Y(s + k, g.width), s + i) <
            Key(a.lab, g.width, X(s + k, g.width), Y(s + k, g.width), v)
  {
    RowCell(g, s, k, k);
    RowCell(g, s, k, i);
    if X(v, g.width) == X(s + i, g.width) && Y(v, g.width) == Y(s + i, g.width) {
      SameCoordinates(g, v, s + i);
    }
    hide X, Y;
    FrontKeys(X(s, g.width), Y(s, g.width), k, i, X(v, g.width), Y(v, g.width), a.lab[v]);
  }

  lemma FrontKeys(x: nat, y: nat, k: nat, i: nat, vx: nat, vy: nat, l: nat)
    requires i <= k && vx <= x + i && vx <= x + l && (vx != x + i || vy != y)
    ensures i + Distance(x + k, y, x + i, y) < l + Distance(x + k, y, vx, vy)
  {
  }

  lemma OnlyFront(g: Grid, s: nat, k: nat, i: nat, a: Sweep, p: nat)
    requires FreeRow(g, s, k) && i <= k && AtFront(g, s, i, a)
    requires Best(g, X(s + k, g.width), Y(s + k, g.width), a, p)
    ensures p == s + i
  {
    hide X, Y, Key, FreeRow;
    if p != s + i {
      FrontIsBest(g, s, k, i, a, p);
    }
  }

  // ---------- one turn ----------

  /** Halfway through the turn of the front, with n neighbours looked at. */
  ghost predicate Turning(g: Grid, s: nat, i: nat, n: nat, a: Sweep)
    requires g.width > 0
  {
    && Behind(g, s, X(s, g.width) + i + 1, a) && a.count <= 8 * i + n
    && s + i + 1 < |a.lab| && a.lab[s + i] == i
    && if n < 2 then a.lab[s + i + 1] == NO_LABEL else a.lab[s + i + 1] == i + 1 && s + i + 1 in a.due
  }

  lemma StartTurning(g: Grid, s: nat, k: nat, i: nat, a: Sweep)
    requires FreeRow(g, s, k) && i < k && AtFront(g, s, i, a)
    ensures Turning(g, s, i, 0, a.(due := a.due - {s + i}))
  {
    RowCell(g, s, k, i + 1);
    hide X;
    assert !Labelled(a.lab, s + (i + 1));
  }

  lemma KeepTurning(g: Grid, s: nat, k: nat, i: nat, n: nat, a: Sweep, x2: int, y2: int)
    requires FreeRow(g, s, k) && i < k && n < 8 && Turning(g, s, i, n, a)
    ensures Turning(g, s, i, n + 1, LookedAt(g, x2, y2, s + i, n, a))
  {
    RowCell(g, s, k, i);
    StepRight(g, s, k, i);
    if Improvable(g, s + i, n, a) {
      StepMovesCoordinates(g, s + i, AroundDir(n));
      SlotOfRight(g, s + i, n);
    }
    hide X, Around, FreeRow, Turning, LookedAt, CanStep;
    LookedTurning(g, s, i, n, a, x2, y2);
  }

  lemma LookedTurning(g: Grid, s: nat, i: nat, n: nat, a: Sweep, x2: int, y2: int)
    requires g.width > 0 && n < 8 && i < NO_LABEL - 1 && Turning(g, s, i, n, a)
    requires X(s + i, g.width) == X(s, g.width) + i && (n == 1 ==> Around(g, s + i, n) == s + i + 1)
    requires Improvable(g, s + i, n, a) ==>
               var u := Around(g, s + i, n);
               u != s + i && X(u, g.width) <= X(s + i, g.width) + 1 && (u == s + i + 1 ==> n == 1)
    ensures Turning(g, s, i, n + 1, LookedAt(g, x2, y2, s + i, n, a))
  {
    hide X, Around, DistanceTo;
  }

  /** No other slot holds the cell to the right, and none the cell itself. */
  lemma SlotOfRight(g: Grid, p: nat, n: nat)
    requires g.width > 0 && n < 8 && Around(g, p, n) > 0
    ensures Around(g, p, n) != p && (Around(g, p, n) == p + 1 && CanStep(g, p, 2) ==> n == 1)
  {
    StepMovesCoordinates(g, p, AroundDir(n));
    if CanStep(g, p, 2) {
      StepMovesCoordinates(g, p, 2);
    }
    hide X, Y;
  }

  lemma {:induction false} TurningOn(g: Grid, s: nat, k: nat, i: nat, n: nat, a: Sweep, x2: int, y2: int)
    requires FreeRow(g, s, k) && i < k && n <= 8 && Turning(g, s, i, 0, a)
    ensures Turning(g, s, i, n, Looked(g, x2, y2, s + i, n, a))
    decreases n
  {
    hide Turning, LookedAt;
    if n > 0 {
      TurningOn(g, s, k, i, n - 1, a, x2, y2);
      KeepTurning(g, s, k, i, n - 1, Looked(g, x2, y2, s + i, n - 1, a), x2, y2);
    }
  }

  /** Expanding the front moves it one cell on. */
  lemma FrontMoves(g: Grid, s: nat, k: nat, i: nat, a: Sweep, x2: int, y2: int)
    requires FreeRow(g, s, k) && i < k && AtFront(g, s, i, a)
    ensures AtFront(g, s, i + 1, Expanded(g, x2, y2, s + i, a))
  {
    hide Looked, Turning, AtFront;
    StartTurning(g, s, k, i, a);
    TurningOn(g, s, k, i, 8, a.(due := a.due - {s + i}), x2, y2);
    TurnedFront(g, s, i, Expanded(g, x2, y2, s + i, a));
  }

  lemma TurnedFront(g: Grid, s: nat, i: nat, a: Sweep)
    requires g.width > 0 && Turning(g, s, i, 8, a)
    ensures AtFront(g, s, i + 1, a)
  {
    hide X, Labelled;
  }

  // ---------- the whole run ----------

  lemma {:induction false} TraceIsRow(g: Grid, s: nat, k: nat, limit: nat, trace: seq<nat>, i: nat)
    requires FreeRow(g, s, k) && i <= |trace|
    requires BestFirst(g, s, s + k, X(s + k, g.width), Y(s + k, g.width), limit, trace)
    ensures i <= k && AtFront(g, s, i, Replay(g, s, X(s + k, g.width), Y(s + k, g.width), trace[..i]))
    ensures forall j: nat :: j < i ==> trace[j] == s + j
    decreases i
  {
    hide AtFront, Best, BestFirst, Replay, X, Y, Expanded;
    var x2, y2 := X(s + k, g.width), Y(s + k, g.width);
    if i == 0 {
      NoTrace(g, s, s + k, x2, y2, limit);
      OpeningFront(g, s);
      assert trace[..0] == [];
    } else {
      TraceIsRow(g, s, k, limit, trace, i - 1);
      TurnOfTrace(g, s, s + k, x2, y2, limit, trace, i - 1);
      var a := Replay(g, s, x2, y2, trace[..i - 1]);
      OnlyFront(g, s, k, i - 1, a, trace[i - 1]);
      FrontMoves(g, s, k, i - 1, a, x2, y2);
    }
  }

  lemma TurnOfTrace(g: Grid, s: nat, t: nat, x2: int, y2: int, limit: nat, trace: seq<nat>, i: nat)
    requires g.width > 0 && BestFirst(g, s, t, x2, y2, limit, trace) && i < |trace|
    ensures Best(g, x2, y2, Replay(g, s, x2, y2, trace[..i]), trace[i]) && trace[i] != t
    ensures Replay(g, s, x2, y2, trace[..i + 1]) == Expanded(g, x2, y2, trace[i], Replay(g, s, x2, y2, trace[..i]))
  {
    hide Best, Replay, Expanded;
    assert BestTurn(g, s, t, x2, y2, limit, trace, i);
    assert trace[..i + 1] == trace[..i] + [trace[i]];
    ReplayMore(g, s, x2, y2, trace[..i], trace[i]);
  }

  lemma FrontFacts(g: Grid, s: nat, i: nat, a: Sweep)
    requires g.width > 0 && AtFront(g, s, i, a)
    ensures s + i in a.due && s + i < |a.lab| && a.lab[s + i] == i && a.count <= 8 * i
  {
    hide Behind;
  }

  /** The search goes along the row, cell by cell, and finds the target with its distance as label. */
  lemma StraightRun(g: Grid, s: nat, k: nat, limit: nat, stop: Stop, lab: seq<Label>, trace: seq<nat>, end: nat)
    requires FreeRow(g, s, k) && 8 * k <= limit
    requires BestRun(g, s, s + k, X(s + k, g.width), Y(s + k, g.width), limit, stop, lab, trace, end)
    ensures stop == Found && end == s + k && s + k < |lab| && lab[s + k] == k
    ensures trace == seq(k, i => s + i)
  {
    hide X, Y, Replay, Best, BestFirst, AtFront, Free;
    var x2, y2 := X(s + k, g.width), Y(s + k, g.width);
    TraceIsRow(g, s, k, limit, trace, |trace|);
    assert trace[..|trace|] == trace;
    FrontFacts(g, s, |trace|, Replay(g, s, x2, y2, trace));
    if stop == Found {
      OnlyFront(g, s, k, |trace|, Replay(g, s, x2, y2, trace), s + k);
    }
  }

  lemma {:induction false} SumAtMost(dirs: seq<Dir>)
    ensures SumX(dirs) <= |dirs|
    decreases |dirs|
  {
    if dirs != [] {
      SumAtMost(dirs[1..]);
    }
  }

  /** A walk to the k-th cell of the row that is no longer than k has exactly k steps. */
  lemma RowLength(g: Grid, s: nat, k: nat, dirs: seq<Dir>)
    requires FreeRow(g, s, k) && Walkable(g, s, dirs) && WalkEnd(g, s, dirs) == s + k && |dirs| <= k
    ensures |dirs| == k
  {
    WalkDisplacement(g, s, dirs);
    RowCell(g, s, k, k);
    hide X, Y, Walkable, WalkEnd;
    SumAtMost(dirs);
  }

  // ---------- a request that only this order answers ----------

  /** A map of 41 by 41 walkable cells. */
  function OpenMap(): Grid {
    Grid(seq(1681, _ => 1), 41)
  }

  lemma OpenRequest(g: Grid)
    requires g == OpenMap()
    ensures UnitCost(g) && InMap(g, 20, 20) && InMap(g, 30, 20) && !Refused(g, 20, 20, 30, 20)
    ensures Cell(41, 20, 20) == 840 && Cell(41, 30, 20) == 850 && Distance(20, 20, 30, 20) == 100
    ensures Opened(g, 840) == g && FreeRow(g, 840, 10) && X(850, 41) == 30 && Y(850, 41) == 20
  {
    assert g.cells[840 := 1] == g.cells;
  }

  /** Ten cells to the right on the open map, with a limit of 200: the answer is the row. In the order of
      the labels alone the limit would be passed before the target is reached. */
  method OpenMapAnswer() returns (ret: nat, end: nat)
    ensures ret == 10 && end == 850
  {
    hide UnitCost, InMap, Refused, Isolated, Answer, EndsWithin, ExactLabels, Reachable, Distance, Cell, BestRun, FreeRow, X, Y,
         Opened, Walkable, WalkEnd;
    var cells := new int[1681](_ => 1);
    var search := new Searcher(cells, 41, 41);
    ghost var g := OpenMap();
    assert search.View() == g;
    OpenRequest(g);
    StepRight(g, 840, 10, 0);
    NotIsolated(g, 840, 2);
    var ok; ghost var stop, from, trace;
    ret, ok, stop, from, trace := search.SearchInMap(20, 20, 30, 20);
    end := search.pathPos[0];
    StraightRun(g, 840, 10, 200, stop, search.mapSearch[..], trace, from.pos);
    AnswerWalks(g, 840, 850, 30, 20, stop, search.mapSearch[..], search.pathDir[..ret], end);
    RowLength(g, 840, 10, search.pathDir[..ret]);
  }

  // ---------- a request in pixels ----------

  /** One row: a wall and three walkable cells. */
  function ShortRow(): Grid {
    Grid([10000, 1, 1, 1], 4)
  }

  lemma RowRequest(g: Grid)
    requires g == ShortRow()
    ensures UnitCost(g) && InMap(g, 1, 0) && InMap(g, 3, 0) && !Refused(g, 1, 0, 3, 0)
    ensures Cell(4, 1, 0) == 1 && Cell(4, 3, 0) == 3 && Distance(1, 0, 3, 0) == 20
  {
  }

  lemma ShortRowIs(g: Grid)
    requires g.cells == [10000, 1, 1, 1] && g.width == 4
    ensures g == ShortRow()
  {
  }

  lemma RowMap(g: Grid)
    requires g == ShortRow()
    ensures Opened(g, 1) == g && FreeRow(g, 1, 2) && X(3, 4) == 3 && Y(3, 4) == 0
  {
    assert g.cells[1 := 1] == g.cells;
    assert Free(g, 2) && Free(g, 3);
  }

  lemma OnlyRight(g: Grid, d: Dir)
    requires g == ShortRow()
    ensures CanStep(g, 1, d) ==> d == 2
    ensures CanStep(g, 2, d) && Target(4, 2, d) == 3 ==> d == 2
  {
  }

  lemma TwoSteps(g: Grid, p: nat, a: Dir, b: Dir)
    requires g.width > 0 && Walkable(g, p, [a, b])
    ensures CanStep(g, p, a) && Target(g.width, p, a) >= 0
    ensures var q: nat := Target(g.width, p, a);
            CanStep(g, q, b) && WalkEnd(g, p, [a, b]) == Target(g.width, q, b)
  {
    hide X;
    var q: nat := Target(g.width, p, a);
    assert [a, b][1..] == [b] && [b][1..] == [];
    assert Walkable(g, q, [b]);
    assert WalkEnd(g, p, [a, b]) == WalkEnd(g, q, [b]);
  }

  lemma TwoStepsRight(g: Grid, dirs: seq<Dir>)
    requires g == ShortRow() && |dirs| == 2 && Walkable(g, 1, dirs) && WalkEnd(g, 1, dirs) == 3
    ensures dirs == [2, 2]
  {
    hide CanStep, Walkable, WalkEnd;
    assert dirs == [dirs[0], dirs[1]];
    TwoSteps(g, 1, dirs[0], dirs[1]);
    OnlyRight(g, dirs[0]);
    OnlyRight(g, dirs[1]);
  }

  lemma CentresInPixels()
    ensures Centre(3, 16) == 56 && Centre(0, 8) == 4 && DirX(2) == 1 && DirY(2) == 0
  {
  }

  /** Cells of 16 by 8 pixels, from (24, 4) to (56, 4): two way-points, (40, 4) and (72, 4). */
  method PixelAnswer() returns (step: nat, xs: seq<int>, ys: seq<int>)
    ensures step == 2 && xs == [40, 72] && ys == [4, 4]
  {
    hide UnitCost, InMap, Refused, Isolated, Answer, EndsWithin, ExactLabels, Reachable, Distance, Cell, BestRun, FreeRow, X, Y,
         Opened, Walkable, WalkEnd, Runs, Centre, ShortRow, Legs, Sum, SumX, SumY, DirX, DirY;
    var cells := new int[] [10000, 1, 1, 1];
    var world := new WorldSearch(cells, 4, 1, 16, 8);
    ghost var g := world.search.View();
    assert g.cells == [10000, 1, 1, 1];
    ShortRowIs(g);
    RowRequest(g);
    RowMap(g);
    StepRight(g, 1, 2, 0);
    NotIsolated(g, 1, 2);
    var ok; ghost var dirs, stop, from, trace;
    step, ok, dirs, stop, from, trace := world.Find(24, 4, 56, 4);
    StraightRun(g, 1, 2, 40, stop, world.search.mapSearch[..], trace, from.pos);
    AnswerWalks(g, 1, 3, 3, 0, stop, world.search.mapSearch[..], dirs, world.search.pathPos[0]);
    RowLength(g, 1, 2, dirs);
    TwoStepsRight(g, dirs);
    TwoRightRuns();
    CentresInPixels();
    xs, ys := world.pathX[..step], world.pathY[..step];
    PixelLegs(xs, ys);
  }

  lemma PixelLegs(xs: seq<int>, ys: seq<int>)
    requires Legs(xs, [[2, 2]], Horizontal, 16) && Legs(ys, [[2, 2]], Vertical, 8) && xs[1] == 72 && ys[1] == 4
    ensures xs == [40, 72] && ys == [4, 4]
  {
    var right: seq<Dir> := [2];
    assert right + right == [2, 2];
    OneDirection(2);
    SumOfSnoc(Horizontal, right, 2);
    SumOfSnoc(Vertical, right, 2);
    hide Sum;
    assert xs[0 + 1] - xs[0] == 16 * Sum(Horizontal, [[2, 2]][0]);
    assert ys[0 + 1] - ys[0] == 8 * Sum(Vertical, [[2, 2]][0]);
  }
}
