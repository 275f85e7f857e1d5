/** OBPathSearch::Find of dev/algorithmic/src/ob_path_search.cpp: a search between two world points
    whose direction list is compressed into way-points, one per change of direction. */
module PathWaypoints {
  import opened PathGrid
  import opened PathQueue
  import opened PathLabels
  import opened PathBacktrack
  import opened PathOrder
  import opened PathSearch

  const WAYPOINTS := 512

  // ---------- maximal runs ----------

  /** The maximal runs of equal directions, in order. */
  function Runs(dirs: seq<Dir>): (r: seq<seq<Dir>>)
    ensures |r| <= |dirs|
    ensures dirs != [] ==> |r| > 0 && |r[|r| - 1]| > 0
    decreases |dirs|
  {
    if dirs == [] then []
    else
      var n := |dirs|;
      var r := Runs(dirs[..n - 1]);
      if n > 1 && dirs[n - 2] == dirs[n - 1]
      then r[..|r| - 1] + [r[|r| - 1] + [dirs[n - 1]]]
      else r + [[dirs[n - 1]]]
  }

  function Flatten(runs: seq<seq<Dir>>): seq<Dir>
    decreases |runs|
  {
    if runs == [] then [] else Flatten(runs[..|runs| - 1]) + runs[|runs| - 1]
  }

  ghost predicate Constant(run: seq<Dir>) {
    |run| > 0 && forall i :: 0 <= i < |run| ==> run[i] == run[0]
  }

  /** runs cuts dirs into non-empty constant pieces, and no two neighbouring pieces could be merged. */
  ghost predicate MaximalRuns(dirs: seq<Dir>, runs: seq<seq<Dir>>) {
    && Flatten(runs) == dirs
    && (forall k :: 0 <= k < |runs| ==> Constant(runs[k]))
    && (forall k :: 0 < k < |runs| ==> runs[k - 1][0] != runs[k][0])
  }

  lemma FlattenSnoc(runs: seq<seq<Dir>>, run: seq<Dir>)
    ensures Flatten(runs + [run]) == Flatten(runs) + run
  {
    assert (runs + [run])[..|runs|] == runs;
  }

  /** A direction equal to the last one lengthens the last run. */
  lemma ExtendRun(dirs: seq<Dir>, front: seq<seq<Dir>>, last: seq<Dir>, d: Dir)
    requires MaximalRuns(dirs, front + [last]) && Constant(last) && last[0] == d
    ensures MaximalRuns(dirs + [d], front + [last + [d]])
    ensures Constant(last + [d]) && (last + [d])[0] == d
  {
    var a, b := front + [last], front + [last + [d]];
    FlattenSnoc(front, last);
    FlattenSnoc(front, last + [d]);
    assert Flatten(b) == (Flatten(front) + last) + [d];
    forall k | 0 <= k < |b|
      ensures Constant(b[k]) && b[k][0] == a[k][0]
    {
      assert Constant(a[k]);
    }
  }

  /** Any other direction starts a run of its own. */
  lemma StartRun(dirs: seq<Dir>, runs: seq<seq<Dir>>, d: Dir)
    requires MaximalRuns(dirs, runs)
    requires runs != [] ==> Constant(runs[|runs| - 1]) && runs[|runs| - 1][0] != d
    ensures MaximalRuns(dirs + [d], runs + [[d]]) && Constant([d])
  {
    FlattenSnoc(runs, [d]);
    assert Constant([d]);
  }

  /** How one more direction changes the runs. */
  lemma RunsSnoc(dirs: seq<Dir>, d: Dir)
    ensures var r := Runs(dirs);
            Runs(dirs + [d]) == if dirs != [] && dirs[|dirs| - 1] == d then r[..|r| - 1] + [r[|r| - 1] + [d]] else r + [[d]]
  {
    assert (dirs + [d])[..|dirs|] == dirs;
  }

  lemma {:induction false} RunsAreMaximal(dirs: seq<Dir>)
    ensures MaximalRuns(dirs, Runs(dirs))
    ensures dirs != [] ==> var r := Runs(dirs); Constant(r[|r| - 1]) && r[|r| - 1][0] == dirs[|dirs| - 1]
    decreases |dirs|
  {
    hide MaximalRuns, Constant, Runs;
    NoRuns();
    if dirs == [] {
    } else {
      var n := |dirs|;
      var init, d := dirs[..n - 1], dirs[n - 1];
      var r := Runs(init);
      RunsAreMaximal(init);
      RunsSnoc(init, d);
      assert dirs == init + [d];
      if n > 1 && dirs[n - 2] == d {
        assert r == r[..|r| - 1] + [r[|r| - 1]];
        ConstantHead(r[|r| - 1]);
        ExtendRun(init, r[..|r| - 1], r[|r| - 1], d);
      } else {
        StartRun(init, r, d);
      }
    }
  }

  lemma ConstantHead(run: seq<Dir>)
    requires Constant(run)
    ensures |run| > 0
  {
  }

  lemma NoRuns()
    ensures MaximalRuns([], []) && Runs([]) == []
  {
  }

  /** Where the last piece of a maximal cut begins is fixed by the directions alone: everything from
      there on is the last direction, and the direction just before is not. */
  lemma LastRunBoundary(dirs: seq<Dir>, a: seq<seq<Dir>>)
    requires dirs != [] && MaximalRuns(dirs, a)
    ensures |a| > 0 && 0 < |a[|a| - 1]| <= |dirs|
    ensures var k := |dirs| - |a[|a| - 1]|;
            && dirs[k..] == a[|a| - 1] && dirs[..k] == Flatten(a[..|a| - 1])
            && (forall i :: k <= i < |dirs| ==> dirs[i] == dirs[|dirs| - 1])
            && (k > 0 ==> |a| > 1 && dirs[k - 1] != dirs[|dirs| - 1])
  {
    var n, last, front := |dirs|, a[|a| - 1], a[..|a| - 1];
    assert Constant(last);
    var k := n - |last|;
    assert dirs == Flatten(front) + last;
    assert forall i :: k <= i < n ==> dirs[i] == last[i - k];
    assert dirs[n - 1] == last[|last| - 1] == last[0];
    if k > 0 {
      assert |front| > 0;
      var prev := a[|a| - 2];
      assert Constant(prev);
      assert Flatten(front) == Flatten(front[..|front| - 1]) + prev;
      assert dirs[k - 1] == prev[|prev| - 1] == prev[0];
    }
  }

  /** There is only one way to cut a direction list into maximal runs. */
  lemma {:induction false} MaximalRunsUnique(dirs: seq<Dir>, a: seq<seq<Dir>>, b: seq<seq<Dir>>)
    requires MaximalRuns(dirs, a) && MaximalRuns(dirs, b)
    ensures a == b
    decreases |dirs|
  {
    if dirs == [] {
      EmptyRuns(a);
      EmptyRuns(b);
    } else {
      LastRunBoundary(dirs, a);
      LastRunBoundary(dirs, b);
      var k := |dirs| - |a[|a| - 1]|;
      assert k == |dirs| - |b[|b| - 1]|;
      MaximalRunsUnique(dirs[..k], a[..|a| - 1], b[..|b| - 1]);
      assert a == a[..|a| - 1] + [dirs[k..]] && b == b[..|b| - 1] + [dirs[k..]];
    }
  }

  lemma EmptyRuns(a: seq<seq<Dir>>)
    requires MaximalRuns([], a)
    ensures a == []
  {
    FlattenAtLeastLast(a);
    assert forall k :: 0 <= k < |a| ==> Constant(a[k]);
  }

  lemma FlattenAtLeastLast(a: seq<seq<Dir>>)
    ensures a != [] ==> |Flatten(a)| >= |a[|a| - 1]|
  {
  }

  // ---------- sums over runs ----------

  lemma {:induction false} SumAppend(a: seq<Dir>, b: seq<Dir>)
    ensures SumX(a + b) == SumX(a) + SumX(b) && SumY(a + b) == SumY(a) + SumY(b)
    decreases |a|
  {
    if a == [] {
      assert a + b == b;
    } else {
      assert (a + b)[1..] == a[1..] + b;
      SumAppend(a[1..], b);
    }
  }

  /** The coordinates p of the way-points on one axis: every leg spans its run's share of that axis. */
  ghost predicate Legs(p: seq<int>, runs: seq<seq<Dir>>, axis: Axis, size: nat) {
    |p| == |runs| + 1 && forall k :: 0 <= k < |runs| ==> p[k + 1] - p[k] == size * Sum(axis, runs[k])
  }

  datatype Axis = Horizontal | Vertical

  function Sum(axis: Axis, dirs: seq<Dir>): int {
    if axis == Horizontal then SumX(dirs) else SumY(dirs)
  }

  lemma SumOfSnoc(axis: Axis, dirs: seq<Dir>, d: Dir)
    ensures Sum(axis, dirs + [d]) == Sum(axis, dirs) + Sum(axis, [d])
  {
    hide SumX, SumY;
    SumAppend(dirs, [d]);
  }

  lemma Distribute(n: int, a: int, b: int)
    ensures n * (a + b) == n * a + n * b
  {
  }

  /** All legs together span the whole direction list. */
  lemma {:induction false} LegsSpan(p: seq<int>, runs: seq<seq<Dir>>, axis: Axis, size: nat)
    requires Legs(p, runs, axis, size)
    ensures p[|runs|] == p[0] + size * Sum(axis, Flatten(runs))
    decreases |runs|
  {
    if runs != [] {
      var n := |runs|;
      var front, last := Flatten(runs[..n - 1]), runs[n - 1];
      LegsSpan(p[..n], runs[..n - 1], axis, size);
      SumAppend(front, last);
      Distribute(size, Sum(axis, front), Sum(axis, last));
      assert p[n] - p[n - 1] == size * Sum(axis, last);
    }
  }

  // ---------- Find ----------

  function Centre(cell: int, size: nat): int {
    size * cell + size / 2
  }

  /** The centre lies inside its cell, as far from one edge as from the other, up to the odd pixel. */
  lemma CentreInside(cell: int, size: nat)
    requires size > 0
    ensures size * cell <= Centre(cell, size) < size * (cell + 1)
    ensures 0 <= (size * (cell + 1) - Centre(cell, size)) - (Centre(cell, size) - size * cell) <= 1
  {
    Distribute(size, cell, 1);
  }

  /** The way-points for a list of at least two directions, on one axis: way-point 0 is already one
      step away from the start, and the first leg then covers the whole first run again. */
  ghost predicate WayPoints(p: seq<int>, start: int, dirs: seq<Dir>, axis: Axis, size: nat) {
    && dirs != []
    && Legs(p, Runs(dirs), axis, size)
    && p[0] == start + size * Sum(axis, [dirs[0]])
  }

  /** The last way-point is one first step beyond the point the directions lead to. */
  lemma LastWayPoint(p: seq<int>, start: int, dirs: seq<Dir>, axis: Axis, size: nat)
    requires WayPoints(p, start, dirs, axis, size)
    ensures p[|p| - 1] == start + size * Sum(axis, dirs) + size * Sum(axis, [dirs[0]])
  {
    RunsAreMaximal(dirs);
    LegsSpan(p, Runs(dirs), axis, size);
  }

  lemma FirstRun(dirs: seq<Dir>)
    requires |dirs| == 1
    ensures Runs(dirs) == [dirs]
  {
    assert dirs[..0] == [] && dirs == [dirs[0]];
  }

  lemma NextRun(dirs: seq<Dir>, i: nat)
    requires 0 < i < |dirs|
    ensures var r := Runs(dirs[..i]);
            Runs(dirs[..i + 1]) == if dirs[i] == dirs[i - 1] then r[..|r| - 1] + [r[|r| - 1] + [dirs[i]]]
                                   else r + [[dirs[i]]]
  {
    hide Runs;
    RunsSnoc(dirs[..i], dirs[i]);
    assert dirs[..i + 1] == dirs[..i] + [dirs[i]];
  }

  /** The way-points written so far, and the leg still being added up, after i directions. */
  ghost predicate Partial(p: seq<int>, start: int, dirs: seq<Dir>, i: nat, axis: Axis, size: nat, step: nat, leg: int) {
    && 0 < i <= |dirs|
    && var r := Runs(dirs[..i]);
       && |p| == step == |r| && r[|r| - 1] != []
       && p[0] == start + size * Sum(axis, [dirs[0]])
       && (forall k :: 0 <= k < |r| - 1 ==> p[k + 1] - p[k] == size * Sum(axis, r[k]))
       && leg == size * Sum(axis, r[|r| - 1])
  }

  lemma PartialStart(start: int, dirs: seq<Dir>, axis: Axis, size: nat, first: int)
    requires dirs != [] && first == size * Sum(axis, [dirs[0]])
    ensures Partial([start + first], start, dirs, 1, axis, size, 1, first)
  {
    FirstRun(dirs[..1]);
    assert dirs[..1] == [dirs[0]];
  }

  lemma PartialTurn(p: seq<int>, start: int, dirs: seq<Dir>, i: nat, axis: Axis, size: nat, step: nat, leg: int, next: int)
    requires Partial(p, start, dirs, i, axis, size, step, leg) && i < |dirs| && dirs[i] != dirs[i - 1]
    requires next == size * Sum(axis, [dirs[i]])
    ensures Partial(p + [leg + p[step - 1]], start, dirs, i + 1, axis, size, step + 1, next)
  {
    NextRun(dirs, i);
    var r, r' := Runs(dirs[..i]), Runs(dirs[..i + 1]);
    var q := p + [leg + p[step - 1]];
    forall k | 0 <= k < |r'| - 1
      ensures q[k + 1] - q[k] == size * Sum(axis, r'[k])
    {
    }
  }

  lemma PartialStraight(p: seq<int>, start: int, dirs: seq<Dir>, i: nat, axis: Axis, size: nat, step: nat, leg: int, more: int)
    requires Partial(p, start, dirs, i, axis, size, step, leg) && i < |dirs| && dirs[i] == dirs[i - 1]
    requires more == size * Sum(axis, [dirs[i]])
    ensures Partial(p, start, dirs, i + 1, axis, size, step, leg + more)
  {
    hide Sum, Runs;
    NextRun(dirs, i);
    var last := Runs(dirs[..i])[step - 1];
    SumOfSnoc(axis, last, dirs[i]);
    Distribute(size, Sum(axis, last), Sum(axis, [dirs[i]]));
  }

  lemma PartialDone(p: seq<int>, start: int, dirs: seq<Dir>, axis: Axis, size: nat, step: nat, leg: int)
    requires dirs != [] && Partial(p, start, dirs, |dirs|, axis, size, step, leg)
    ensures WayPoints(p + [leg + p[step - 1]], start, dirs, axis, size)
  {
    assert dirs[..|dirs|] == dirs;
  }

  /** The pixel offset tables of Find. */
  ghost predicate StepTable(table: seq<int>, axis: Axis, size: nat) {
    |table| == 8 && forall d: Dir :: table[d] == size * Sum(axis, [d])
  }

  lemma StepTables(w: nat, h: nat)
    ensures StepTable([0, w, w, w, 0, 0 - w, 0 - w, 0 - w], Horizontal, w)
    ensures StepTable([0 - h, 0 - h, 0, h, h, h, 0, 0 - h], Vertical, h)
  {
    forall d: Dir
      ensures Sum(Horizontal, [d]) == DirX(d) && Sum(Vertical, [d]) == DirY(d)
    {
      OneDirection(d);
    }
  }

  /** Both axes of the compression loop. */
  ghost predicate Compressing(px: seq<int>, py: seq<int>, x: int, y: int, dirs: seq<Dir>, i: nat, w: nat, h: nat,
                              step: nat, dx: int, dy: int) {
    Partial(px, x, dirs, i, Horizontal, w, step, dx) && Partial(py, y, dirs, i, Vertical, h, step, dy)
  }

  lemma CompressStart(x: int, y: int, dirs: seq<Dir>, w: nat, h: nat, tx: seq<int>, ty: seq<int>)
    requires dirs != [] && StepTable(tx, Horizontal, w) && StepTable(ty, Vertical, h)
    ensures var d := dirs[0]; Compressing([x + tx[d]], [y + ty[d]], x, y, dirs, 1, w, h, 1, tx[d], ty[d])
  {
    PartialStart(x, dirs, Horizontal, w, tx[dirs[0]]);
    PartialStart(y, dirs, Vertical, h, ty[dirs[0]]);
  }

  lemma CompressStep(px: seq<int>, py: seq<int>, x: int, y: int, dirs: seq<Dir>, i: nat, w: nat, h: nat,
                     step: nat, dx: int, dy: int, tx: seq<int>, ty: seq<int>)
    requires Compressing(px, py, x, y, dirs, i, w, h, step, dx, dy) && i < |dirs|
    requires StepTable(tx, Horizontal, w) && StepTable(ty, Vertical, h)
    ensures 0 < i && 0 < step == |px| == |py|
    ensures var d := dirs[i];
            if d != dirs[i - 1]
            then step < |Runs(dirs)| &&
                 Compressing(px + [dx + px[step - 1]], py + [dy + py[step - 1]], x, y, dirs, i + 1, w, h, step + 1, tx[d], ty[d])
            else Compressing(px, py, x, y, dirs, i + 1, w, h, step, dx + tx[d], dy + ty[d])
  {
    hide Runs, Sum;
    var d := dirs[i];
    RoomLeft(dirs, i);
    StepCount(px, x, dirs, i, Horizontal, w, step, dx);
    if d != dirs[i - 1] {
      PartialTurn(px, x, dirs, i, Horizontal, w, step, dx, tx[d]);
      PartialTurn(py, y, dirs, i, Vertical, h, step, dy, ty[d]);
    } else {
      PartialStraight(px, x, dirs, i, Horizontal, w, step, dx, tx[d]);
      PartialStraight(py, y, dirs, i, Vertical, h, step, dy, ty[d]);
    }
  }

  lemma CompressDone(px: seq<int>, py: seq<int>, x: int, y: int, dirs: seq<Dir>, w: nat, h: nat,
                     step: nat, dx: int, dy: int)
    requires dirs != [] && Compressing(px, py, x, y, dirs, |dirs|, w, h, step, dx, dy)
    ensures 0 < step == |px| == |py| == |Runs(dirs)|
    ensures WayPoints(px + [dx + px[step - 1]], x, dirs, Horizontal, w)
    ensures WayPoints(py + [dy + py[step - 1]], y, dirs, Vertical, h)
  {
    PartialDone(px, x, dirs, Horizontal, w, step, dx);
    PartialDone(py, y, dirs, Vertical, h, step, dy);
    assert dirs[..|dirs|] == dirs;
  }

  class WorldSearch {
    const search: Searcher
    const cellW: nat
    const cellH: nat
    const pathX: array<int>
    const pathY: array<int>

    ghost predicate Valid()
      reads this, search, search.queue, search.queue.nodes
    {
      && search.Valid() && cellW > 0 && cellH > 0
      && pathX.Length == WAYPOINTS && pathY.Length == WAYPOINTS
      && pathX != pathY && pathX != search.mapData && pathY != search.mapData
    }

    constructor (cells: array<int>, width: nat, height: nat, w: nat, h: nat)
      requires width >= 2 && cells.Length == width * height && w > 0 && h > 0
      ensures Valid() && search.mapData == cells && search.mapWidth == width && cellW == w && cellH == h
      ensures fresh(search.mapSearch) && fresh(search.queue) && fresh(search.queue.nodes) && fresh(search.pathPos)
      ensures fresh(search.pathDir) && fresh(pathX) && fresh(pathY)
    {
      search := new Searcher(cells, width, height);
      cellW := w;
      cellH := h;
      pathX := new int[WAYPOINTS];
      pathY := new int[WAYPOINTS];
    }

    /** A path between two world points: the number of way-points written, or 0. Where the source's
        backtracking does not end before PathPos is full, or there are more way-points than PathX and
        PathY hold, ok is false and nothing else is promised. */
    method Find(x1: nat, y1: nat, x2: nat, y2: nat)
      returns (step: nat, ok: bool, ghost dirs: seq<Dir>, ghost stop: Stop, ghost from: Back, ghost trace: seq<nat>)
      requires Valid() && UnitCost(search.View())
      requires InMap(search.View(), x1 / cellW, y1 / cellH) && InMap(search.View(), x2 / cellW, y2 / cellH)
      requires 2 * Distance(x1 / cellW, y1 / cellH, x2 / cellW, y2 / cellH) + 8 < MAX_QUEUE_LEN - 1
      modifies search.mapData, search.mapSearch, search.queue`tail, search.queue.nodes, search.pathPos, search.pathDir,
               pathX, pathY
      ensures Valid()
      ensures stop == NotSearched <==> Refused(old(search.View()), x1 / cellW, y1 / cellH, x2 / cellW, y2 / cellH)
      ensures |dirs| < PATH_LEN && dirs == search.pathDir[..|dirs|]
      ensures var s := Cell(search.mapWidth, x1 / cellW, y1 / cellH);
              var g := Opened(old(search.View()), s);
              if stop == NotSearched || Isolated(g, s) then ok
              else
                && from.dist == FAR && from.pos >= 0 && Labelled(search.mapSearch[..], from.pos)
                && (ok <==> EndsWithin(g, search.mapSearch[..], from, PATH_LEN) && (|dirs| > 1 ==> |Runs(dirs)| < WAYPOINTS))
                && BestRun(g, s, Cell(search.mapWidth, x2 / cellW, y2 / cellH), x2 / cellW, y2 / cellH,
                           2 * Distance(x1 / cellW, y1 / cellH, x2 / cellW, y2 / cellH), stop, search.mapSearch[..], trace, from.pos)
      ensures Cell(search.mapWidth, x1 / cellW, y1 / cellH) > 0 ==>
                2 * Distance(x1 / cellW, y1 / cellH, x2 / cellW, y2 / cellH) + 8 < WAYPOINTS ==> ok
      ensures ok ==>
                var s, t := Cell(search.mapWidth, x1 / cellW, y1 / cellH), Cell(search.mapWidth, x2 / cellW, y2 / cellH);
                var g := Opened(old(search.View()), s);
                && search.View() == old(search.View())
                && (step == 0 <==> stop == NotSearched || Isolated(g, s))
                && (step == 0 && stop != NotSearched ==> ExactLabels(g, s, search.mapSearch[..]) && !Reachable(g, s, t))
                && (step > 0 ==>
                      && Answer(g, s, t, x2 / cellW, y2 / cellH, stop, search.mapSearch[..], dirs, search.pathPos[0])
                      && (search.pathPos[0] == t <==> search.mapSearch[t] != NO_LABEL)
                      && search.pathPos[0] == from.pos && |dirs| <= search.mapSearch[from.pos])
      ensures ok && step > 0 ==>
                && dirs != [] && step <= WAYPOINTS
                && (|dirs| == 1 <==> step == 1)
                && (step > 1 ==>
                      && step == |Runs(dirs)| + 1
                      && Legs(pathX[..step], Runs(dirs), Horizontal, cellW)
                      && Legs(pathY[..step], Runs(dirs), Vertical, cellH))
                && pathX[step - 1] == Centre(X(search.pathPos[0], search.mapWidth), cellW) + (if step == 1 then 0 else cellW * DirX(dirs[0]))
                && pathY[step - 1] == Centre(Y(search.pathPos[0], search.mapWidth), cellH) + (if step == 1 then 0 else cellH * DirY(dirs[0]))
      ensures ok && step > 0 ==>
                var end := search.pathPos[0];
                (step == 1 <==> pathX[step - 1] == Centre(X(end, search.mapWidth), cellW)
                                && pathY[step - 1] == Centre(Y(end, search.mapWidth), cellH))
    {
      hide UnitCost, Answer, Isolated, ExactLabels, Reachable, Distance, Runs, Legs, Refused, EndsWithin, X, Y, SumX, SumY,
           DirX, DirY, BestRun;
      var cx1, cy1, cx2, cy2 := x1 / cellW, y1 / cellH, x2 / cellW, y2 / cellH;
      var ret;
      ret, ok, stop, from, trace := search.SearchInMap(cx1, cy1, cx2, cy2);
      step, dirs := 0, [];
      if !ok || ret == 0 {
        return;
      }
      dirs := search.pathDir[..ret];
      ghost var s := Cell(search.mapWidth, cx1, cy1);
      ghost var g := Opened(search.View(), s);
      AnswerWalks(g, s, Cell(search.mapWidth, cx2, cy2), cx2, cy2, stop, search.mapSearch[..], dirs, search.pathPos[0]);
      CellCoordinates(search.mapWidth, cx1, cy1);
      EndPoint(g, s, dirs, cellW, Horizontal);
      EndPoint(g, s, dirs, cellH, Vertical);
      RunCount(dirs);
      Overshoots(cellW, cellH, dirs[0]);
      step, ok := Compress(cx1, cy1, ret);
      if ok && step > 1 {
        LastWayPoint(pathX[..step], Centre(cx1, cellW), dirs, Horizontal, cellW);
        LastWayPoint(pathY[..step], Centre(cy1, cellH), dirs, Vertical, cellH);
        OneDirection(dirs[0]);
      }
    }

    /** Closes a leg: the next way-point is the leg away from the last one. */
    method Emit(step: nat, dx: int, dy: int)
      requires Valid() && 1 <= step < WAYPOINTS
      modifies pathX, pathY
      ensures pathX[..step + 1] == old(pathX[..step]) + [dx + old(pathX[step - 1])]
      ensures pathY[..step + 1] == old(pathY[..step]) + [dy + old(pathY[step - 1])]
    {
      pathX[step] := dx + pathX[step - 1];
      pathY[step] := dy + pathY[step - 1];
    }

    /** The second half of Find: compresses the first ret directions of PathDir. Returns fits = false where
        the source writes past the end of PathX and PathY. */
    method Compress(x1: int, y1: int, ret: nat) returns (step: nat, fits: bool)
      requires Valid() && 1 <= ret <= search.pathDir.Length
      modifies pathX, pathY
      ensures fits <==> ret == 1 || |Runs(search.pathDir[..ret])| < WAYPOINTS
      ensures ret == 1 ==> step == 1 && pathX[0] == Centre(x1, cellW) + cellW * SumX(search.pathDir[..1])
                           && pathY[0] == Centre(y1, cellH) + cellH * SumY(search.pathDir[..1])
      ensures ret > 1 && fits ==>
                          step == |Runs(search.pathDir[..ret])| + 1
                          && WayPoints(pathX[..step], Centre(x1, cellW), search.pathDir[..ret], Horizontal, cellW)
                          && WayPoints(pathY[..step], Centre(y1, cellH), search.pathDir[..ret], Vertical, cellH)
    {
      hide Compressing, WayPoints, Runs, StepTable;
      ghost var dirs := search.pathDir[..ret];
      var w: int, h: int := cellW, cellH;
      var dx := [0, w, w, w, 0, -w, -w, -w];
      var dy := [-h, -h, 0, h, h, h, 0, -h];
      StepTables(cellW, cellH);
      FirstStep(dirs[0], dx, dy, cellW, cellH);
      ghost var startX, startY := Centre(x1, cellW), Centre(y1, cellH);
      var lastDir := search.pathDir[0];
      pathX[0] := cellW * x1 + cellW / 2 + dx[lastDir];
      pathY[0] := cellH * y1 + cellH / 2 + dy[lastDir];
      if ret == 1 {
        assert search.pathDir[..1] == [lastDir];
        return 1, true;
      }
      step, fits := 1, true;
      var lastDx, lastDy := dx[lastDir], dy[lastDir];
      CompressStart(startX, startY, dirs, cellW, cellH, dx, dy);
      assert pathX[..1] == [startX + lastDx] && pathY[..1] == [startY + lastDy];
      var i := 1;
      while i < ret
        invariant 1 <= i <= ret && lastDir == dirs[i - 1]
        invariant 1 <= step <= WAYPOINTS
        invariant Compressing(pathX[..step], pathY[..step], startX, startY, dirs, i, cellW, cellH, step, lastDx, lastDy)
      {
        CompressStep(pathX[..step], pathY[..step], startX, startY, dirs, i, cellW, cellH, step, lastDx, lastDy, dx, dy);
        if lastDir != search.pathDir[i] {
          if step == WAYPOINTS {
            return step, false;
          }
          Emit(step, lastDx, lastDy);
          step := step + 1;
          lastDir := search.pathDir[i];
          lastDx, lastDy := dx[lastDir], dy[lastDir];
        } else {
          lastDx := lastDx + dx[lastDir];
          lastDy := lastDy + dy[lastDir];
        }
        i := i + 1;
      }
      CompressDone(pathX[..step], pathY[..step], startX, startY, dirs, cellW, cellH, step, lastDx, lastDy);
      if step == WAYPOINTS {
        return step, false;
      }
      Emit(step, lastDx, lastDy);
      step := step + 1;
    }
  }

  lemma Overshoots(w: nat, h: nat, d: Dir)
    requires w > 0 && h > 0
    ensures w * DirX(d) != 0 || h * DirY(d) != 0
  {
  }

  /** Two steps to the right, in a row of three walkable cells behind a wall: there are two way-points,
      and the second is not the centre of the third cell but of the one after it. */
  lemma OvershootExample(p: seq<int>, size: nat)
    requires size > 0
    ensures var g := Grid([BLOCKED, 1, 1, 1], 4);
            Walkable(g, 1, [2, 2]) && WalkEnd(g, 1, [2, 2]) == 3
    ensures WayPoints(p, Centre(1, size), [2, 2], Horizontal, size) <==> p == [Centre(2, size), Centre(4, size)]
    ensures Centre(4, size) != Centre(3, size)
  {
    TwoRight();
    TwoRightRuns();
    OneDirection(2);
    var right: seq<Dir> := [2];
    assert right + right == [2, 2];
    SumOfSnoc(Horizontal, right, 2);
    TwoLegs(p, Centre(1, size), size);
  }

  lemma TwoRight()
    ensures var g := Grid([BLOCKED, 1, 1, 1], 4);
            Walkable(g, 1, [2, 2]) && WalkEnd(g, 1, [2, 2]) == 3
  {
  }

  lemma TwoRightRuns()
    ensures Runs([2, 2]) == [[2, 2]]
  {
    var right: seq<Dir> := [2];
    assert right + right == [2, 2];
    FirstRun(right);
    RunsSnoc(right, 2);
  }

  lemma TwoLegs(p: seq<int>, start: int, size: nat)
    requires Runs([2, 2]) == [[2, 2]] && Sum(Horizontal, [2]) == 1 && Sum(Horizontal, [2, 2]) == 2
    ensures WayPoints(p, start, [2, 2], Horizontal, size) <==> p == [start + size, start + size + 2 * size]
  {
    hide Runs, Sum;
  }

  lemma FirstStep(d: Dir, tx: seq<int>, ty: seq<int>, w: nat, h: nat)
    requires StepTable(tx, Horizontal, w) && StepTable(ty, Vertical, h)
    ensures |tx| == |ty| == 8 && tx[d] == w * SumX([d]) && ty[d] == h * SumY([d])
  {
  }

  /** Where the way-points of an answer end: at the centre of the cell the directions lead to when
      there is a single direction, one first step beyond it otherwise. */
  lemma EndPoint(g: Grid, s: nat, dirs: seq<Dir>, size: nat, axis: Axis)
    requires g.width > 0 && Walkable(g, s, dirs)
    ensures var from, to := Coordinate(g.width, s, axis), Coordinate(g.width, WalkEnd(g, s, dirs), axis);
            Centre(to, size) == Centre(from, size) + size * Sum(axis, dirs)
  {
    hide Walkable, WalkEnd, X, Y, SumX, SumY;
    WalkDisplacement(g, s, dirs);
    Distribute(size, Coordinate(g.width, s, axis), Sum(axis, dirs));
  }

  function Coordinate(w: nat, p: nat, axis: Axis): nat
    requires w > 0
  {
    if axis == Horizontal then X(p, w) else Y(p, w)
  }

  lemma AnswerWalks(g: Grid, s: nat, t: nat, x2: int, y2: int, stop: Stop, lab: seq<Label>, dirs: seq<Dir>, end: nat)
    requires g.width > 0 && Answer(g, s, t, x2, y2, stop, lab, dirs, end)
    ensures Walkable(g, s, dirs) && WalkEnd(g, s, dirs) == end
  {
  }

  lemma RunCount(dirs: seq<Dir>)
    requires dirs != []
    ensures 0 < |Runs(dirs)| <= |dirs|
  {
  }

  lemma OneDirection(d: Dir)
    ensures Sum(Horizontal, [d]) == DirX(d) && Sum(Vertical, [d]) == DirY(d)
  {
    assert SumX([d]) == DirX(d) + SumX([]) && SumY([d]) == DirY(d) + SumY([]);
  }

  lemma StepCount(p: seq<int>, start: int, dirs: seq<Dir>, i: nat, axis: Axis, size: nat, step: nat, leg: int)
    requires Partial(p, start, dirs, i, axis, size, step, leg)
    ensures i <= |dirs| && step == |Runs(dirs[..i])|
  {
  }

  lemma {:induction false} RoomLeft(dirs: seq<Dir>, i: nat)
    requires i <= |dirs|
    ensures i < |dirs| && i > 0 && dirs[i] != dirs[i - 1] ==> |Runs(dirs[..i])| < |Runs(dirs)|
    ensures |Runs(dirs[..i])| <= |Runs(dirs)|
    decreases |dirs| - i
  {
    if i < |dirs| {
      RoomLeft(dirs, i + 1);
      if i > 0 {
        NextRun(dirs, i);
      } else {
        assert dirs[..0] == [];
      }
    } else {
      assert dirs[..i] == dirs;
    }
  }
}
