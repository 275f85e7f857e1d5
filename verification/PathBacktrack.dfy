/** The backtracking loop of dev/algorithmic/src/ob_path_search.cpp as a step relation on any labels:
    GetAround's slots, the scan for the smallest label among them, and the move to the slot it was seen
    in. The loop ends when that label is 0, and this file proves when it ever is. */
module PathBacktrack {
  import opened PathGrid
  import opened PathLabels

  /** What near_dist starts from. */
  const FAR := 0x7FFF

  /** The order in which GetAround lists neighbours: the four sides, then the four corners. */
  function AroundDir(i: nat): Dir
    requires i < 8
  {
    if i == 0 then 0 else if i == 1 then 2 else if i == 2 then 4 else if i == 3 then 6
    else if i == 4 then 1 else if i == 5 then 3 else if i == 6 then 5 else 7
  }

  function AroundIndex(d: Dir): (i: nat)
    ensures i < 8 && AroundDir(i) == d
  {
    if d == 0 then 0 else if d == 2 then 1 else if d == 4 then 2 else if d == 6 then 3
    else if d == 1 then 4 else if d == 3 then 5 else if d == 5 then 6 else 7
  }

  /** What GetAround must leave in slot i: the cell one legal step away, or 0. */
  function Around(g: Grid, pos: nat, i: nat): nat
    requires g.width > 0 && i < 8
  {
    if CanStep(g, pos, AroundDir(i)) then Target(g.width, pos, AroundDir(i)) else 0
  }

  /** Where nothing is in the way the slots hold the cells above, to the right, below and to the left, and
      then the four corners, clockwise from the upper right. */
  lemma SlotOrder(g: Grid, pos: nat)
    requires g.width > 0 && 0 < X(pos, g.width) < g.width - 1
    requires Free(g, pos - g.width) && Free(g, pos + 1) && Free(g, pos + g.width) && Free(g, pos - 1)
    requires Free(g, pos - g.width + 1) && Free(g, pos + g.width + 1)
    requires Free(g, pos + g.width - 1) && Free(g, pos - g.width - 1)
    ensures Around(g, pos, 0) == pos - g.width && Around(g, pos, 1) == pos + 1
    ensures Around(g, pos, 2) == pos + g.width && Around(g, pos, 3) == pos - 1
    ensures Around(g, pos, 4) == pos - g.width + 1 && Around(g, pos, 5) == pos + g.width + 1
    ensures Around(g, pos, 6) == pos + g.width - 1 && Around(g, pos, 7) == pos - g.width - 1
  {
    Compass(g.width, pos);
    hide X, Free, Target;
  }

  lemma AroundInMap(g: Grid, pos: nat)
    requires g.width > 0 && |g.cells| > 0
    ensures forall i: nat :: i < 8 ==> Around(g, pos, i) < |g.cells|
  {
  }

  /** A labelled cell other than the source always has a lower neighbour among its own Around cells,
      so each backtracking step goes strictly down. */
  lemma LowerAround(g: Grid, s: nat, lab: seq<Label>, bound: nat, v: nat)
    requires g.width > 0 && Sound(g, s, lab, bound) && s > 0 && Labelled(lab, v) && v != s
    ensures exists i: nat :: i < 8 && 0 < Around(g, v, i) < |lab| && lab[Around(g, v, i)] < lab[v]
  {
    assert CellSound(g, s, lab, v, bound);
    var u: nat :| u < |lab| && Edge(g, u, v) && lab[u] < lab[v] && (u == s || Free(g, u));
    EdgeSymmetric(g, u, v);
    var d: Dir :| CanStep(g, v, d) && u == Target(g.width, v, d);
    assert Around(g, v, AroundIndex(d)) == u;
  }

  /** Stepping back over an Around cell is a legal step forward. */
  lemma AroundEdge(g: Grid, v: nat, i: nat)
    requires g.width > 0 && Free(g, v) && i < 8 && Around(g, v, i) > 0
    ensures Around(g, v, i) < |g.cells| && Edge(g, Around(g, v, i), v) && Free(g, Around(g, v, i))
  {
    assert Edge(g, v, Around(g, v, i));
    EdgeSymmetric(g, v, Around(g, v, i));
  }

  // ---------- one turn of the loop ----------

  /** The smallest label seen by the scan, and the slot it was seen in. */
  datatype Scan = Scan(dist: int, slot: nat)

  /** The scan over the first n slots; the slot variable keeps its old value while nothing is below FAR. */
  function Scanned(lab: seq<Label>, slots: seq<nat>, n: nat, slot0: nat): Scan
    requires n <= |slots| && forall i :: 0 <= i < |slots| ==> slots[i] < |lab|
  {
    if n == 0 then Scan(FAR, slot0)
    else
      var before := Scanned(lab, slots, n - 1, slot0);
      if slots[n - 1] != 0 && lab[slots[n - 1]] < before.dist then Scan(lab[slots[n - 1]], n - 1) else before
  }

  /** What GetAround leaves in its array. From a number that is no cell of the map nothing is known but
      that every slot is 0 or a cell. */
  ghost predicate Slots(g: Grid, pos: int, slots: seq<nat>)
    requires g.width > 0
  {
    && |slots| == 8 && (forall i :: 0 <= i < 8 ==> slots[i] < |g.cells|)
    && (0 <= pos < |g.cells| ==> forall i: nat :: i < 8 ==> slots[i] == Around(g, pos, i))
  }

  /** The variables of the loop. */
  datatype Back = Back(pos: int, slot: nat, dist: int)

  /** One turn of the loop. A slot number that was never set and is past the array reads an unknown cell number. */
  ghost predicate BackStep(g: Grid, lab: seq<Label>, a: Back, b: Back)
    requires g.width > 0 && |lab| == |g.cells|
  {
    exists slots: seq<nat> :: Slots(g, a.pos, slots)
                              && Scan(b.dist, b.slot) == Scanned(lab, slots, 8, a.slot)
                              && (b.slot < 8 ==> b.pos == slots[b.slot])
  }

  /** n turns of the loop lead from a to b. */
  ghost predicate BackRun(g: Grid, lab: seq<Label>, a: Back, n: nat, b: Back)
    requires g.width > 0 && |lab| == |g.cells|
    decreases n
  {
    if n == 0 then a == b
    else a.dist > 0 && exists m: Back :: BackStep(g, lab, a, m) && BackRun(g, lab, m, n - 1, b)
  }

  /** The loop can be left. */
  ghost predicate Ends(g: Grid, lab: seq<Label>, a: Back)
    requires g.width > 0 && |lab| == |g.cells|
  {
    exists n: nat, b: Back :: BackRun(g, lab, a, n, b) && b.dist == 0
  }

  /** The loop ends in fewer than k turns. */
  ghost predicate EndsWithin(g: Grid, lab: seq<Label>, a: Back, k: nat)
    requires g.width > 0 && |lab| == |g.cells|
  {
    exists n: nat, b: Back :: n < k && BackRun(g, lab, a, n, b) && b.dist == 0
  }

  lemma NoTurn(g: Grid, lab: seq<Label>, a: Back)
    requires g.width > 0 && |lab| == |g.cells|
    ensures BackRun(g, lab, a, 0, a)
  {
  }

  lemma OneTurn(g: Grid, lab: seq<Label>, slots: seq<nat>, a: Back, b: Back)
    requires g.width > 0 && |lab| == |g.cells| && Slots(g, a.pos, slots)
    requires Scan(b.dist, b.slot) == Scanned(lab, slots, 8, a.slot) && (b.slot < 8 ==> b.pos == slots[b.slot])
    ensures BackStep(g, lab, a, b)
  {
  }

  lemma {:induction false} RunAppend(g: Grid, lab: seq<Label>, a: Back, n: nat, m: Back, b: Back)
    requires g.width > 0 && |lab| == |g.cells|
    requires BackRun(g, lab, a, n, m) && m.dist > 0 && BackStep(g, lab, m, b)
    ensures BackRun(g, lab, a, n + 1, b)
    decreases n
  {
    hide BackStep;
    if n == 0 {
      assert BackRun(g, lab, b, 0, b);
    } else {
      var c: Back :| BackStep(g, lab, a, c) && BackRun(g, lab, c, n - 1, m);
      RunAppend(g, lab, c, n - 1, m, b);
    }
  }

  /** The scan finds the smallest label of the cells listed, if one is below FAR. */
  lemma {:induction false} ScanFinds(lab: seq<Label>, slots: seq<nat>, n: nat, slot0: nat)
    requires n <= |slots| && forall i :: 0 <= i < |slots| ==> slots[i] < |lab|
    ensures var s := Scanned(lab, slots, n, slot0);
            && s.dist <= FAR
            && (forall i :: 0 <= i < n && slots[i] != 0 ==> s.dist <= lab[slots[i]])
            && (if s.dist == FAR then s.slot == slot0
                else s.slot < n && slots[s.slot] != 0 && lab[slots[s.slot]] == s.dist)
    decreases n
  {
    if n > 0 {
      ScanFinds(lab, slots, n - 1, slot0);
    }
  }

  /** What GetAround lists around a cell of the map. */
  function SlotsOf(g: Grid, pos: nat): seq<nat>
    requires g.width > 0
  {
    seq(8, i requires 0 <= i < 8 => Around(g, pos, i))
  }

  lemma SlotsOfCell(g: Grid, pos: nat)
    requires g.width > 0 && |g.cells| > 0
    ensures Slots(g, pos, SlotsOf(g, pos))
  {
    hide Around;
    AroundInMap(g, pos);
  }

  // ---------- from a source that can be entered ----------

  /** Where Sound labels lead down, a turn moves to a labelled cell with a smaller label. */
  lemma StepDown(g: Grid, s: nat, lab: seq<Label>, bound: nat, a: Back) returns (b: Back)
    requires g.width > 0 && Sound(g, s, lab, bound) && s > 0 && bound < FAR
    requires a.pos >= 0 && Labelled(lab, a.pos) && a.pos != s
    ensures BackStep(g, lab, a, b) && b.pos >= 0 && Labelled(lab, b.pos)
    ensures lab[b.pos] == b.dist < lab[a.pos]
  {
    hide Around;
    var slots := SlotsOf(g, a.pos);
    SlotsOfCell(g, a.pos);
    LowerAround(g, s, lab, bound, a.pos);
    assert CellSound(g, s, lab, a.pos, bound);
    ScanFinds(lab, slots, 8, a.slot);
    var scan := Scanned(lab, slots, 8, a.slot);
    var i: nat :| i < 8 && 0 < Around(g, a.pos, i) < |lab| && lab[Around(g, a.pos, i)] < lab[a.pos];
    assert slots[i] == Around(g, a.pos, i);
    b := Back(slots[scan.slot], scan.slot, scan.dist);
  }

  lemma {:induction false} EndsDown(g: Grid, s: nat, lab: seq<Label>, bound: nat, a: Back)
    requires g.width > 0 && Sound(g, s, lab, bound) && s > 0 && bound < FAR && a.dist > 0
    requires a.pos >= 0 && Labelled(lab, a.pos) && a.pos != s
    ensures Ends(g, lab, a)
    decreases lab[a.pos]
  {
    hide BackStep, Sound;
    SourceIsZero(g, s, lab, bound);
    var b := StepDown(g, s, lab, bound, a);
    if b.dist == 0 {
      assert BackRun(g, lab, b, 0, b);
      assert BackRun(g, lab, a, 1, b);
    } else {
      EndsDown(g, s, lab, bound, b);
      var n: nat, c: Back :| BackRun(g, lab, b, n, c) && c.dist == 0;
      assert BackRun(g, lab, a, n + 1, c);
    }
  }

  /** Such a turn can go one way only. */
  lemma StepKnown(g: Grid, s: nat, lab: seq<Label>, bound: nat, a: Back, b: Back)
    requires g.width > 0 && Sound(g, s, lab, bound) && s > 0 && bound < FAR
    requires a.pos >= 0 && Labelled(lab, a.pos) && a.pos != s && BackStep(g, lab, a, b)
    ensures Slots(g, a.pos, SlotsOf(g, a.pos))
    ensures var slots := SlotsOf(g, a.pos);
            var scan := Scanned(lab, slots, 8, a.slot);
            scan.slot < 8 && b == Back(slots[scan.slot], scan.slot, scan.dist)
    ensures b.pos >= 0 && Labelled(lab, b.pos) && lab[b.pos] == b.dist
  {
    hide Around;
    var slots: seq<nat> :| Slots(g, a.pos, slots) && Scan(b.dist, b.slot) == Scanned(lab, slots, 8, a.slot)
                           && (b.slot < 8 ==> b.pos == slots[b.slot]);
    SlotsOfCell(g, a.pos);
    assert slots == SlotsOf(g, a.pos);
    LowerAround(g, s, lab, bound, a.pos);
    assert CellSound(g, s, lab, a.pos, bound);
    ScanFinds(lab, slots, 8, a.slot);
    var i: nat :| i < 8 && 0 < Around(g, a.pos, i) < |lab| && lab[Around(g, a.pos, i)] < lab[a.pos];
    assert slots[i] == Around(g, a.pos, i);
  }

  /** So the loop takes as many turns as it can: no run is longer than one that has ended. */
  lemma {:induction false} EndIsLast(g: Grid, s: nat, lab: seq<Label>, bound: nat, a: Back, n: nat, b: Back, m: nat, c: Back)
    requires g.width > 0 && Sound(g, s, lab, bound) && s > 0 && bound < FAR
    requires a.dist > 0 ==> a.pos >= 0 && Labelled(lab, a.pos) && a.pos != s
    requires BackRun(g, lab, a, n, b) && b.dist == 0 && BackRun(g, lab, a, m, c)
    ensures m <= n
    decreases n
  {
    hide BackStep, Sound;
    SourceIsZero(g, s, lab, bound);
    if n > 0 && m > 0 {
      var x: Back :| BackStep(g, lab, a, x) && BackRun(g, lab, x, n - 1, b);
      var y: Back :| BackStep(g, lab, a, y) && BackRun(g, lab, y, m - 1, c);
      StepKnown(g, s, lab, bound, a, x);
      StepKnown(g, s, lab, bound, a, y);
      assert x == y;
      EndIsLast(g, s, lab, bound, x, n - 1, b, m - 1, c);
    }
  }

  /** A loop that makes k turns does not end in fewer. */
  lemma TooManyTurns(g: Grid, s: nat, lab: seq<Label>, bound: nat, a: Back, k: nat, c: Back)
    requires g.width > 0 && Sound(g, s, lab, bound) && s > 0 && bound < FAR
    requires a.pos >= 0 && Labelled(lab, a.pos) && a.pos != s && BackRun(g, lab, a, k, c)
    ensures !EndsWithin(g, lab, a, k)
  {
    hide BackRun, Sound;
    SourceIsZero(g, s, lab, bound);
    forall n: nat, b: Back | n < k && BackRun(g, lab, a, n, b)
      ensures b.dist != 0
    {
      if b.dist == 0 {
        EndIsLast(g, s, lab, bound, a, n, b, k, c);
      }
    }
  }

  lemma SourceIsZero(g: Grid, s: nat, lab: seq<Label>, bound: nat)
    requires g.width > 0 && Sound(g, s, lab, bound)
    ensures |lab| == |g.cells| && s < |lab| && lab[s] == 0
  {
  }

  // ---------- from cell 0 ----------

  /** GetAround never lists cell 0, so the scan sees no label 0. */
  lemma StepStaysPositive(g: Grid, lab: seq<Label>, a: Back, b: Back)
    requires g.width > 0 && |lab| == |g.cells| && BackStep(g, lab, a, b)
    requires forall v: nat :: 0 < v < |lab| ==> lab[v] > 0
    ensures b.dist > 0
  {
    var slots: seq<nat> :| Slots(g, a.pos, slots) && Scan(b.dist, b.slot) == Scanned(lab, slots, 8, a.slot)
                           && (b.slot < 8 ==> b.pos == slots[b.slot]);
    ScanFinds(lab, slots, 8, a.slot);
  }

  /** After any number of turns the smallest label seen is still positive. */
  lemma {:induction false} RunStaysPositive(g: Grid, lab: seq<Label>, a: Back, n: nat, b: Back)
    requires g.width > 0 && |lab| == |g.cells| && a.dist > 0 && BackRun(g, lab, a, n, b)
    requires forall v: nat :: 0 < v < |lab| ==> lab[v] > 0
    ensures b.dist > 0
    decreases n
  {
    hide BackStep;
    if n > 0 {
      var m: Back :| BackStep(g, lab, a, m) && BackRun(g, lab, m, n - 1, b);
      StepStaysPositive(g, lab, a, m);
      RunStaysPositive(g, lab, m, n - 1, b);
    }
  }

  /** And there always is a next turn: the loop runs on for any number of turns. */
  lemma {:induction false} RunsOn(g: Grid, lab: seq<Label>, a: Back, n: nat)
    requires g.width > 0 && |lab| == |g.cells| && |lab| > 0 && a.dist > 0
    requires forall v: nat :: 0 < v < |lab| ==> lab[v] > 0
    ensures exists b: Back :: BackRun(g, lab, a, n, b) && b.dist > 0
    decreases n
  {
    hide BackStep;
    if n == 0 {
      assert BackRun(g, lab, a, 0, a);
    } else {
      var m := NextTurn(g, lab, a);
      StepStaysPositive(g, lab, a, m);
      RunsOn(g, lab, m, n - 1);
      var b: Back :| BackRun(g, lab, m, n - 1, b) && b.dist > 0;
      assert BackRun(g, lab, a, n, b);
    }
  }

  lemma NextTurn(g: Grid, lab: seq<Label>, a: Back) returns (b: Back)
    requires g.width > 0 && |lab| == |g.cells| && |lab| > 0
    ensures BackStep(g, lab, a, b)
  {
    var slots: seq<nat> := if 0 <= a.pos < |g.cells| then SlotsOf(g, a.pos) else seq(8, _ => 0);
    if 0 <= a.pos < |g.cells| {
      SlotsOfCell(g, a.pos);
    }
    assert Slots(g, a.pos, slots);
    var scan := Scanned(lab, slots, 8, a.slot);
    b := Back(if scan.slot < 8 then slots[scan.slot] else 0, scan.slot, scan.dist);
  }

  /** Started from a labelled cell other than the source, whatever the slot variable held before, the
      loop can be left exactly when the source is not cell 0. */
  lemma BacktrackingEnds(g: Grid, s: nat, lab: seq<Label>, bound: nat, pos: nat, slot: nat)
    requires g.width > 0 && Sound(g, s, lab, bound) && bound < FAR
    requires Labelled(lab, pos) && pos != s
    ensures Ends(g, lab, Back(pos, slot, FAR)) <==> s > 0
  {
    hide BackRun, BackStep;
    var a := Back(pos, slot, FAR);
    if s > 0 {
      EndsDown(g, s, lab, bound, a);
    } else if Ends(g, lab, a) {
      OnlySourceIsZero(g, s, lab, bound);
      var n: nat, b: Back :| BackRun(g, lab, a, n, b) && b.dist == 0;
      RunStaysPositive(g, lab, a, n, b);
    }
  }
}
