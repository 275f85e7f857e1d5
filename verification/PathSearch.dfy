/** OBPathSearch of dev/algorithmic/src/ob_path_search.cpp: the best-first, label-correcting search,
    the steepest-descent backtrack and the conversion of the found cells to directions.

    MapData, MapSearch, Queue, PathPos and PathDir are fields here; the offset table that GetAround
    keeps in a static is rebuilt from the one width the object is made with. */
module PathSearch {
  import opened PathGrid
  import opened PathQueue
  import opened PathLabels
  import opened PathBacktrack
  import opened PathOrder

  const PATH_LEN := 1024

  /** The table entry GetDir picks for a move from `from` to `to`; -1 marks impossible moves. */
  function DirTable(i: int): int {
    if i == 0 then 7 else if i == 1 then 0 else if i == 2 then 1
    else if i == 4 then 6 else if i == 6 then 2
    else if i == 8 then 5 else if i == 9 then 4 else if i == 10 then 3
    else -1
  }

  function DirIndex(from: nat, to: nat, w: nat): int
    requires w > 0
  {
    (X(to, w) - X(from, w) + 1) + (Y(to, w) - Y(from, w) + 1) * 4
  }

  /** GetDir recovers the direction of every legal step, so it never reads a -1 or leaves its table. */
  lemma GetDirInverts(g: Grid, p: nat, d: Dir)
    requires g.width > 0 && CanStep(g, p, d)
    ensures 0 <= DirIndex(p, Target(g.width, p, d), g.width) < 11
    ensures DirTable(DirIndex(p, Target(g.width, p, d), g.width)) == d
  {
    StepMovesCoordinates(g, p, d);
  }

  lemma NeighbourDistance(g: Grid, p: nat, d: Dir, x2: int, y2: int)
    requires g.width > 0 && CanStep(g, p, d)
    ensures DistanceTo(Target(g.width, p, d), g.width, x2, y2) <= DistanceTo(p, g.width, x2, y2) + 14
  {
    hide X, Y, Target, CanStep;
    StepMovesCoordinates(g, p, d);
  }

  /** nearPos is the labelled cell closest to (x2, y2) other than the source, nearDist its distance. */
  ghost predicate Nearest(lab: seq<Label>, s: nat, w: nat, x2: int, y2: int, nearPos: nat, nearDist: nat)
    requires w > 0
  {
    && (forall v: nat :: Labelled(lab, v) && v != s ==> nearDist <= DistanceTo(v, w, x2, y2))
    && (nearDist < FAR ==> Labelled(lab, nearPos) && nearPos != s && nearDist == DistanceTo(nearPos, w, x2, y2))
    && nearDist <= FAR
  }

  /** The cells backtracking has collected so far: from the end cell down a chain of legal steps. */
  ghost predicate Trail(g: Grid, cells: seq<nat>)
    requires g.width > 0
  {
    forall i :: 0 <= i < |cells| - 1 ==> Edge(g, cells[i + 1], cells[i])
  }

  lemma RootInBag(a: seq<Node>, tail: nat)
    requires 0 < tail < |a|
    ensures a[1] in Bag(a, tail)
  {
    assert a[1] == a[1..tail + 1][0];
  }

  lemma EmptyBag(a: seq<Node>)
    requires 0 < |a|
    ensures Bag(a, 0) == multiset{}
  {
    assert a[1..1] == [];
  }

  // ---------- GetAround ----------

  /** The bounds and walkability test of one candidate index. */
  function Entered(g: Grid, j: int): nat {
    if Free(g, j) then j else 0
  }

  lemma EnteredTest(g: Grid, j: int)
    ensures j < 0 || j >= |g.cells| ==> Entered(g, j) == 0
    ensures 0 <= j < |g.cells| && 0 < g.cells[j] < BLOCKED ==> Entered(g, j) == j
    ensures 0 <= j < |g.cells| && !(0 < g.cells[j] < BLOCKED) ==> Entered(g, j) == 0
  {
  }

  /** The edge pass: a side neighbour is the bounds-checked cell unless it would change the row. */
  lemma SidesFromEdges(g: Grid, pos: nat)
    requires g.width >= 2
    ensures var w: int := g.width;
            && Around(g, pos, 0) == Entered(g, pos - w)
            && Around(g, pos, 1) == (if pos % w == w - 1 then 0 else Entered(g, pos + 1))
            && Around(g, pos, 2) == Entered(g, pos + w)
            && Around(g, pos, 3) == (if pos % w == 0 then 0 else Entered(g, pos - 1))
  {
  }

  lemma Corner4(g: Grid, pos: nat)
    requires g.width >= 2
    ensures var w: int := g.width;
            Around(g, pos, 4) == (if Around(g, pos, 0) == 0 || Around(g, pos, 1) == 0 then 0 else Entered(g, pos - (w - 1)))
  {
  }

  lemma Corner5(g: Grid, pos: nat)
    requires g.width >= 2
    ensures var w: int := g.width;
            Around(g, pos, 5) == (if Around(g, pos, 1) == 0 || Around(g, pos, 2) == 0 then 0 else Entered(g, pos + (w + 1)))
  {
  }

  lemma Corner6(g: Grid, pos: nat)
    requires g.width >= 2
    ensures var w: int := g.width;
            Around(g, pos, 6) == (if Around(g, pos, 2) == 0 || Around(g, pos, 3) == 0 then 0 else Entered(g, pos + (w - 1)))
  {
  }

  lemma Corner7(g: Grid, pos: nat)
    requires g.width >= 2
    ensures var w: int := g.width;
            Around(g, pos, 7) == (if Around(g, pos, 3) == 0 || Around(g, pos, 0) == 0 then 0 else Entered(g, pos - (w + 1)))
  {
  }

  /** The corner pass: a corner neighbour survives only when both its sides did. */
  lemma CornersFromSides(g: Grid, pos: nat, a: nat, b: nat, c: nat, d: nat)
    requires g.width >= 2
    requires a == Around(g, pos, 0) && b == Around(g, pos, 1) && c == Around(g, pos, 2) && d == Around(g, pos, 3)
    ensures var w: int := g.width;
            && Around(g, pos, 4) == (if a == 0 || b == 0 then 0 else Entered(g, pos - (w - 1)))
            && Around(g, pos, 5) == (if b == 0 || c == 0 then 0 else Entered(g, pos + (w + 1)))
            && Around(g, pos, 6) == (if c == 0 || d == 0 then 0 else Entered(g, pos + (w - 1)))
            && Around(g, pos, 7) == (if d == 0 || a == 0 then 0 else Entered(g, pos - (w + 1)))
  {
    hide Around, Entered;
    Corner4(g, pos);
    Corner5(g, pos);
    Corner6(g, pos);
    Corner7(g, pos);
  }

  // ---------- expanding one cell ----------

  /** What stays fixed while one cell is expanded, and the state before it. */
  datatype Expansion = Expansion(g: Grid, s: nat, target: nat, x2: int, y2: int, pos: nat,
                                 lab0: seq<Label>, bag0: multiset<Node>, count0: nat)

  ghost predicate RelaxedUpTo(g: Grid, lab: seq<Label>, pos: nat, n: nat)
    requires g.width > 0 && n <= 8
  {
    forall k: nat :: k < n && 0 < Around(g, pos, k) < |lab| && pos < |lab| ==>
      lab[Around(g, pos, k)] <= lab[pos] as int + 1
  }

  /** The state after looking at the first n neighbours. */
  ghost predicate Expanding(e: Expansion, lab: seq<Label>, bag: multiset<Node>,
                            count: nat, nearPos: nat, nearDist: nat, n: nat)
  {
    && e.g.width >= 2 && n <= 8
    && Sound(e.g, e.s, lab, count) && Frontier(e.g, lab, bag, e.pos) && Labelled(lab, e.pos)
    && Nearest(lab, e.s, e.g.width, e.x2, e.y2, nearPos, nearDist)
    && (if count == 0 then e.pos == e.s else nearDist < FAR)
    && RelaxedUpTo(e.g, lab, e.pos, n)
    && (Open(bag, e.s) ==> Open(e.bag0, e.s))
    && (Labelled(lab, e.target) ==> Open(bag, e.target))
    && (count == e.count0 ==> lab == e.lab0 && bag == e.bag0)
    && (count != e.count0 ==> exists d: Dir :: CanStep(e.g, e.pos, d))
  }

  /** A neighbour that is missing or not improvable changes nothing. */
  lemma SkipNeighbour(e: Expansion, lab: seq<Label>, bag: multiset<Node>,
                      count: nat, nearPos: nat, nearDist: nat, n: nat)
    requires Expanding(e, lab, bag, count, nearPos, nearDist, n) && n < 8
    requires 0 < Around(e.g, e.pos, n) < |lab| ==> lab[Around(e.g, e.pos, n)] <= lab[e.pos] as int + 1
    ensures Expanding(e, lab, bag, count, nearPos, nearDist, n + 1)
  {
  }

  lemma NearestAfter(lab: seq<Label>, s: nat, w: nat, x2: int, y2: int, nearPos: nat, nearDist: nat,
                     t: nat, l: Label)
    requires w > 0 && Nearest(lab, s, w, x2, y2, nearPos, nearDist)
    requires t < |lab| && t != s && l < lab[t]
    ensures var dist := DistanceTo(t, w, x2, y2);
            Nearest(lab[t := l], s, w, x2, y2,
                    if dist < nearDist then t else nearPos, if dist < nearDist then dist else nearDist)
  {
    assert forall v: nat :: Labelled(lab[t := l], v) ==> v == t || Labelled(lab, v);
    assert nearDist < FAR ==> Labelled(lab[t := l], nearPos);
    assert Labelled(lab[t := l], t);
  }

  lemma RelaxedAfter(g: Grid, lab: seq<Label>, pos: nat, n: nat)
    requires g.width > 0 && n < 8 && RelaxedUpTo(g, lab, pos, n) && Labelled(lab, pos)
    requires 0 < Around(g, pos, n) < |lab| && Around(g, pos, n) != pos
    requires lab[pos] as int + 1 < lab[Around(g, pos, n)]
    ensures RelaxedUpTo(g, lab[Around(g, pos, n) := lab[pos] + 1], pos, n + 1)
  {
  }

  /** Relaxing neighbour n: label it, queue it, and remember it if it is the nearest so far. */
  lemma RelaxNeighbour(e: Expansion, lab: seq<Label>, bag: multiset<Node>,
                       count: nat, nearPos: nat, nearDist: nat, n: nat, key: nat)
    requires Expanding(e, lab, bag, count, nearPos, nearDist, n) && n < 8 && count <= NO_LABEL - 2
    requires 0 < Around(e.g, e.pos, n) < |lab| && lab[Around(e.g, e.pos, n)] > lab[e.pos] as int + 1
    requires DistanceTo(e.s, e.g.width, e.x2, e.y2) < FAR - 14 && e.count0 <= count
    ensures lab[e.pos] + 1 < NO_LABEL
    ensures var t := Around(e.g, e.pos, n);
            var dist := DistanceTo(t, e.g.width, e.x2, e.y2);
            Expanding(e, lab[t := lab[e.pos] + 1], bag + multiset{Node(t, key)}, count + 1,
                      if dist < nearDist then t else nearPos, if dist < nearDist then dist else nearDist, n + 1)
  {
    hide Sound, Frontier, Nearest, RelaxedUpTo, Distance, Open, Free, Target;
    assert Labelled(lab[Around(e.g, e.pos, n) := lab[e.pos] + 1], e.target) ==>
             Labelled(lab, e.target) || e.target == Around(e.g, e.pos, n);
    var t := Around(e.g, e.pos, n);
    assert CanStep(e.g, e.pos, AroundDir(n));
    SoundFacts(e.g, e.s, lab, count, e.pos);
    assert t != e.pos && t != e.s;
    RelaxSound(e.g, e.s, lab, count, e.pos, AroundDir(n));
    RelaxFrontier(e.g, lab, bag, e.pos, AroundDir(n), key);
    RelaxedAfter(e.g, lab, e.pos, n);
    NearestAfter(lab, e.s, e.g.width, e.x2, e.y2, nearPos, nearDist, t, lab[e.pos] + 1);
    if count == 0 {
      NeighbourDistance(e.g, e.pos, AroundDir(n), e.x2, e.y2);
    }
    NewEntryOnly(bag, Node(t, key), e.s);
    OpenAfterPush(bag, Node(t, key), e.target);
    NewEntryOpen(bag, Node(t, key));
  }

  /** The same step in the search without its queue. */
  lemma RelaxTracked(e: Expansion, a: Sweep, lab: seq<Label>, bag: multiset<Node>,
                     count: nat, nearPos: nat, nearDist: nat, n: nat, key: int)
    requires Expanding(e, lab, bag, count, nearPos, nearDist, n) && n < 8
    requires Tracked(e.g, e.target, e.x2, e.y2, a, lab, bag, count, nearPos, nearDist, e.pos)
    requires 0 < Around(e.g, e.pos, n) < |lab| && lab[Around(e.g, e.pos, n)] > lab[e.pos] as int + 1
    requires key == lab[e.pos] + 1 + DistanceTo(Around(e.g, e.pos, n), e.g.width, e.x2, e.y2)
    ensures lab[e.pos] + 1 < NO_LABEL
    ensures var t := Around(e.g, e.pos, n);
            var dist := DistanceTo(t, e.g.width, e.x2, e.y2);
            Tracked(e.g, e.target, e.x2, e.y2, LookedAt(e.g, e.x2, e.y2, e.pos, n, a), lab[t := lab[e.pos] + 1],
                    bag + multiset{Node(t, key)}, count + 1,
                    if dist < nearDist then t else nearPos, if dist < nearDist then dist else nearDist, e.pos)
  {
    hide Around, DistanceTo, LookedAt, Keyed, Resting, Sound, Frontier, Nearest, RelaxedUpTo, Open;
    ImproveTracked(e.g, e.target, e.x2, e.y2, a, lab, bag, count, nearPos, nearDist, e.pos, n, key);
  }

  /** A neighbour that is missing or not improvable changes nothing there either. */
  lemma SkipTracked(g: Grid, t: nat, x2: int, y2: int, a: Sweep, lab: seq<Label>, bag: multiset<Node>,
                    count: nat, nearPos: nat, nearDist: nat, pos: nat, k: nat)
    requires g.width > 0 && k < 8 && Tracked(g, t, x2, y2, a, lab, bag, count, nearPos, nearDist, pos) && pos < |lab|
    requires 0 < Around(g, pos, k) < |lab| ==> lab[Around(g, pos, k)] <= lab[pos] as int + 1
    ensures LookedAt(g, x2, y2, pos, k, a) == a
  {
    hide Around, Keyed, Resting;
  }

  lemma LookedNone(g: Grid, x2: int, y2: int, pos: nat, a: Sweep)
    requires g.width > 0
    ensures Looked(g, x2, y2, pos, 0, a) == a
  {
  }

  lemma LookedOne(g: Grid, x2: int, y2: int, pos: nat, n: nat, a: Sweep)
    requires g.width > 0 && n < 8
    ensures Looked(g, x2, y2, pos, n + 1, a) == LookedAt(g, x2, y2, pos, n, Looked(g, x2, y2, pos, n, a))
  {
    hide LookedAt;
  }

  lemma ExpandedSettles(e: Expansion, lab: seq<Label>, bag: multiset<Node>, count: nat, nearPos: nat, nearDist: nat)
    requires Expanding(e, lab, bag, count, nearPos, nearDist, 8)
    ensures e.g.width > 0 && |lab| == |e.g.cells| && Settled(e.g, lab, e.pos)
  {
    SettledAfterAll(e.g, lab, bag, e.pos);
  }

  /** The root entry has the least key in the queue. */
  lemma RootIsLeast(a: seq<Node>, tail: nat)
    requires 0 < tail < |a| && Heap(a[..tail + 1])
    ensures forall m :: m in Bag(a, tail) ==> a[1].distance <= m.distance
  {
    forall m | m in Bag(a, tail)
      ensures a[1].distance <= m.distance
    {
      var i :| 0 <= i < |a[1..tail + 1]| && a[1..tail + 1][i] == m;
      RootIsMinimum(a[..tail + 1], i + 1);
    }
  }

  lemma NewEntryOpen(bag: multiset<Node>, n: Node)
    ensures Open(bag + multiset{n}, n.pos)
  {
    assert n in bag + multiset{n};
  }

  lemma SoundFacts(g: Grid, s: nat, lab: seq<Label>, bound: nat, v: nat)
    requires g.width > 0 && Sound(g, s, lab, bound) && Labelled(lab, v)
    ensures |lab| == |g.cells| && s < |lab| && lab[s] == 0 && lab[v] <= bound
    ensures (v != s ==> lab[v] > 0) && (s > 0 || v != s ==> Free(g, v))
  {
    assert CellSound(g, s, lab, v, bound);
  }

  lemma NewEntryOnly(bag: multiset<Node>, n: Node, v: nat)
    requires n.pos != v
    ensures Open(bag + multiset{n}, v) ==> Open(bag, v)
  {
  }

  lemma SettledAfterAll(g: Grid, lab: seq<Label>, open: multiset<Node>, u: nat)
    requires g.width > 0 && Frontier(g, lab, open, u) && Labelled(lab, u) && RelaxedUpTo(g, lab, u, 8)
    ensures Settled(g, lab, u) && Frontier(g, lab, open, -1)
  {
    forall d: Dir | CanStep(g, u, d) && Target(g.width, u, d) < |lab|
      ensures lab[Target(g.width, u, d)] <= lab[u] as int + 1
    {
      assert Around(g, u, AroundIndex(d)) == Target(g.width, u, d);
    }
  }

  // ---------- the exploration loop ----------

  ghost predicate Isolated(g: Grid, s: nat)
    requires g.width > 0
  {
    forall d: Dir :: !CanStep(g, s, d)
  }

  /** The state at the head of the exploration loop. */
  ghost predicate Exploring(g: Grid, s: nat, target: nat, x2: int, y2: int, lab: seq<Label>,
                            bag: multiset<Node>, count: nat, nearPos: nat, nearDist: nat)
  {
    && g.width >= 2
    && Sound(g, s, lab, count) && Frontier(g, lab, bag, -1)
    && Nearest(lab, s, g.width, x2, y2, nearPos, nearDist)
    && (Labelled(lab, target) ==> Open(bag, target))
    && if count == 0
       then (exists key: nat :: bag == multiset{Node(s, key)}) && (forall v: nat :: Labelled(lab, v) ==> v == s)
       else nearDist < FAR && !Open(bag, s) && !Isolated(g, s)
  }

  /** How the exploration loop may end: at pos, with these labels, for this reason. */
  ghost predicate Explored(g: Grid, s: nat, target: nat, x2: int, y2: int, lab: seq<Label>,
                           count: nat, limit: nat, stop: Stop, pos: nat)
  {
    && g.width >= 2
    && Sound(g, s, lab, count) && Labelled(lab, pos)
    && (pos == s <==> Isolated(g, s))
    && match stop
       case NotSearched => false
       case Found => pos == target
       case Exhausted => !Labelled(lab, target) && Frontier(g, lab, multiset{}, -1)
       case TooDeep => count > limit && pos != s
                       && forall v: nat :: Labelled(lab, v) && v != s ==>
                            DistanceTo(pos, g.width, x2, y2) <= DistanceTo(v, g.width, x2, y2)
  }

  lemma StartExploring(g: Grid, s: nat, target: nat, x2: int, y2: int, lab: seq<Label>, key: nat)
    requires g.width >= 2 && s < |g.cells| == |lab| && (s > 0 ==> Free(g, s)) && s != target
    requires lab[s] == 0 && forall v: nat :: v < |lab| && v != s ==> lab[v] == NO_LABEL
    ensures Exploring(g, s, target, x2, y2, lab, multiset{Node(s, key)}, 0, 0, FAR)
  {
    assert Node(s, key) in multiset{Node(s, key)};
    assert ReachIn(g, s, s, 0);
    forall v: nat {:trigger CellSound(g, s, lab, v, 0)} | v < |lab|
      ensures CellSound(g, s, lab, v, 0)
    {
    }
  }

  /** What is known right after the pop: the source comes first and never again. */
  ghost predicate Popped(e: Expansion) {
    && e.g.width >= 2
    && if e.count0 == 0
       then e.pos == e.s && e.bag0 == multiset{} && forall v: nat :: Labelled(e.lab0, v) ==> v == e.s
       else !Open(e.bag0, e.s) && !Isolated(e.g, e.s)
  }

  /** Popping an entry other than the target starts an expansion. */
  lemma StartExpanding(e: Expansion, lab: seq<Label>, bag: multiset<Node>, n: Node,
                       count: nat, nearPos: nat, nearDist: nat)
    requires Exploring(e.g, e.s, e.target, e.x2, e.y2, lab, bag, count, nearPos, nearDist)
    requires n in bag && n.pos == e.pos && n.pos != e.target
    requires e.lab0 == lab && e.bag0 == bag - multiset{n} && e.count0 == count
    ensures Expanding(e, lab, bag - multiset{n}, count, nearPos, nearDist, 0) && e.pos < |lab|
    ensures Popped(e) && (count > 0 ==> n.pos != e.s)
  {
    PopFrontier(e.g, lab, bag, n);
    OpenAfterPop(bag, n, e.target);
    assert Open(bag - multiset{n}, e.s) ==> Open(bag, e.s);
  }

  /** A finished expansion is again a state at the loop head, unless the source has no way out. */
  lemma FinishExpanding(e: Expansion, lab: seq<Label>, bag: multiset<Node>,
                        count: nat, nearPos: nat, nearDist: nat)
    requires Expanding(e, lab, bag, count, nearPos, nearDist, 8) && e.count0 <= count
    requires Popped(e)
    ensures count > 0 ==> Exploring(e.g, e.s, e.target, e.x2, e.y2, lab, bag, count, nearPos, nearDist)
    ensures count == 0 ==> bag == multiset{} && Isolated(e.g, e.s)
    ensures Frontier(e.g, lab, bag, -1)
  {
    SettledAfterAll(e.g, lab, bag, e.pos);
    if count == 0 {
      assert lab == e.lab0;
      assert CellSound(e.g, e.s, lab, e.s, count);
      NothingNew(e.g, e.s, lab);
    }
  }

  lemma SettledNext(g: Grid, lab: seq<Label>, u: nat, d: Dir)
    requires g.width > 0 && |lab| == |g.cells| && Settled(g, lab, u) && Labelled(lab, u) && lab[u] < NO_LABEL - 1
    requires CanStep(g, u, d)
    ensures Target(g.width, u, d) >= 0 && Target(g.width, u, d) != u && Labelled(lab, Target(g.width, u, d))
  {
  }

  /** A settled source that labelled nothing else has no way out. */
  lemma NothingNew(g: Grid, s: nat, lab: seq<Label>)
    requires g.width > 0 && |lab| == |g.cells| && Settled(g, lab, s) && Labelled(lab, s) && lab[s] < NO_LABEL - 1
    requires forall v: nat :: Labelled(lab, v) ==> v == s
    ensures Isolated(g, s)
  {
    hide CanStep, Target, Settled;
    forall d: Dir
      ensures !CanStep(g, s, d)
    {
      if CanStep(g, s, d) {
        SettledNext(g, lab, s, d);
      }
    }
  }

  lemma EndFound(g: Grid, s: nat, target: nat, x2: int, y2: int, lab: seq<Label>, bag: multiset<Node>, n: Node,
                 count: nat, nearPos: nat, nearDist: nat, limit: nat)
    requires Exploring(g, s, target, x2, y2, lab, bag, count, nearPos, nearDist)
    requires n in bag && n.pos == target && s != target
    ensures Explored(g, s, target, x2, y2, lab, count, limit, Found, target)
  {
  }

  lemma EndTooDeep(g: Grid, s: nat, target: nat, x2: int, y2: int, lab: seq<Label>, bag: multiset<Node>,
                   count: nat, nearPos: nat, nearDist: nat, limit: nat)
    requires Exploring(g, s, target, x2, y2, lab, bag, count, nearPos, nearDist) && count > limit
    ensures Explored(g, s, target, x2, y2, lab, count, limit, TooDeep, nearPos)
  {
  }

  lemma EndExhausted(e: Expansion, lab: seq<Label>, bag: multiset<Node>,
                     count: nat, nearPos: nat, nearDist: nat, limit: nat)
    requires Expanding(e, lab, bag, count, nearPos, nearDist, 8) && bag == multiset{}
    requires if count == 0 then e.pos == e.s && Isolated(e.g, e.s)
             else Exploring(e.g, e.s, e.target, e.x2, e.y2, lab, bag, count, nearPos, nearDist)
    requires count > 0 ==> e.pos != e.s
    requires count == 0 ==> Frontier(e.g, lab, bag, -1)
    ensures Explored(e.g, e.s, e.target, e.x2, e.y2, lab, count, limit, Exhausted, e.pos)
  {
  }

  // ---------- the same ends without the queue ----------

  lemma FoundRun(g: Grid, s: nat, t: nat, x2: int, y2: int, trace: seq<nat>, lab: seq<Label>, bag: multiset<Node>, n: Node,
                 count: nat, nearPos: nat, nearDist: nat, limit: nat)
    requires g.width > 0 && BestFirst(g, s, t, x2, y2, limit, trace) && count <= limit
    requires Tracked(g, t, x2, y2, Replay(g, s, x2, y2, trace), lab, bag, count, nearPos, nearDist, -1)
    requires n in bag && n.pos == t && forall m :: m in bag ==> n.distance <= m.distance
    ensures BestRun(g, s, t, x2, y2, limit, Found, lab, trace, t)
  {
    hide BestFirst, Best, Replay, Resting, Key;
    RootIsBest(g, x2, y2, Replay(g, s, x2, y2, trace), bag, n);
  }

  lemma TurnRun(g: Grid, s: nat, t: nat, x2: int, y2: int, trace: seq<nat>, lab: seq<Label>, bag: multiset<Node>, n: Node,
                count: nat, nearPos: nat, nearDist: nat, limit: nat)
    requires g.width > 0 && BestFirst(g, s, t, x2, y2, limit, trace) && count <= limit && |lab| == |g.cells|
    requires Tracked(g, t, x2, y2, Replay(g, s, x2, y2, trace), lab, bag, count, nearPos, nearDist, -1)
    requires n in bag && n.pos != t && forall m :: m in bag ==> n.distance <= m.distance
    ensures var a := Replay(g, s, x2, y2, trace);
            var b := a.(due := a.due - {n.pos});
            && Tracked(g, t, x2, y2, b, lab, bag - multiset{n}, count, nearPos, nearDist, n.pos)
            && BestFirst(g, s, t, x2, y2, limit, Traced(trace, a, n.pos))
            && Replay(g, s, x2, y2, Traced(trace, a, n.pos)) == Looked(g, x2, y2, n.pos, 8, b)
  {
    hide BestFirst, Replay, Keyed, Resting, Looked;
    var a := Replay(g, s, x2, y2, trace);
    TurnTraced(g, s, t, x2, y2, limit, trace, n.pos, bag, n);
    PopTracked(g, t, x2, y2, a, lab, bag, count, nearPos, nearDist, n);
  }

  lemma DeepRun(g: Grid, s: nat, t: nat, x2: int, y2: int, trace: seq<nat>, lab: seq<Label>, bag: multiset<Node>,
                count: nat, nearPos: nat, nearDist: nat, limit: nat)
    requires g.width > 0 && BestFirst(g, s, t, x2, y2, limit, trace) && count > limit
    requires Tracked(g, t, x2, y2, Replay(g, s, x2, y2, trace), lab, bag, count, nearPos, nearDist, -1)
    ensures BestRun(g, s, t, x2, y2, limit, TooDeep, lab, trace, nearPos)
  {
    hide BestFirst, Replay, Keyed, Resting;
  }

  lemma EmptyRun(g: Grid, s: nat, t: nat, x2: int, y2: int, trace: seq<nat>, lab: seq<Label>, bag: multiset<Node>,
                 count: nat, nearPos: nat, nearDist: nat, limit: nat, pos: nat)
    requires g.width > 0 && BestFirst(g, s, t, x2, y2, limit, trace) && count <= limit && bag == multiset{}
    requires Tracked(g, t, x2, y2, Replay(g, s, x2, y2, trace), lab, bag, count, nearPos, nearDist, -1)
    ensures BestRun(g, s, t, x2, y2, limit, Exhausted, lab, trace, pos)
  {
    hide BestFirst, Replay, Resting, Keyed;
    NothingDue(Replay(g, s, x2, y2, trace), g.width, x2, y2);
  }

  // ---------- backtracking ----------

  lemma TrailOne(g: Grid, p: nat)
    requires g.width > 0
    ensures Trail(g, [] + [p])
  {
  }

  lemma TrailExtends(g: Grid, cells: seq<nat>, u: nat)
    requires g.width > 0 && |cells| > 0 && Trail(g, cells) && Edge(g, u, cells[|cells| - 1])
    ensures Trail(g, cells + [u])
  {
    var c := cells + [u];
    forall i | 0 <= i < |c| - 1
      ensures Edge(g, c[i + 1], c[i])
    {
    }
  }

  // ---------- the whole search ----------

  /** XY_TO_POS */
  function Cell(w: nat, x: int, y: int): int {
    y * w + x
  }

  ghost predicate InMap(g: Grid, x: int, y: int) {
    0 <= x < g.width && 0 <= y && 0 <= Cell(g.width, x, y) < |g.cells|
  }

  /** The requests SearchInMap answers with 0 before searching: the source itself, or a blocked
      cell directly beside it. */
  ghost predicate Refused(g: Grid, x1: int, y1: int, x2: int, y2: int)
    requires InMap(g, x2, y2)
  {
    || (x1 == x2 && y1 == y2)
    || (g.cells[Cell(g.width, x2, y2)] == BLOCKED && Abs(x2 - x1) + Abs(y2 - y1) == 1)
  }

  /** The map during a search: the start cell counts as walkable. */
  function Opened(g: Grid, source: nat): Grid
    requires source < |g.cells|
  {
    g.(cells := g.cells[source := 1])
  }

  /** The labels after an exhausted search: exact shortest distances, and NO_LABEL exactly where
      nothing leads. */
  ghost predicate ExactLabels(g: Grid, s: nat, lab: seq<Label>)
    requires g.width > 0
  {
    |lab| == |g.cells| &&
    forall v: nat :: v < |lab| ==>
      && (lab[v] == NO_LABEL <==> !Reachable(g, s, v))
      && (lab[v] != NO_LABEL ==> Shortest(g, s, v, lab[v]))
  }

  lemma ExhaustedLabels(g: Grid, s: nat, lab: seq<Label>, bound: nat)
    requires g.width > 0 && Sound(g, s, lab, bound) && bound < NO_LABEL - 1
    requires Frontier(g, lab, multiset{}, -1)
    ensures ExactLabels(g, s, lab)
  {
    forall v: nat {:trigger Reachable(g, s, v)} | v < |lab|
      ensures lab[v] == NO_LABEL <==> !Reachable(g, s, v)
      ensures lab[v] != NO_LABEL ==> Shortest(g, s, v, lab[v])
    {
      ExhaustedIsExact(g, s, lab, bound, v);
    }
  }

  /** Everything SearchInMap promises about its result, for source cell s and target cell t. */
  ghost predicate Answer(g: Grid, s: nat, t: nat, x2: int, y2: int, stop: Stop, lab: seq<Label>,
                         dirs: seq<Dir>, end: nat)
    requires g.width > 0
  {
    && Walkable(g, s, dirs) && WalkEnd(g, s, dirs) == end
    && match stop
       case NotSearched => false
       case Found => end == t
       case Exhausted => ExactLabels(g, s, lab) && !Reachable(g, s, t) && Shortest(g, s, end, |dirs|)
       case TooDeep => forall v: nat :: Labelled(lab, v) && v != s ==>
                         DistanceTo(end, g.width, x2, y2) <= DistanceTo(v, g.width, x2, y2)
  }

  lemma {:induction false} WalkReaches(g: Grid, s: nat, p: nat, n: nat, dirs: seq<Dir>)
    requires g.width > 0 && ReachIn(g, s, p, n) && Walkable(g, p, dirs)
    ensures ReachIn(g, s, WalkEnd(g, p, dirs), n + |dirs|)
    decreases |dirs|
  {
    if dirs != [] {
      var q: nat := Target(g.width, p, dirs[0]);
      assert Edge(g, p, q);
      assert ReachIn(g, s, q, n + 1);
      WalkReaches(g, s, q, n + 1, dirs[1..]);
    }
  }

  /** A walk no longer than the exact label of its end is a shortest one. */
  lemma WalkIsShortest(g: Grid, s: nat, lab: seq<Label>, dirs: seq<Dir>, end: nat)
    requires g.width > 0 && ExactLabels(g, s, lab) && Labelled(lab, end)
    requires Walkable(g, s, dirs) && WalkEnd(g, s, dirs) == end && |dirs| <= lab[end]
    ensures Shortest(g, s, end, |dirs|)
  {
    hide Reachable;
    assert ReachIn(g, s, s, 0);
    WalkReaches(g, s, s, 0, dirs);
    assert Shortest(g, s, end, lab[end]);
  }

  /** The end of the exploration and a walk to its cell make an answer. */
  lemma AnswerFromWalk(g: Grid, s: nat, t: nat, x2: int, y2: int, lab: seq<Label>, count: nat, limit: nat,
                       stop: Stop, pos: nat, dirs: seq<Dir>)
    requires Explored(g, s, t, x2, y2, lab, count, limit, stop, pos) && count < NO_LABEL - 1 && t < |lab|
    requires Walkable(g, s, dirs) && WalkEnd(g, s, dirs) == pos && pos < |lab| && |dirs| <= lab[pos]
    ensures Answer(g, s, t, x2, y2, stop, lab, dirs, pos)
  {
    hide Sound, Frontier, Reachable, Shortest;
    if stop == Exhausted {
      ExhaustedLabels(g, s, lab, count);
      hide ExactLabels;
      WalkIsShortest(g, s, lab, dirs, pos);
    }
  }

  lemma ExploredFacts(g: Grid, s: nat, t: nat, x2: int, y2: int, lab: seq<Label>, count: nat, limit: nat,
                      stop: Stop, pos: nat)
    requires Explored(g, s, t, x2, y2, lab, count, limit, stop, pos) && s != t && count < NO_LABEL - 1 && t < |lab|
    ensures g.width > 0 && Sound(g, s, lab, count) && Labelled(lab, pos) && lab[pos] <= count
    ensures pos == s <==> Isolated(g, s)
    ensures stop != NotSearched
    ensures pos == s ==> stop == Exhausted && ExactLabels(g, s, lab) && !Reachable(g, s, t)
  {
    SoundFacts(g, s, lab, count, pos);
    if stop == Exhausted {
      ExhaustedLabels(g, s, lab, count);
    }
  }

  /** The search ends at the target exactly when it has labelled it. */
  lemma EndIsTarget(g: Grid, s: nat, t: nat, x2: int, y2: int, lab: seq<Label>, count: nat, limit: nat,
                    stop: Stop, pos: nat)
    requires Explored(g, s, t, x2, y2, lab, count, limit, stop, pos)
    requires s != t && X(t, g.width) == x2 && Y(t, g.width) == y2
    ensures pos == t <==> Labelled(lab, t)
  {
    hide Sound, Frontier, Isolated;
    if stop == TooDeep && Labelled(lab, t) {
      assert DistanceTo(t, g.width, x2, y2) == 0;
      assert DistanceTo(pos, g.width, x2, y2) == 0;
      assert X(pos, g.width) == x2 && Y(pos, g.width) == y2;
      assert pos == pos / g.width * g.width + pos % g.width;
      assert t == t / g.width * g.width + t % g.width;
    }
  }

  /** After a search from cell 0 that found anything, backtracking goes on for any number of turns. */
  lemma NeverReturnsFromZero(g: Grid, t: nat, x2: int, y2: int, lab: seq<Label>, count: nat, limit: nat,
                             stop: Stop, pos: nat, slot: nat, n: nat)
    requires Explored(g, 0, t, x2, y2, lab, count, limit, stop, pos) && pos != 0
    ensures |lab| == |g.cells|
    ensures exists b: Back :: BackRun(g, lab, Back(pos, slot, FAR), n, b) && b.dist > 0
    ensures forall b: Back :: BackRun(g, lab, Back(pos, slot, FAR), n, b) ==> b.dist > 0
  {
    hide BackRun, Frontier;
    var a := Back(pos, slot, FAR);
    OnlySourceIsZero(g, 0, lab, count);
    RunsOn(g, lab, a, n);
    forall b: Back | BackRun(g, lab, a, n, b)
      ensures b.dist > 0
    {
      RunStaysPositive(g, lab, a, n, b);
    }
  }

  /** One row of two walkable cells. */
  function TwoCells(): Grid {
    Grid([1, 1], 2)
  }

  lemma TwoCellsStep()
    ensures Opened(TwoCells(), 0) == TwoCells()
    ensures CanStep(TwoCells(), 0, 2) && Target(2, 0, 2) == 1
  {
    assert [1, 1][0 := 1] == [1, 1];
  }

  /** The search from the first cell to the second labels both and finds the second. */
  lemma TwoCellsFound()
    ensures Sound(TwoCells(), 0, [0, 1], 1) && !Isolated(TwoCells(), 0)
    ensures Explored(TwoCells(), 0, 1, 1, 0, [0, 1], 1, 20, Found, 1)
  {
    var g := TwoCells();
    var lab: seq<Label> := [0, 1];
    hide CanStep, Target;
    TwoCellsStep();
    assert Edge(g, 0, 1);
    assert ReachIn(g, 0, 0, 0) && ReachIn(g, 0, 1, 1);
    assert lab[0] < lab[1] && HasLowerNeighbour(g, 0, lab, 1);
    assert CellSound(g, 0, lab, 0, 1) && CellSound(g, 0, lab, 1, 1);
  }

  /** A request that never comes back: it is neither refused nor isolated, the search ends as told,
      and the backtracking from there cannot be left. */
  ghost predicate Stuck(g: Grid, x1: int, y1: int, x2: int, y2: int,
                        lab: seq<Label>, count: nat, stop: Stop, pos: nat, slot: nat)
  {
    && UnitCost(g) && g.width >= 2 && InMap(g, x1, y1) && InMap(g, x2, y2) && !Refused(g, x1, y1, x2, y2)
    && var s, t, open := Cell(g.width, x1, y1), Cell(g.width, x2, y2), Opened(g, Cell(g.width, x1, y1));
       && !Isolated(open, s) && |lab| == |open.cells|
       && Explored(open, s, t, x2, y2, lab, count, 2 * Distance(x1, y1, x2, y2), stop, pos)
       && !Ends(open, lab, Back(pos, slot, FAR))
  }

  lemma MeetsRequest(g: Grid)
    requires g == TwoCells()
    ensures UnitCost(g) && InMap(g, 0, 0) && InMap(g, 1, 0) && !Refused(g, 0, 0, 1, 0)
    ensures Cell(2, 0, 0) == 0 && Cell(2, 1, 0) == 1 && Distance(0, 0, 1, 0) == 10
  {
  }

  /** The smallest such request: from the first of two cells to the second. The search finds its target
      at once. */
  lemma ZeroStartExample(slot: nat)
    ensures Stuck(TwoCells(), 0, 0, 1, 0, [0, 1], 1, Found, 1, slot)
  {
    hide Ends, Sound, Isolated, Explored, Refused, InMap, Cell, Distance, Opened, UnitCost;
    TwoCellsStep();
    TwoCellsFound();
    MeetsRequest(TwoCells());
    BacktrackingEnds(TwoCells(), 0, [0, 1], 1, 1, slot);
  }

  lemma OpenedUnitCost(g: Grid, s: nat)
    requires s < |g.cells| && UnitCost(g)
    ensures UnitCost(Opened(g, s)) && (s > 0 ==> Free(Opened(g, s), s))
  {
  }

  lemma CellCoordinates(w: nat, x: int, y: int)
    requires 0 <= x < w && 0 <= y
    ensures 0 <= Cell(w, x, y) && X(Cell(w, x, y), w) == x && Y(Cell(w, x, y), w) == y
  {
    DivModUnique(y * w + x, w, y, x);
  }

  lemma TrailToWalk(g: Grid, s: nat, cells: seq<nat>, i: nat, dirs: seq<Dir>, d: int)
    requires g.width > 0 && Trail(g, cells) && i < |cells| - 1
    requires Walkable(g, s, dirs) && WalkEnd(g, s, dirs) == cells[i + 1]
    requires 0 <= DirIndex(cells[i + 1], cells[i], g.width) < 11 ==> d == DirTable(DirIndex(cells[i + 1], cells[i], g.width))
    ensures 0 <= DirIndex(cells[i + 1], cells[i], g.width) < 11 && 0 <= d < 8
    ensures Walkable(g, s, dirs + [d]) && WalkEnd(g, s, dirs + [d]) == cells[i]
  {
    var e: Dir :| CanStep(g, cells[i + 1], e) && cells[i] == Target(g.width, cells[i + 1], e);
    GetDirInverts(g, cells[i + 1], e);
    WalkAppend(g, s, dirs, e);
  }

  class Searcher {
    const mapData: array<int>
    const mapWidth: nat
    const mapSearch: array<Label>
    const queue: Queue
    const pathPos: array<nat>
    const pathDir: array<Dir>

    ghost predicate Valid()
      reads this, queue, queue.nodes
    {
      && mapWidth >= 2
      && mapSearch.Length == mapData.Length
      && pathPos.Length == PATH_LEN && pathDir.Length == PATH_LEN
      && queue.nodes.Length == MAX_QUEUE_LEN && queue.nodes[0].distance == 0
    }

    /** The map as the search sees it. */
    ghost function View(): Grid
      reads mapData
    {
      Grid(mapData[..], mapWidth)
    }

    constructor (cells: array<int>, width: nat, height: nat)
      requires width >= 2 && cells.Length == width * height
      ensures Valid() && mapData == cells && mapWidth == width
      ensures fresh(mapSearch) && fresh(queue) && fresh(queue.nodes) && fresh(pathPos) && fresh(pathDir)
    {
      mapData := cells;
      mapWidth := width;
      mapSearch := new Label[cells.Length];
      queue := new Queue();
      pathPos := new nat[PATH_LEN];
      pathDir := new Dir[PATH_LEN];
    }

    /** The first loop of GetAround: every offset of the table, bounds and walkability. */
    method ListCells(pos: nat, around: array<nat>)
      requires Valid() && around.Length == 8
      modifies around
      ensures var w: int, g := mapWidth, View();
              && around[0] == Entered(g, pos - w) && around[1] == Entered(g, pos + 1)
              && around[2] == Entered(g, pos + w) && around[3] == Entered(g, pos - 1)
              && around[4] == Entered(g, pos - (w - 1)) && around[5] == Entered(g, pos + (w + 1))
              && around[6] == Entered(g, pos + (w - 1)) && around[7] == Entered(g, pos - (w + 1))
    {
      hide Free, Entered;
      var w: int := mapWidth;
      var table: seq<int> := [-w, 1, w, -1, -(w - 1), w + 1, w - 1, -(w + 1)];
      ghost var g := View();
      var i := 0;
      while i < 8
        invariant 0 <= i <= 8
        invariant forall k: nat :: k < i ==> around[k] == Entered(g, pos + table[k])
      {
        var j := pos + table[i];
        if j < 0 || j >= mapData.Length {
          around[i] := 0;
        } else if mapData[j] > 0 && mapData[j] < BLOCKED {
          around[i] := j;
        } else {
          around[i] := 0;
        }
        EnteredTest(g, j);
        i := i + 1;
      }
    }

    method GetAround(pos: nat, around: array<nat>)
      requires Valid() && pos < mapData.Length && around.Length == 8
      modifies around
      ensures forall i: nat :: i < 8 ==> around[i] == Around(View(), pos, i)
    {
      hide Around, Free, Entered;
      var w: int := mapWidth;
      ghost var g := View();
      ListCells(pos, around);
      if w > 0 {
        if pos % w == w - 1 {
          around[1] := 0;
        } else if pos % w == 0 {
          around[3] := 0;
        }
      }
      SidesFromEdges(g, pos);
      CornersFromSides(g, pos, around[0], around[1], around[2], around[3]);
      ClearCorners(around);
    }

    /** The last lines of GetAround: no cutting past a closed side. */
    method ClearCorners(around: array<nat>)
      requires around.Length == 8
      modifies around
      ensures forall k :: 0 <= k < 4 ==> around[k] == old(around[k])
      ensures around[4] == if around[0] == 0 || around[1] == 0 then 0 else old(around[4])
      ensures around[5] == if around[1] == 0 || around[2] == 0 then 0 else old(around[5])
      ensures around[6] == if around[2] == 0 || around[3] == 0 then 0 else old(around[6])
      ensures around[7] == if around[3] == 0 || around[0] == 0 then 0 else old(around[7])
    {
      if around[0] == 0 { around[4] := 0; around[7] := 0; }
      if around[1] == 0 { around[4] := 0; around[5] := 0; }
      if around[2] == 0 { around[5] := 0; around[6] := 0; }
      if around[3] == 0 { around[6] := 0; around[7] := 0; }
    }

    method DistanceOf(pos: nat, x2: int, y2: int) returns (dist: nat)
      requires mapWidth > 0
      ensures dist == DistanceTo(pos, mapWidth, x2, y2)
    {
      var xa, ya := pos % mapWidth, pos / mapWidth;
      dist := Distance(x2, y2, xa, ya);
    }

    /** Gives neighbour i of the expanded cell a better label, queues it, and remembers it if it is the
        nearest so far. */
    method Improve(around: nat, cost: Label, x2: int, y2: int, count0: nat, nearPos0: nat, nearDist0: nat,
                   ghost e: Expansion, ghost i: nat, ghost a: Sweep)
      returns (count: nat, nearPos: nat, nearDist: nat)
      requires Valid() && queue.Valid() && count0 <= MAX_QUEUE_LEN - 2 && queue.tail <= count0 && e.count0 <= count0
      requires Expanding(e, mapSearch[..], queue.Contents(), count0, nearPos0, nearDist0, i) && i < 8
      requires Tracked(e.g, e.target, x2, y2, a, mapSearch[..], queue.Contents(), count0, nearPos0, nearDist0, e.pos)
      requires e.g.width == mapWidth && e.x2 == x2 && e.y2 == y2
      requires 0 < around == Around(e.g, e.pos, i) < mapSearch.Length && e.pos < mapSearch.Length
      requires cost == mapSearch[e.pos] as int + 1 < mapSearch[around]
      requires DistanceTo(e.s, mapWidth, x2, y2) < FAR - 14
      modifies mapSearch, queue`tail, queue.nodes
      ensures Valid() && queue.Valid() && count == count0 + 1 && queue.tail == old(queue.tail) + 1
      ensures Expanding(e, mapSearch[..], queue.Contents(), count, nearPos, nearDist, i + 1)
      ensures Tracked(e.g, e.target, x2, y2, LookedAt(e.g, x2, y2, e.pos, i, a), mapSearch[..], queue.Contents(),
                      count, nearPos, nearDist, e.pos)
    {
      hide Expanding, Bag, Heap, Around, DistanceTo, Tracked, LookedAt;
      ghost var lab, bag := mapSearch[..], queue.Contents();
      count, nearPos, nearDist := count0 + 1, nearPos0, nearDist0;
      var dist := DistanceOf(around, x2, y2);
      RelaxNeighbour(e, lab, bag, count0, nearPos, nearDist, i, cost + dist);
      RelaxTracked(e, a, lab, bag, count0, nearPos, nearDist, i, cost + dist);
      mapSearch[around] := cost;
      assert mapSearch[..] == lab[around := cost];
      queue.PushToQueue(around, cost + dist);
      if dist < nearDist {
        nearPos := around;
        nearDist := dist;
      }
    }

    /** Relaxes all neighbours of pos. */
    method Expand(pos: nat, ghost source: nat, ghost target: nat, x2: int, y2: int,
                  count0: nat, nearPos0: nat, nearDist0: nat, ghost a: Sweep)
      returns (count: nat, nearPos: nat, nearDist: nat)
      requires Valid() && UnitCost(View()) && queue.Valid() && count0 <= MAX_QUEUE_LEN - 9 && queue.tail <= count0
      requires pos < mapData.Length
      requires Expanding(Expansion(View(), source, target, x2, y2, pos, mapSearch[..], queue.Contents(), count0),
                         mapSearch[..], queue.Contents(), count0, nearPos0, nearDist0, 0)
      requires Tracked(View(), target, x2, y2, a, mapSearch[..], queue.Contents(), count0, nearPos0, nearDist0, pos)
      requires DistanceTo(source, mapWidth, x2, y2) < FAR - 14
      modifies mapSearch, queue`tail, queue.nodes
      ensures Valid() && queue.Valid()
      ensures count0 <= count <= count0 + 8
      ensures queue.tail == old(queue.tail) + count - count0
      ensures Expanding(Expansion(View(), source, target, x2, y2, pos, old(mapSearch[..]), old(queue.Contents()), count0),
                        mapSearch[..], queue.Contents(), count, nearPos, nearDist, 8)
      ensures Tracked(View(), target, x2, y2, Looked(View(), x2, y2, pos, 8, a), mapSearch[..], queue.Contents(),
                      count, nearPos, nearDist, pos)
    {
      hide Expanding, Bag, Heap, Around, DistanceTo, UnitCost, Free, Tracked, Looked, LookedAt;
      var arounds := new nat[8];
      GetAround(pos, arounds);
      count, nearPos, nearDist := count0, nearPos0, nearDist0;
      ghost var e := Expansion(View(), source, target, x2, y2, pos, mapSearch[..], queue.Contents(), count0);
      var i := 0;
      LookedNone(e.g, x2, y2, pos, a);
      while i < 8
        invariant 0 <= i <= 8
        invariant Valid() && queue.Valid()
        invariant forall k: nat :: k < 8 ==> arounds[k] == Around(e.g, pos, k)
        invariant count0 <= count <= count0 + i
        invariant queue.tail == old(queue.tail) + count - count0
        invariant Expanding(e, mapSearch[..], queue.Contents(), count, nearPos, nearDist, i)
        invariant Tracked(e.g, target, x2, y2, Looked(e.g, x2, y2, pos, i, a), mapSearch[..], queue.Contents(),
                          count, nearPos, nearDist, pos)
      {
        ghost var b := Looked(e.g, x2, y2, pos, i, a);
        LookedOne(e.g, x2, y2, pos, i, a);
        var around := arounds[i];
        ghost var lab, bag := mapSearch[..], queue.Contents();
        AroundIsFree(e, i);
        if around != 0 {
          var cost := mapData[around] + mapSearch[pos];
          if cost < mapSearch[around] {
            count, nearPos, nearDist := Improve(around, cost, x2, y2, count, nearPos, nearDist, e, i, b);
          } else {
            SkipNeighbour(e, lab, bag, count, nearPos, nearDist, i);
            SkipTracked(e.g, target, x2, y2, b, lab, bag, count, nearPos, nearDist, pos, i);
          }
        } else {
          SkipNeighbour(e, lab, bag, count, nearPos, nearDist, i);
          SkipTracked(e.g, target, x2, y2, b, lab, bag, count, nearPos, nearDist, pos, i);
        }
        i := i + 1;
      }
    }

    /** The do-while loop of SearchInMap. The queue holds the source; every other cell is unlabelled. */
    method Explore(ghost source: nat, target: nat, x2: int, y2: int)
      returns (pos: nat, ghost stop: Stop, ghost count: nat, ghost trace: seq<nat>)
      requires Valid() && UnitCost(View()) && queue.Valid() && queue.tail == 1 && source != target
      requires Exploring(View(), source, target, x2, y2, mapSearch[..], queue.Contents(), 0, 0, FAR)
      requires Tracked(View(), target, x2, y2, Opening(View(), source), mapSearch[..], queue.Contents(), 0, 0, FAR, -1)
      requires queue.nodes[1].distance == DistanceTo(source, mapWidth, x2, y2) && 2 * DistanceTo(source, mapWidth, x2, y2) + 8 < MAX_QUEUE_LEN - 1
      modifies mapSearch, queue`tail, queue.nodes
      ensures Valid()
      ensures count <= 2 * DistanceTo(source, mapWidth, x2, y2) + 8
      ensures Explored(View(), source, target, x2, y2, mapSearch[..], count,
                       2 * DistanceTo(source, mapWidth, x2, y2), stop, pos)
      ensures BestRun(View(), source, target, x2, y2, 2 * DistanceTo(source, mapWidth, x2, y2), stop, mapSearch[..], trace, pos)
    {
      hide Exploring, Expanding, Explored, Popped, Isolated, Bag, Heap, Sound, Frontier, DistanceTo, UnitCost,
           Tracked, Looked, Opening, Replay, BestFirst, BestRun, Traced, Labelled;
      var limit := queue.nodes[1].distance * 2;
      var cnt := 0;
      var nearDist: nat := FAR;
      var nearPos: nat := 0;
      ghost var g := View();
      assert limit == 2 * DistanceTo(source, mapWidth, x2, y2);
      trace := [];
      NoTrace(g, source, target, x2, y2, limit);
      while true
        invariant Valid() && queue.Valid() && g == View()
        invariant 0 < queue.tail <= cnt + 1 && cnt <= limit
        invariant Exploring(g, source, target, x2, y2, mapSearch[..], queue.Contents(), cnt, nearPos, nearDist)
        invariant BestFirst(g, source, target, x2, y2, limit, trace)
        invariant Tracked(g, target, x2, y2, Replay(g, source, x2, y2, trace), mapSearch[..], queue.Contents(), cnt, nearPos, nearDist, -1)
        decreases limit - cnt, queue.tail
      {
        pos := queue.nodes[1].pos;
        ghost var n, lab, bag := queue.nodes[1], mapSearch[..], queue.Contents();
        RootInBag(queue.nodes[..], queue.tail);
        RootIsLeast(queue.nodes[..], queue.tail);
        ghost var a := Replay(g, source, x2, y2, trace);
        ghost var e := Expansion(g, source, target, x2, y2, pos, lab, bag - multiset{n}, cnt);
        if pos == target {
          stop, count := Found, cnt;
          EndFound(g, source, target, x2, y2, lab, bag, n, cnt, nearPos, nearDist, limit);
          FoundRun(g, source, target, x2, y2, trace, lab, bag, n, cnt, nearPos, nearDist, limit);
          assert View() == g;
          return;
        }
        StartExpanding(e, lab, bag, n, cnt, nearPos, nearDist);
        TurnRun(g, source, target, x2, y2, trace, lab, bag, n, cnt, nearPos, nearDist, limit);
        queue.ShrinkQueue();
        cnt, nearPos, nearDist := Expand(pos, source, target, x2, y2, cnt, nearPos, nearDist, a.(due := a.due - {pos}));
        trace := Traced(trace, a, pos);
        ExpandedSettles(e, mapSearch[..], queue.Contents(), cnt, nearPos, nearDist);
        FinishTracked(g, target, x2, y2, Replay(g, source, x2, y2, trace), mapSearch[..], queue.Contents(), cnt, nearPos, nearDist, pos);
        FinishExpanding(e, mapSearch[..], queue.Contents(), cnt, nearPos, nearDist);
        if cnt > limit {
          stop, count := TooDeep, cnt;
          EndTooDeep(g, source, target, x2, y2, mapSearch[..], queue.Contents(), cnt, nearPos, nearDist, limit);
          pos := nearPos;
          DeepRun(g, source, target, x2, y2, trace, mapSearch[..], queue.Contents(), cnt, nearPos, nearDist, limit);
          assert View() == g;
          return;
        }
        if queue.tail <= 0 {
          stop, count := Exhausted, cnt;
          EmptyBag(queue.nodes[..]);
          EndExhausted(e, mapSearch[..], queue.Contents(), cnt, nearPos, nearDist, limit);
          EmptyRun(g, source, target, x2, y2, trace, mapSearch[..], queue.Contents(), cnt, nearPos, nearDist, limit, pos);
          assert View() == g;
          return;
        }
      }
    }

    /** One turn of the backtracking loop: the smallest label listed around pos, and the cell it belongs to. */
    method SteepestNeighbour(pos: nat, slot0: nat, ghost dist: int) returns (nearDist: nat, slot: nat, next: nat)
      requires Valid() && pos < mapData.Length
      requires exists i: nat :: i < 8 && 0 < Around(View(), pos, i) < mapSearch.Length && mapSearch[Around(View(), pos, i)] < FAR
      ensures BackStep(View(), mapSearch[..], Back(pos, slot0, dist), Back(next, slot, nearDist))
      ensures exists i: nat :: i < 8 && next == Around(View(), pos, i) && next > 0
      ensures next < mapSearch.Length && mapSearch[next] == nearDist
      ensures forall i: nat :: i < 8 && 0 < Around(View(), pos, i) < mapSearch.Length ==>
                nearDist <= mapSearch[Around(View(), pos, i)]
    {
      hide Around, Free, UnitCost, BackStep;
      var arounds := new nat[8];
      GetAround(pos, arounds);
      ghost var g, lab, slots := View(), mapSearch[..], arounds[..];
      SlotsOfCell(g, pos);
      assert slots == SlotsOf(g, pos);
      ghost var low: nat :| low < 8 && 0 < Around(g, pos, low) < mapSearch.Length && mapSearch[Around(g, pos, low)] < FAR;
      nearDist := FAR;
      slot := slot0;
      var i := 0;
      while i < 8
        invariant 0 <= i <= 8 && arounds[..] == slots
        invariant Scan(nearDist, slot) == Scanned(lab, slots, i, slot0)
      {
        if arounds[i] != 0 {
          var dist := mapSearch[arounds[i]];
          if dist < nearDist {
            nearDist := dist;
            slot := i;
          }
        }
        i := i + 1;
      }
      ScanFinds(lab, slots, 8, slot0);
      assert slots[low] == Around(g, pos, low);
      next := arounds[slot];
      assert next == slots[slot] == Around(g, pos, slot);
      OneTurn(g, lab, slots, Back(pos, slot0, dist), Back(next, slot, nearDist));
      forall k: nat | k < 8 && 0 < Around(g, pos, k) < mapSearch.Length
        ensures nearDist <= mapSearch[Around(g, pos, k)]
      {
        assert slots[k] == Around(g, pos, k);
      }
    }

    /** Walks down the labels from pos to the source, recording the cells in PathPos. Returns fits = false
        where the source writes past the end of PathPos, after PATH_LEN turns. */
    method Backtrack(pos0: nat, slot0: nat, ghost source: nat, ghost bound: nat) returns (count: nat, fits: bool)
      requires Valid() && Sound(View(), source, mapSearch[..], bound) && source > 0 && bound < FAR
      requires Labelled(mapSearch[..], pos0) && pos0 != source
      modifies pathPos
      ensures fits <==> EndsWithin(View(), mapSearch[..], Back(pos0, slot0, FAR), PATH_LEN)
      ensures mapSearch[pos0] < PATH_LEN ==> fits
      ensures fits ==>
                && 1 <= count <= mapSearch[pos0] && count < PATH_LEN
                && (exists b: Back :: BackRun(View(), mapSearch[..], Back(pos0, slot0, FAR), count, b) && b.dist == 0 && b.pos == source)
                && pathPos[0] == pos0 && pathPos[count] == source
                && Trail(View(), pathPos[..count + 1])
    {
      hide Sound, Trail, Around, Free, BackStep, BackRun, EndsWithin;
      var pos: nat := pos0;
      var slot := slot0;
      ghost var g, lab := View(), mapSearch[..];
      count, fits := 0, true;
      var nearDist: nat := FAR;
      ghost var start := Back(pos0, slot0, FAR);
      NoTurn(g, lab, start);
      SoundFacts(g, source, lab, bound, pos);
      ghost var cells: seq<nat> := [];
      TrailOne(g, pos0);
      while nearDist > 0
        invariant g == View() && lab == mapSearch[..]
        invariant pos < |lab| && Labelled(lab, pos) && count + lab[pos] <= lab[pos0] && count <= PATH_LEN
        invariant BackRun(g, lab, start, count, Back(pos, slot, nearDist))
        invariant cells == pathPos[..count] && Trail(g, cells + [pos])
        invariant count == 0 ==> pos == pos0
        invariant count > 0 ==> pathPos[0] == pos0 && lab[pos] == nearDist
        invariant nearDist == 0 ==> count > 0
        invariant nearDist > 0 ==> pos != source
        decreases lab[pos]
      {
        if count == PATH_LEN {
          TooManyTurns(g, source, lab, bound, start, PATH_LEN, Back(pos, slot, nearDist));
          return count, false;
        }
        pathPos[count] := pos;
        cells := cells + [pos];
        ghost var here := Back(pos, slot, nearDist);
        LowerAround(g, source, lab, bound, pos);
        SoundFacts(g, source, lab, bound, pos);
        ghost var v := pos;
        nearDist, slot, pos := SteepestNeighbour(pos, slot, nearDist);
        RunAppend(g, lab, start, count, here, Back(pos, slot, nearDist));
        count := count + 1;
        ghost var j: nat :| j < 8 && pos == Around(g, v, j);
        AroundEdge(g, v, j);
        TrailExtends(g, cells, pos);
        SoundFacts(g, source, lab, bound, pos);
      }
      if count == PATH_LEN {
        TooManyTurns(g, source, lab, bound, start, PATH_LEN, Back(pos, slot, nearDist));
        return count, false;
      }
      EndedWithin(g, lab, start, count, Back(pos, slot, nearDist));
      pathPos[count] := pos;
      SoundFacts(g, source, lab, bound, pos);
      assert pathPos[..count + 1] == cells + [pos];
    }

    /** GetDir: the direction from pos2 to a neighbouring pos1. */
    method GetDir(pos2: nat, pos1: nat) returns (d: int)
      requires mapWidth > 0 && 0 <= DirIndex(pos2, pos1, mapWidth) < 11
      ensures d == DirTable(DirIndex(pos2, pos1, mapWidth))
    {
      var table := [7, 0, 1, -1, 6, -1, 2, -1, 5, 4, 3];
      var dx := pos1 % mapWidth - pos2 % mapWidth + 1;
      var dy := pos1 / mapWidth - pos2 / mapWidth + 1;
      dx := dx + dy * 4;
      d := table[dx];
    }

    /** Turns the cells in PathPos, end first, into the directions in PathDir, start first. */
    method ConvertToDirs(count: nat)
      requires Valid() && count < PATH_LEN && Trail(View(), pathPos[..count + 1])
      modifies pathDir
      ensures Walkable(View(), pathPos[count], pathDir[..count])
      ensures WalkEnd(View(), pathPos[count], pathDir[..count]) == pathPos[0]
    {
      hide Trail, CanStep, DirIndex;
      ghost var g, cells := View(), pathPos[..count + 1];
      var i := 0;
      WalkNowhere(g, pathPos[count]);
      assert pathDir[..0] == [];
      while i < count
        invariant 0 <= i <= count
        invariant Walkable(g, cells[count], pathDir[..i])
        invariant WalkEnd(g, cells[count], pathDir[..i]) == cells[count - i]
      {
        ghost var k, from, to := count - i - 1, cells[count - i], cells[count - i - 1];
        ghost var dirs := pathDir[..i];
        TrailToWalk(g, cells[count], cells, k, dirs, DirTable(DirIndex(from, to, mapWidth)));
        var d := GetDir(pathPos[count - i], pathPos[count - i - 1]);
        pathDir[i] := d;
        assert pathDir[..i + 1] == dirs + [d];
        i := i + 1;
      }
    }

    /** The initialisation and the main loop, for two different cells, whatever the start cell is. */
    method Search(source: nat, target: nat, x2: int, y2: int, distance: nat)
      returns (pos: nat, ghost stop: Stop, ghost count: nat, ghost trace: seq<nat>)
      requires Valid() && UnitCost(View())
      requires source < mapData.Length && target < mapData.Length && source != target
      requires distance == DistanceTo(source, mapWidth, x2, y2) && 2 * distance + 8 < MAX_QUEUE_LEN - 1
      modifies mapData, mapSearch, queue`tail, queue.nodes
      ensures Valid() && View() == Opened(old(View()), source)
      ensures count <= 2 * distance + 8
      ensures Explored(View(), source, target, x2, y2, mapSearch[..], count, 2 * distance, stop, pos)
      ensures BestRun(View(), source, target, x2, y2, 2 * distance, stop, mapSearch[..], trace, pos)
    {
      hide Exploring, Explored, Bag, Heap, UnitCost, Distance, X, Y, Tracked, Opening, BestRun;
      ghost var g := Opened(View(), source);
      OpenedUnitCost(View(), source);
      forall k | 0 <= k < mapSearch.Length { mapSearch[k] := NO_LABEL; }
      mapData[source] := 1;
      mapSearch[source] := 0;
      assert View() == g;
      queue.Reset(source, distance);
      StartExploring(g, source, target, x2, y2, mapSearch[..], distance);
      StartTracked(g, source, target, x2, y2, mapSearch[..], distance);
      pos, stop, count, trace := Explore(source, target, x2, y2);
    }

    /** SearchInMap up to the backtracking, for every request. It is done exactly when the request is
        refused or the start cell has no neighbour; otherwise backtracking starts at pos, with the map
        still opened, and can be left exactly when the start cell is not cell 0. */
    method Locate(x1: int, y1: int, x2: int, y2: int)
      returns (done: bool, pos: nat, slot: nat, oldData: int, ghost stop: Stop, ghost count: nat, ghost trace: seq<nat>)
      requires Valid() && UnitCost(View())
      requires InMap(View(), x1, y1) && InMap(View(), x2, y2)
      requires 2 * Distance(x1, y1, x2, y2) + 8 < MAX_QUEUE_LEN - 1
      modifies mapData, mapSearch, queue`tail, queue.nodes
      ensures Valid()
      ensures var s, t := Cell(mapWidth, x1, y1), Cell(mapWidth, x2, y2);
              var g := Opened(old(View()), s);
              && (done <==> Refused(old(View()), x1, y1, x2, y2) || Isolated(g, s))
              && (stop == NotSearched <==> Refused(old(View()), x1, y1, x2, y2))
              && (done ==> View() == old(View()))
              && (done && stop != NotSearched ==> ExactLabels(g, s, mapSearch[..]) && !Reachable(g, s, t))
              && (!done ==>
                    && View() == g && oldData == old(mapData[s]) && pos != s && count <= 2 * Distance(x1, y1, x2, y2) + 8
                    && Explored(g, s, t, x2, y2, mapSearch[..], count, 2 * Distance(x1, y1, x2, y2), stop, pos)
                    && BestRun(g, s, t, x2, y2, 2 * Distance(x1, y1, x2, y2), stop, mapSearch[..], trace, pos)
                    && (Ends(g, mapSearch[..], Back(pos, slot, FAR)) <==> s > 0))
    {
      hide Explored, Isolated, UnitCost, ExactLabels, Reachable, Distance, Ends, Sound, BestRun;
      var source, target := Cell(mapWidth, x1, y1), Cell(mapWidth, x2, y2);
      CellCoordinates(mapWidth, x1, y1);
      SameCell(mapWidth, x1, y1, x2, y2);
      done, pos, slot, oldData, stop, count, trace := true, 0, 0, 0, NotSearched, 0, [];
      var i, j := Abs(x2 - x1), Abs(y2 - y1);
      if i == 0 && j == 1 && mapData[target] == BLOCKED { return; }
      if i == 1 && j == 0 && mapData[target] == BLOCKED { return; }
      if source == target { return; }
      DistanceSymmetric(x1, y1, x2, y2);
      oldData := mapData[source];
      ghost var was, g := View(), Opened(View(), source);
      var distance := Distance(x1, y1, x2, y2);
      pos, stop, count, trace := Search(source, target, x2, y2, distance);
      ExploredFacts(g, source, target, x2, y2, mapSearch[..], count, 2 * distance, stop, pos);
      if pos == source {
        mapData[source] := oldData;
        assert View() == was;
        return;
      }
      done, slot := false, j;
      BacktrackingEnds(g, source, mapSearch[..], count, pos, slot);
    }

    /** Returns the number of directions written to PathDir, or 0. PathPos[0] is the cell they lead to.
        Where the source's backtracking does not end before PathPos is full, as it never does from cell 0,
        ok is false and nothing else is promised; `from` is where backtracking starts. */
    method SearchInMap(x1: int, y1: int, x2: int, y2: int) returns (ret: nat, ok: bool, ghost stop: Stop, ghost from: Back, ghost trace: seq<nat>)
      requires Valid() && UnitCost(View())
      requires InMap(View(), x1, y1) && InMap(View(), x2, y2)
      requires 2 * Distance(x1, y1, x2, y2) + 8 < MAX_QUEUE_LEN - 1
      modifies mapData, mapSearch, queue`tail, queue.nodes, pathPos, pathDir
      ensures Valid()
      ensures stop == NotSearched <==> Refused(old(View()), x1, y1, x2, y2)
      ensures var s := Cell(mapWidth, x1, y1);
              var g := Opened(old(View()), s);
              if stop == NotSearched || Isolated(g, s) then ok
              else
                && from.dist == FAR && from.pos >= 0 && Labelled(mapSearch[..], from.pos)
                && (ok <==> EndsWithin(g, mapSearch[..], from, PATH_LEN))
                && (s == 0 ==> !ok)
                && BestRun(g, s, Cell(mapWidth, x2, y2), x2, y2, 2 * Distance(x1, y1, x2, y2), stop, mapSearch[..], trace, from.pos)
      ensures Cell(mapWidth, x1, y1) > 0 && 2 * Distance(x1, y1, x2, y2) + 8 < PATH_LEN ==> ok
      ensures ok ==>
                var s, t := Cell(mapWidth, x1, y1), Cell(mapWidth, x2, y2);
                var g := Opened(old(View()), s);
                && View() == old(View()) && ret <= 2 * Distance(x1, y1, x2, y2) + 8 && ret < PATH_LEN
                && (ret == 0 <==> stop == NotSearched || Isolated(g, s))
                && (ret == 0 && stop != NotSearched ==> ExactLabels(g, s, mapSearch[..]) && !Reachable(g, s, t))
                && (ret > 0 ==> Answer(g, s, t, x2, y2, stop, mapSearch[..], pathDir[..ret], pathPos[0])
                                && (pathPos[0] == t <==> mapSearch[t] != NO_LABEL)
                                && pathPos[0] == from.pos && ret <= mapSearch[pathPos[0]])
    {
      hide Answer, Explored, Isolated, UnitCost, ExactLabels, Reachable, Distance, Sound, Trail, Walkable, WalkEnd,
           Ends, EndsWithin, BackRun, Refused, BestRun;
      ghost var was, s, t, distance := View(), Cell(mapWidth, x1, y1), Cell(mapWidth, x2, y2), Distance(x1, y1, x2, y2);
      ghost var g := Opened(was, s);
      var done, pos, slot, oldData; ghost var count;
      done, pos, slot, oldData, stop, count, trace := Locate(x1, y1, x2, y2);
      ret, ok, from := 0, true, Back(pos, slot, FAR);
      if done {
        return;
      }
      ghost var lab := mapSearch[..];
      CellCoordinates(mapWidth, x2, y2);
      NotRefused(was, x1, y1, x2, y2);
      SameCell(mapWidth, x1, y1, x2, y2);
      ExploredFacts(g, s, t, x2, y2, lab, count, 2 * distance, stop, pos);
      if y1 * mapWidth + x1 == 0 {
        NeverWithin(g, lab, from, PATH_LEN);
        ok := false;
        return;
      }
      EndIsTarget(g, s, t, x2, y2, lab, count, 2 * distance, stop, pos);
      ret, ok := Backtrack(pos, slot, s, count);
      if !ok {
        return;
      }
      ConvertToDirs(ret);
      AnswerFromWalk(g, s, t, x2, y2, lab, count, 2 * distance, stop, pos, pathDir[..ret]);
      mapData[y1 * mapWidth + x1] := oldData;
      assert View() == was;
    }
  }

  // ---------- a path that leads elsewhere ----------

  /** One row: a wall, two walkable cells, a wall, and one more walkable cell. */
  function WalledRow(): Grid {
    Grid([10000, 1, 1, 10000, 1], 5)
  }

  lemma StaysBetweenWalls(g: Grid, u: nat, d: Dir)
    requires g == WalledRow() && (u == 1 || u == 2) && CanStep(g, u, d)
    ensures Target(5, u, d) == 1 || Target(5, u, d) == 2
  {
  }

  lemma {:induction false} ReachesBetweenWalls(g: Grid, v: nat, n: nat)
    requires g == WalledRow() && ReachIn(g, 1, v, n)
    ensures v == 1 || v == 2
    decreases n
  {
    hide CanStep, Target;
    if n > 0 {
      var u: nat :| ReachIn(g, 1, u, n - 1) && Edge(g, u, v);
      ReachesBetweenWalls(g, u, n - 1);
      var d: Dir :| CanStep(g, u, d) && v == Target(g.width, u, d);
      StaysBetweenWalls(g, u, d);
    }
  }

  lemma WalledRequest(g: Grid)
    requires g == WalledRow()
    ensures UnitCost(g) && InMap(g, 1, 0) && InMap(g, 4, 0) && !Refused(g, 1, 0, 4, 0)
    ensures Cell(5, 1, 0) == 1 && Cell(5, 4, 0) == 4 && Distance(1, 0, 4, 0) == 30
    ensures Opened(g, 1) == g && CanStep(g, 1, 2)
  {
    assert g.cells[1 := 1] == g.cells;
  }

  lemma AnswerEnd(g: Grid, s: nat, t: nat, x2: int, y2: int, stop: Stop, lab: seq<Label>, dirs: seq<Dir>, end: nat)
    requires g.width > 0 && Answer(g, s, t, x2, y2, stop, lab, dirs, end)
    ensures ReachIn(g, s, end, |dirs|)
  {
    assert ReachIn(g, s, s, 0);
    WalkReaches(g, s, s, 0, dirs);
  }

  /** A request for the cell behind the second wall is answered by a path, but not to that cell. */
  method PathElsewhere() returns (ret: nat, end: nat)
    ensures ret > 0 && end != 4
  {
    hide UnitCost, InMap, Refused, Isolated, Answer, EndsWithin, ExactLabels, Reachable, Distance, Cell, BestRun;
    var cells := new int[] [10000, 1, 1, 10000, 1];
    var search := new Searcher(cells, 5, 1);
    ghost var g := WalledRow();
    assert search.View() == g;
    WalledRequest(g);
    NotIsolated(g, 1, 2);
    var ok; ghost var stop, from, trace;
    ret, ok, stop, from, trace := search.SearchInMap(1, 0, 4, 0);
    end := search.pathPos[0];
    AnswerEnd(g, 1, 4, 4, 0, stop, search.mapSearch[..], search.pathDir[..ret], end);
    ReachesBetweenWalls(g, end, ret);
  }

  lemma NotIsolated(g: Grid, s: nat, d: Dir)
    requires g.width > 0 && CanStep(g, s, d)
    ensures !Isolated(g, s)
  {
  }

  lemma EndedWithin(g: Grid, lab: seq<Label>, a: Back, n: nat, b: Back)
    requires g.width > 0 && |lab| == |g.cells| && BackRun(g, lab, a, n, b) && b.dist == 0 && n < PATH_LEN
    ensures EndsWithin(g, lab, a, PATH_LEN)
  {
    hide BackRun;
  }

  lemma NeverWithin(g: Grid, lab: seq<Label>, a: Back, k: nat)
    requires g.width > 0 && |lab| == |g.cells| && !Ends(g, lab, a)
    ensures !EndsWithin(g, lab, a, k)
  {
    hide BackRun;
  }

  lemma NotRefused(g: Grid, x1: int, y1: int, x2: int, y2: int)
    requires InMap(g, x2, y2) && !Refused(g, x1, y1, x2, y2)
    ensures x1 != x2 || y1 != y2
  {
  }

  lemma DistanceSymmetric(x1: int, y1: int, x2: int, y2: int)
    ensures Distance(x1, y1, x2, y2) == Distance(x2, y2, x1, y1)
  {
  }

  lemma SameCell(w: nat, x1: int, y1: int, x2: int, y2: int)
    requires 0 <= x1 < w && 0 <= y1 && 0 <= x2 < w && 0 <= y2
    ensures Cell(w, x1, y1) == Cell(w, x2, y2) <==> x1 == x2 && y1 == y2
  {
    CellCoordinates(w, x1, y1);
    CellCoordinates(w, x2, y2);
  }

  lemma WalkNowhere(g: Grid, p: nat)
    requires g.width > 0
    ensures Walkable(g, p, []) && WalkEnd(g, p, []) == p
  {
  }

  lemma AroundIsFree(e: Expansion, n: nat)
    requires e.g.width >= 2 && n < 8 && UnitCost(e.g)
    ensures var t := Around(e.g, e.pos, n); t != 0 ==> t < |e.g.cells| && e.g.cells[t] == 1
  {
  }
}
