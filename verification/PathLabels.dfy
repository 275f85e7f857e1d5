/** What the label array of dev/algorithmic/src/ob_path_search.cpp (MapSearch) means while the search
    runs: every label is the length of a real walk, and every labelled cell that is no longer queued
    has nothing left to improve around it. With an empty queue this makes all labels exact. */
module PathLabels {
  import opened PathGrid
  import opened PathQueue

  /** memset writes byte 0xFF into 16-bit cells, so an unlabelled cell holds 65535. */
  const NO_LABEL: Label := 65535

  /** unsigned short */
  type Label = x: int | 0 <= x < 65536

  ghost predicate Labelled(lab: seq<Label>, v: nat) {
    v < |lab| && lab[v] != NO_LABEL
  }

  /** A labelled cell other than the source was entered from a cell with a smaller label. */
  ghost predicate HasLowerNeighbour(g: Grid, s: nat, lab: seq<Label>, v: nat)
    requires g.width > 0
  {
    v < |lab| && exists u: nat :: u < |lab| && Edge(g, u, v) && lab[u] < lab[v] && (u == s || Free(g, u))
  }

  ghost predicate CellSound(g: Grid, s: nat, lab: seq<Label>, v: nat, bound: nat)
    requires g.width > 0
  {
    Labelled(lab, v) ==>
      && lab[v] <= bound
      && ReachIn(g, s, v, lab[v])
      && (v == s || (Free(g, v) && lab[v] > 0 && HasLowerNeighbour(g, s, lab, v)))
  }

  /** Labels are lengths of walks, bounded by the number of relaxations so far, and each one but the
      source's has a smaller one next to it. The source may be cell 0, which is never free. */
  ghost predicate Sound(g: Grid, s: nat, lab: seq<Label>, bound: nat)
    requires g.width > 0
  {
    && |lab| == |g.cells|
    && s < |lab| && lab[s] == 0 && (s > 0 ==> Free(g, s))
    && forall v: nat :: v < |lab| ==> CellSound(g, s, lab, v, bound)
  }

  /** No neighbour of u can be improved through u. */
  ghost predicate Settled(g: Grid, lab: seq<Label>, u: nat)
    requires g.width > 0
  {
    forall d: Dir :: u < |lab| && CanStep(g, u, d) && Target(g.width, u, d) < |lab| ==>
      lab[Target(g.width, u, d)] <= lab[u] as int + 1
  }

  /** Every labelled cell is queued or settled; `busy` is the cell being expanded, if any. */
  ghost predicate Frontier(g: Grid, lab: seq<Label>, open: multiset<Node>, busy: int)
    requires g.width > 0
  {
    && (forall n :: n in open ==> Labelled(lab, n.pos) && n.distance >= 0)
    && (forall u: nat :: Labelled(lab, u) && u != busy && !Open(open, u) ==> Settled(g, lab, u))
  }

  // ---------- one relaxation ----------

  /** The relaxed cell itself: entered from u, one step further than u. */
  lemma RelaxedCellSound(g: Grid, s: nat, lab: seq<Label>, bound: nat, u: nat, d: Dir)
    requires g.width > 0 && Sound(g, s, lab, bound) && bound < NO_LABEL - 1
    requires Labelled(lab, u) && CanStep(g, u, d)
    requires lab[u] as int + 1 < lab[Target(g.width, u, d)]
    ensures var t: nat := Target(g.width, u, d);
            t != s && t != u && CellSound(g, s, lab[t := lab[u] + 1], t, bound + 1)
  {
    hide Reachable, Shortest, Settled;
    var t: nat := Target(g.width, u, d);
    var lab' := lab[t := lab[u] + 1];
    assert CellSound(g, s, lab, u, bound);
    assert Edge(g, u, t);
    assert ReachIn(g, s, t, lab[u] + 1);
    assert lab'[u] < lab'[t];
    assert HasLowerNeighbour(g, s, lab', t);
  }

  /** Lowering one label keeps what is known of the other cells. */
  lemma OtherCellSound(g: Grid, s: nat, lab: seq<Label>, bound: nat, t: nat, l: Label, v: nat)
    requires g.width > 0 && CellSound(g, s, lab, v, bound)
    requires t < |lab| && l < lab[t] && v != t && t != s
    ensures CellSound(g, s, lab[t := l], v, bound + 1)
  {
    hide Edge, ReachIn, Free;
    if Labelled(lab, v) && v != s {
      var w: nat :| w < |lab| && Edge(g, w, v) && lab[w] < lab[v] && (w == s || Free(g, w));
      assert lab[t := l][w] <= lab[w];
      assert HasLowerNeighbour(g, s, lab[t := l], v);
    }
  }

  /** Writing 1 + label(u) into a neighbour with a larger label keeps every label meaningful. */
  lemma RelaxSound(g: Grid, s: nat, lab: seq<Label>, bound: nat, u: nat, d: Dir)
    requires g.width > 0 && Sound(g, s, lab, bound) && bound < NO_LABEL - 1
    requires Labelled(lab, u) && CanStep(g, u, d)
    requires lab[u] as int + 1 < lab[Target(g.width, u, d)]
    ensures Sound(g, s, lab[Target(g.width, u, d) := lab[u] + 1], bound + 1)
  {
    hide CellSound, Edge;
    RelaxedCellSound(g, s, lab, bound, u, d);
    var t: nat := Target(g.width, u, d);
    var lab' := lab[t := lab[u] + 1];
    forall v: nat {:trigger CellSound(g, s, lab', v, bound + 1)} | v < |lab|
      ensures CellSound(g, s, lab', v, bound + 1)
    {
      if v != t {
        assert CellSound(g, s, lab, v, bound);
        OtherCellSound(g, s, lab, bound, t, lab[u] + 1, v);
      }
    }
  }

  /** No label but the source's is 0. The start labels have this, and every relaxation keeps it with
      the rest, whatever cell the source is. */
  lemma OnlySourceIsZero(g: Grid, s: nat, lab: seq<Label>, bound: nat)
    requires g.width > 0 && Sound(g, s, lab, bound)
    ensures forall v: nat :: v < |lab| && v != s ==> lab[v] > 0
  {
    forall v: nat | v < |lab| && v != s
      ensures lab[v] > 0
    {
      assert CellSound(g, s, lab, v, bound);
    }
  }

  lemma OpenAfterPush(open: multiset<Node>, n: Node, v: nat)
    ensures Open(open, v) ==> Open(open + multiset{n}, v)
  {
    if Open(open, v) {
      var m :| m in open && m.pos == v;
      assert m in open + multiset{n};
    }
  }

  lemma OpenAfterPop(open: multiset<Node>, n: Node, v: nat)
    requires v != n.pos
    ensures Open(open, v) ==> Open(open - multiset{n}, v)
  {
    if Open(open, v) {
      var m :| m in open && m.pos == v;
      assert m in open - multiset{n};
    }
  }

  lemma RelaxFrontier(g: Grid, lab: seq<Label>, open: multiset<Node>, u: nat, d: Dir, key: nat)
    requires g.width > 0 && Frontier(g, lab, open, u)
    requires Labelled(lab, u) && CanStep(g, u, d) && 0 <= Target(g.width, u, d) < |lab|
    requires lab[u] as int + 1 < lab[Target(g.width, u, d)]
    ensures Frontier(g, lab[Target(g.width, u, d) := lab[u] + 1],
                     open + multiset{Node(Target(g.width, u, d), key)}, u)
  {
    var t: nat := Target(g.width, u, d);
    var lab' := lab[t := lab[u] + 1];
    var open' := open + multiset{Node(t, key)};
    assert Node(t, key) in open';
    forall v: nat | Labelled(lab', v) && v != u && !Open(open', v)
      ensures Settled(g, lab', v)
    {
      assert v != t;
      OpenAfterPush(open, Node(t, key), v);
      assert Settled(g, lab, v);
    }
  }

  /** Taking an entry out leaves only its own cell unaccounted for. */
  lemma PopFrontier(g: Grid, lab: seq<Label>, open: multiset<Node>, n: Node)
    requires g.width > 0 && Frontier(g, lab, open, -1) && n in open
    ensures Frontier(g, lab, open - multiset{n}, n.pos)
  {
    var open' := open - multiset{n};
    forall v: nat | Labelled(lab, v) && v != n.pos && !Open(open', v)
      ensures Settled(g, lab, v)
    {
      OpenAfterPop(open, n, v);
    }
  }

  // ---------- what an empty queue means ----------

  lemma {:induction false} LabelAtMostWalk(g: Grid, s: nat, lab: seq<Label>, bound: nat, v: nat, n: nat)
    requires g.width > 0 && Sound(g, s, lab, bound) && bound < NO_LABEL - 1
    requires Frontier(g, lab, multiset{}, -1)
    requires ReachIn(g, s, v, n)
    ensures v < |lab| && Labelled(lab, v) && lab[v] <= n
    decreases n
  {
    if n > 0 {
      var u: nat :| ReachIn(g, s, u, n - 1) && Edge(g, u, v);
      LabelAtMostWalk(g, s, lab, bound, u, n - 1);
      assert !Open(multiset{}, u) && Settled(g, lab, u);
      var d: Dir :| CanStep(g, u, d) && v == Target(g.width, u, d);
      assert CellSound(g, s, lab, u, bound);
      assert lab[v] <= lab[u] as int + 1;
    }
  }

  /** When the queue runs empty, a label is the length of a shortest walk, and unlabelled cells are
      exactly the unreachable ones. */
  lemma ExhaustedIsExact(g: Grid, s: nat, lab: seq<Label>, bound: nat, v: nat)
    requires g.width > 0 && Sound(g, s, lab, bound) && bound < NO_LABEL - 1
    requires Frontier(g, lab, multiset{}, -1) && v < |lab|
    ensures lab[v] == NO_LABEL <==> !Reachable(g, s, v)
    ensures lab[v] != NO_LABEL ==> Shortest(g, s, v, lab[v])
  {
    assert CellSound(g, s, lab, v, bound);
    if Labelled(lab, v) {
      assert ReachIn(g, s, v, lab[v]);
      assert Reachable(g, s, v);
      forall n: nat | ReachIn(g, s, v, n)
        ensures lab[v] <= n
      {
        LabelAtMostWalk(g, s, lab, bound, v, n);
      }
    } else if Reachable(g, s, v) {
      var n: nat :| ReachIn(g, s, v, n);
      LabelAtMostWalk(g, s, lab, bound, v, n);
    }
  }
}
