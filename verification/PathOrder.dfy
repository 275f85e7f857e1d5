/** The order in which the exploration loop of dev/algorithmic/src/ob_path_search.cpp takes cells: the
    textbook best-first search, without a queue. A state holds the labels and the cells that are due,
    labelled and not expanded since; a turn expands a due cell with the least sum of label and estimate.

    Tracked ties such a state to the arrays and the queue of the loop. An entry of the queue whose cell is
    not due any more is out of date: taking it out changes nothing, so it is no turn. What Tracked says of
    the queue needs no order of its entries, only that the one taken out is a least one. */
module PathOrder {
  import opened PathGrid
  import opened PathQueue
  import opened PathLabels
  import opened PathBacktrack

  /** Why the search ended: refused up front, or how the exploration loop was left. */
  datatype Stop = NotSearched | Found | Exhausted | TooDeep

  // ---------- the search without its queue ----------

  /** The labels, the cells that are due, the number of relaxations, and the labelled cell nearest to the
      target so far with its estimate. */
  datatype Sweep = Sweep(lab: seq<Label>, due: set<nat>, count: nat, nearPos: nat, nearDist: nat)

  /** Slot k of the cells around pos can be labelled better from pos. */
  predicate Improvable(g: Grid, pos: nat, k: nat, a: Sweep)
    requires g.width > 0 && k < 8
  {
    var u := Around(g, pos, k);
    0 < u < |a.lab| && pos < |a.lab| && a.lab[pos] as int + 1 < a.lab[u]
  }

  /** Looking at one neighbour. */
  function LookedAt(g: Grid, x2: int, y2: int, pos: nat, k: nat, a: Sweep): Sweep
    requires g.width > 0 && k < 8
  {
    if Improvable(g, pos, k, a) then
      var u := Around(g, pos, k);
      var dist := DistanceTo(u, g.width, x2, y2);
      Sweep(a.lab[u := a.lab[pos] + 1], a.due + {u}, a.count + 1,
            if dist < a.nearDist then u else a.nearPos, if dist < a.nearDist then dist else a.nearDist)
    else a
  }

  /** Looking at the first n neighbours, in the order of GetAround. */
  function Looked(g: Grid, x2: int, y2: int, pos: nat, n: nat, a: Sweep): Sweep
    requires g.width > 0 && n <= 8
    decreases n
  {
    if n == 0 then a else LookedAt(g, x2, y2, pos, n - 1, Looked(g, x2, y2, pos, n - 1, a))
  }

  /** A turn: the cell is no longer due, its improved neighbours are. */
  function Expanded(g: Grid, x2: int, y2: int, pos: nat, a: Sweep): Sweep
    requires g.width > 0
  {
    Looked(g, x2, y2, pos, 8, a.(due := a.due - {pos}))
  }

  /** Only the start is labelled. */
  function Opening(g: Grid, s: nat): Sweep {
    Sweep(seq(|g.cells|, v => if v == s then 0 else NO_LABEL), {s}, 0, 0, FAR)
  }

  /** The state after expanding these cells in turn. */
  function Replay(g: Grid, s: nat, x2: int, y2: int, trace: seq<nat>): Sweep
    requires g.width > 0
    decreases |trace|
  {
    if trace == [] then Opening(g, s)
    else Expanded(g, x2, y2, trace[|trace| - 1], Replay(g, s, x2, y2, trace[..|trace| - 1]))
  }

  /** Label and estimate. */
  function Key(lab: seq<Label>, w: nat, x2: int, y2: int, v: nat): nat
    requires w > 0 && v < |lab|
  {
    lab[v] + DistanceTo(v, w, x2, y2)
  }

  /** No due cell has a smaller key than p. */
  ghost predicate Best(g: Grid, x2: int, y2: int, a: Sweep, p: nat)
    requires g.width > 0
  {
    p in a.due && forall v: nat :: v in a.due && v < |a.lab| && p < |a.lab| ==>
                    Key(a.lab, g.width, x2, y2, p) <= Key(a.lab, g.width, x2, y2, v)
  }

  /** Cell i of the trace was a best one to expand, the search had not reached its limit, and the target
      is never expanded. */
  ghost predicate BestTurn(g: Grid, s: nat, t: nat, x2: int, y2: int, limit: nat, trace: seq<nat>, i: nat)
    requires g.width > 0 && i < |trace|
  {
    var a := Replay(g, s, x2, y2, trace[..i]);
    a.count <= limit && Best(g, x2, y2, a, trace[i]) && trace[i] != t
  }

  ghost predicate BestFirst(g: Grid, s: nat, t: nat, x2: int, y2: int, limit: nat, trace: seq<nat>)
    requires g.width > 0
  {
    forall i: nat :: i < |trace| ==> BestTurn(g, s, t, x2, y2, limit, trace, i)
  }

  /** A whole exploration: best-first turns, and then the target is the best cell, or none is due, or the
      limit is passed and the nearest cell is the end. */
  ghost predicate BestRun(g: Grid, s: nat, t: nat, x2: int, y2: int, limit: nat, stop: Stop, lab: seq<Label>,
                          trace: seq<nat>, end: nat)
    requires g.width > 0
  {
    var a := Replay(g, s, x2, y2, trace);
    && BestFirst(g, s, t, x2, y2, limit, trace) && a.lab == lab
    && match stop
       case NotSearched => false
       case Found => end == t && a.count <= limit && Best(g, x2, y2, a, t)
       case Exhausted => a.due == {} && a.count <= limit
       case TooDeep => a.count > limit && end == a.nearPos
  }

  // ---------- what the queue keeps ----------

  /** Every due cell is queued under its key, and no entry is below the key of its cell. */
  ghost predicate Keyed(a: Sweep, bag: multiset<Node>, w: nat, x2: int, y2: int)
    requires w > 0
  {
    && (forall v: nat :: v in a.due ==> Labelled(a.lab, v) && Node(v, Key(a.lab, w, x2, y2, v)) in bag)
    && (forall n :: n in bag ==> Labelled(a.lab, n.pos) && n.distance >= Key(a.lab, w, x2, y2, n.pos))
  }

  /** Labelled cells that are not due have nothing left to improve; `busy` is the cell being expanded. */
  ghost predicate Resting(g: Grid, a: Sweep, busy: int)
    requires g.width > 0
  {
    forall u: nat :: Labelled(a.lab, u) && u !in a.due && u != busy ==> Settled(g, a.lab, u)
  }

  /** The arrays and variables of the loop hold this state. */
  ghost predicate Tracked(g: Grid, t: nat, x2: int, y2: int, a: Sweep, lab: seq<Label>, bag: multiset<Node>,
                          count: nat, nearPos: nat, nearDist: nat, busy: int)
    requires g.width > 0
  {
    && a.lab == lab && a.count == count && a.nearPos == nearPos && a.nearDist == nearDist
    && Keyed(a, bag, g.width, x2, y2) && Resting(g, a, busy)
    && (Labelled(lab, t) ==> t in a.due)
  }

  lemma StartTracked(g: Grid, s: nat, t: nat, x2: int, y2: int, lab: seq<Label>, key: int)
    requires g.width > 0 && s < |g.cells| == |lab| && s != t && key == DistanceTo(s, g.width, x2, y2)
    requires lab[s] == 0 && forall v: nat :: v < |lab| && v != s ==> lab[v] == NO_LABEL
    ensures Tracked(g, t, x2, y2, Opening(g, s), lab, multiset{Node(s, key)}, 0, 0, FAR, -1)
  {
    hide DistanceTo;
    assert Opening(g, s).lab == lab;
  }

  /** The root is the best of the due cells, if it is due itself. */
  lemma RootIsBest(g: Grid, x2: int, y2: int, a: Sweep, bag: multiset<Node>, n: Node)
    requires g.width > 0 && Keyed(a, bag, g.width, x2, y2) && n in bag && n.pos in a.due
    requires forall m :: m in bag ==> n.distance <= m.distance
    ensures Best(g, x2, y2, a, n.pos)
  {
    hide Key;
    forall v: nat | v in a.due && v < |a.lab|
      ensures Key(a.lab, g.width, x2, y2, n.pos) <= Key(a.lab, g.width, x2, y2, v)
    {
      assert Node(v, Key(a.lab, g.width, x2, y2, v)) in bag;
    }
  }

  /** Taking an entry out of the queue makes its cell the busy one. */
  lemma PopTracked(g: Grid, t: nat, x2: int, y2: int, a: Sweep, lab: seq<Label>, bag: multiset<Node>,
                   count: nat, nearPos: nat, nearDist: nat, n: Node)
    requires g.width > 0 && Tracked(g, t, x2, y2, a, lab, bag, count, nearPos, nearDist, -1)
    requires n in bag && n.pos != t
    ensures Tracked(g, t, x2, y2, a.(due := a.due - {n.pos}), lab, bag - multiset{n}, count, nearPos, nearDist, n.pos)
  {
    hide Key, Settled;
    var b := a.(due := a.due - {n.pos});
    forall v: nat | v in b.due
      ensures Labelled(b.lab, v) && Node(v, Key(b.lab, g.width, x2, y2, v)) in bag - multiset{n}
    {
      assert Node(v, Key(a.lab, g.width, x2, y2, v)) in bag;
    }
  }

  /** An improved neighbour goes into the queue under its new key. */
  lemma ImproveTracked(g: Grid, t: nat, x2: int, y2: int, a: Sweep, lab: seq<Label>, bag: multiset<Node>,
                       count: nat, nearPos: nat, nearDist: nat, pos: nat, k: nat, key: int)
    requires g.width > 0 && k < 8 && Tracked(g, t, x2, y2, a, lab, bag, count, nearPos, nearDist, pos)
    requires Improvable(g, pos, k, a) && Around(g, pos, k) != pos
    requires key == lab[pos] + 1 + DistanceTo(Around(g, pos, k), g.width, x2, y2)
    ensures var u := Around(g, pos, k);
            var dist := DistanceTo(u, g.width, x2, y2);
            Tracked(g, t, x2, y2, LookedAt(g, x2, y2, pos, k, a), lab[u := lab[pos] + 1], bag + multiset{Node(u, key)},
                    count + 1, if dist < nearDist then u else nearPos, if dist < nearDist then dist else nearDist, pos)
  {
    hide Around, DistanceTo;
    var u := Around(g, pos, k);
    var b := LookedAt(g, x2, y2, pos, k, a);
    var more := bag + multiset{Node(u, key)};
    KeyedAfter(a, bag, g.width, x2, y2, u, lab[pos] + 1, key);
    RestingAfter(g, a, pos, u, lab[pos] + 1);
    assert Labelled(b.lab, t) ==> t == u || Labelled(lab, t);
  }

  lemma KeyedAfter(a: Sweep, bag: multiset<Node>, w: nat, x2: int, y2: int, u: nat, l: Label, key: int)
    requires w > 0 && Keyed(a, bag, w, x2, y2) && u < |a.lab| && l < a.lab[u]
    requires key == l + DistanceTo(u, w, x2, y2)
    ensures Keyed(a.(lab := a.lab[u := l], due := a.due + {u}), bag + multiset{Node(u, key)}, w, x2, y2)
  {
    hide DistanceTo;
    var b := a.(lab := a.lab[u := l], due := a.due + {u});
    forall v: nat | v in b.due
      ensures Labelled(b.lab, v) && Node(v, Key(b.lab, w, x2, y2, v)) in bag + multiset{Node(u, key)}
    {
      if v != u {
        assert Node(v, Key(a.lab, w, x2, y2, v)) in bag;
      }
    }
    forall n | n in bag + multiset{Node(u, key)}
      ensures Labelled(b.lab, n.pos) && n.distance >= Key(b.lab, w, x2, y2, n.pos)
    {
      assert n in bag || n == Node(u, key);
    }
  }

  lemma RestingAfter(g: Grid, a: Sweep, busy: nat, u: nat, l: Label)
    requires g.width > 0 && Resting(g, a, busy) && u < |a.lab| && l < a.lab[u]
    ensures Resting(g, a.(lab := a.lab[u := l], due := a.due + {u}), busy)
  {
    hide Settled;
    var b := a.(lab := a.lab[u := l], due := a.due + {u});
    forall v: nat | Labelled(b.lab, v) && v !in b.due && v != busy
      ensures Settled(g, b.lab, v)
    {
      assert v != u && Settled(g, a.lab, v);
      SettledLowered(g, a.lab, v, u, l);
    }
  }

  lemma SettledLowered(g: Grid, lab: seq<Label>, v: nat, u: nat, l: Label)
    requires g.width > 0 && Settled(g, lab, v) && v != u && u < |lab| && l < lab[u]
    ensures Settled(g, lab[u := l], v)
  {
  }

  /** When all neighbours have been looked at, the busy cell rests too. */
  lemma FinishTracked(g: Grid, t: nat, x2: int, y2: int, a: Sweep, lab: seq<Label>, bag: multiset<Node>,
                      count: nat, nearPos: nat, nearDist: nat, pos: nat)
    requires g.width > 0 && Tracked(g, t, x2, y2, a, lab, bag, count, nearPos, nearDist, pos)
    requires Settled(g, lab, pos)
    ensures Tracked(g, t, x2, y2, a, lab, bag, count, nearPos, nearDist, -1)
  {
    hide Keyed, Settled;
  }

  /** Around a settled cell there is nothing to improve. */
  lemma {:induction false} SettledLooks(g: Grid, x2: int, y2: int, pos: nat, n: nat, a: Sweep)
    requires g.width > 0 && n <= 8 && Settled(g, a.lab, pos) && pos < |a.lab| == |g.cells|
    ensures Looked(g, x2, y2, pos, n, a) == a
    decreases n
  {
    if n > 0 {
      SettledLooks(g, x2, y2, pos, n - 1, a);
    }
  }

  lemma ReplayMore(g: Grid, s: nat, x2: int, y2: int, trace: seq<nat>, p: nat)
    requires g.width > 0
    ensures Replay(g, s, x2, y2, trace + [p]) == Expanded(g, x2, y2, p, Replay(g, s, x2, y2, trace))
  {
    hide Expanded;
    assert (trace + [p])[..|trace|] == trace;
  }

  lemma BestFirstMore(g: Grid, s: nat, t: nat, x2: int, y2: int, limit: nat, trace: seq<nat>, p: nat)
    requires g.width > 0 && BestFirst(g, s, t, x2, y2, limit, trace) && p != t
    requires var a := Replay(g, s, x2, y2, trace); a.count <= limit && Best(g, x2, y2, a, p)
    ensures BestFirst(g, s, t, x2, y2, limit, trace + [p])
  {
    hide Replay, Best;
    var more := trace + [p];
    forall i: nat | i < |more|
      ensures BestTurn(g, s, t, x2, y2, limit, more, i)
    {
      if i < |trace| {
        assert BestTurn(g, s, t, x2, y2, limit, trace, i);
        assert more[..i] == trace[..i];
      } else {
        assert more[..i] == trace;
      }
    }
  }

  /** What a turn of the loop does to the trace: an entry of a due cell is a best-first turn, and an
      out-of-date entry is none at all. */
  function Traced(trace: seq<nat>, a: Sweep, p: nat): seq<nat> {
    if p in a.due then trace + [p] else trace
  }

  lemma TurnTraced(g: Grid, s: nat, t: nat, x2: int, y2: int, limit: nat, trace: seq<nat>, p: nat, bag: multiset<Node>, n: Node)
    requires g.width > 0 && BestFirst(g, s, t, x2, y2, limit, trace)
    requires var a := Replay(g, s, x2, y2, trace);
             && a.count <= limit && |a.lab| == |g.cells| && Keyed(a, bag, g.width, x2, y2) && Resting(g, a, -1)
    requires n in bag && n.pos == p != t && forall m :: m in bag ==> n.distance <= m.distance
    ensures var a := Replay(g, s, x2, y2, trace);
            && BestFirst(g, s, t, x2, y2, limit, Traced(trace, a, p))
            && Replay(g, s, x2, y2, Traced(trace, a, p)) == Expanded(g, x2, y2, p, a)
  {
    hide Replay, Best, BestFirst, Looked, Settled;
    var a := Replay(g, s, x2, y2, trace);
    if p in a.due {
      RootIsBest(g, x2, y2, a, bag, n);
      BestFirstMore(g, s, t, x2, y2, limit, trace, p);
      ReplayMore(g, s, x2, y2, trace, p);
    } else {
      assert a.(due := a.due - {p}) == a;
      SettledLooks(g, x2, y2, p, 8, a);
    }
  }

  lemma NoTrace(g: Grid, s: nat, t: nat, x2: int, y2: int, limit: nat)
    requires g.width > 0
    ensures BestFirst(g, s, t, x2, y2, limit, []) && Replay(g, s, x2, y2, []) == Opening(g, s)
  {
  }

  lemma NothingDue(a: Sweep, w: nat, x2: int, y2: int)
    requires w > 0 && Keyed(a, multiset{}, w, x2, y2)
    ensures a.due == {}
  {
  }
}
