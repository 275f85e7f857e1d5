/** ADiffuse and ASearchTo of dev/algorithmic/src/bfs.cpp: a layered flood over a grid with two
    alternating stacks, and the extraction of a route by climbing the resulting labels. */
module Flood {

  const MAX_STACK_LEN := 1024

  datatype Cell = Cell(x: int, y: int)

  // ---------- distance ----------

  function Dx(i: int): int {
    if i == 1 then 1 else if i == 3 then -1 else 0
  }

  function Dy(i: int): int {
    if i == 0 then 1 else if i == 2 then -1 else 0
  }

  function Neighbour(c: Cell, i: int): Cell {
    Cell(c.x + Dx(i), c.y + Dy(i))
  }

  /** Walking back from a neighbour. */
  lemma NeighbourBack(c: Cell, i: int)
    requires 0 <= i < 4
    ensures Neighbour(Neighbour(c, i), (i + 2) % 4) == c
  {
  }

  ghost predicate Adjacent(a: Cell, b: Cell) {
    exists i :: 0 <= i < 4 && b == Neighbour(a, i)
  }

  lemma AdjacentSymmetric(a: Cell, b: Cell)
    requires Adjacent(a, b)
    ensures Adjacent(b, a)
  {
    var i :| 0 <= i < 4 && b == Neighbour(a, i);
    NeighbourBack(a, i);
  }

  /** c can be reached from o in at most n side steps, each onto a free cell. */
  ghost predicate Within(free: set<Cell>, o: Cell, n: nat, c: Cell)
    decreases n
  {
    if n == 0 then c == o
    else Within(free, o, n - 1, c) || (c in free && exists b :: Adjacent(b, c) && Within(free, o, n - 1, b))
  }

  /** The walking distance from o to c is n. */
  ghost predicate At(free: set<Cell>, o: Cell, n: nat, c: Cell) {
    Within(free, o, n, c) && (n > 0 ==> !Within(free, o, n - 1, c))
  }

  lemma {:induction false} WithinMonotone(free: set<Cell>, o: Cell, m: nat, n: nat, c: Cell)
    requires m <= n && Within(free, o, m, c)
    ensures Within(free, o, n, c)
    decreases n
  {
    if m < n {
      WithinMonotone(free, o, m, n - 1, c);
    }
  }

  lemma AtUnique(free: set<Cell>, o: Cell, m: nat, n: nat, c: Cell)
    requires At(free, o, m, c) && At(free, o, n, c)
    ensures m == n
  {
    if m < n {
      WithinMonotone(free, o, m, n - 1, c);
    } else if n < m {
      WithinMonotone(free, o, n, m - 1, c);
    }
  }

  lemma {:induction false} WithinIsCell(free: set<Cell>, o: Cell, n: nat, c: Cell)
    requires Within(free, o, n, c)
    ensures c == o || c in free
    decreases n
  {
    if n > 0 && Within(free, o, n - 1, c) {
      WithinIsCell(free, o, n - 1, c);
    }
  }

  /** Every cell within n steps has a distance. */
  lemma {:induction false} WithinHasDistance(free: set<Cell>, o: Cell, n: nat, c: Cell) returns (d: nat)
    requires Within(free, o, n, c)
    ensures d <= n && At(free, o, d, c)
    decreases n
  {
    if n > 0 && Within(free, o, n - 1, c) {
      d := WithinHasDistance(free, o, n - 1, c);
    } else {
      d := n;
    }
  }

  /** A cell at distance n + 1 lies beside a cell at distance n. */
  lemma NearerNeighbour(free: set<Cell>, o: Cell, n: nat, c: Cell) returns (b: Cell)
    requires At(free, o, n + 1, c)
    ensures c in free && Adjacent(b, c) && At(free, o, n, b)
  {
    b :| Adjacent(b, c) && Within(free, o, n, b);
    assert n > 0 && Within(free, o, n - 1, b) ==> Within(free, o, n, c);
  }

  /** The cells at distance n. */
  ghost function Layer(free: set<Cell>, o: Cell, n: nat): set<Cell> {
    set c | c in free + {o} && At(free, o, n, c)
  }

  // ---------- labels ----------

  type Labels = map<Cell, int>

  /** Labels after `k` complete layers: range minus distance up to distance k, -1 elsewhere. */
  ghost predicate Flooded(free: set<Cell>, o: Cell, range: int, lab: Labels, k: nat) {
    && range >= k && o in lab && free <= lab.Keys
    && forall c :: c in lab ==>
         if Within(free, o, k, c) then range - k <= lab[c] <= range && At(free, o, range - lab[c], c)
         else lab[c] == -1
  }

  ghost predicate Distinct(s: seq<Cell>) {
    forall i, j :: 0 <= i < j < |s| ==> s[i] != s[j]
  }

  /** The stack holds exactly the cells with this label, each once. */
  ghost predicate Holds(s: seq<Cell>, lab: Labels, value: int) {
    Distinct(s) && forall c :: c in s <==> c in lab && lab[c] == value
  }

  /** The neighbours of c with index below n have labels wherever they are free. */
  ghost predicate Visited(free: set<Cell>, lab: Labels, c: Cell, n: int) {
    forall i :: 0 <= i < n && Neighbour(c, i) in free ==> Neighbour(c, i) in lab && lab[Neighbour(c, i)] >= 0
  }

  /** The state while layer k + 1 is being filled: `todo` is what is left of layer k, `busy` the
      cell being visited with n neighbours done, `next` the stack of layer k + 1. */
  ghost predicate Spreading(free: set<Cell>, o: Cell, range: int, lab: Labels, k: nat,
                            todo: seq<Cell>, next: seq<Cell>, busy: Cell, n: int) {
    && range > k && o in lab && free <= lab.Keys
    && PartlyFlooded(free, o, range, lab, k)
    && Holds(next, lab, range - k - 1)
    && Waiting(todo, lab, range - k) && AllVisited(free, lab, range - k, todo, busy)
    && Visited(free, lab, busy, n)
  }

  /** Labels up to distance k are final; of the others, some at distance k + 1 have theirs. */
  ghost predicate PartlyFlooded(free: set<Cell>, o: Cell, range: int, lab: Labels, k: nat) {
    forall c :: c in lab ==>
      if Within(free, o, k, c) then range - k <= lab[c] <= range && At(free, o, range - lab[c], c)
      else lab[c] == -1 || (lab[c] == range - k - 1 && Within(free, o, k + 1, c))
  }

  /** Different cells with this label. */
  ghost predicate Waiting(todo: seq<Cell>, lab: Labels, value: int) {
    Distinct(todo) && forall c :: c in todo ==> c in lab && lab[c] == value
  }

  /** All other cells with this label have been visited. */
  ghost predicate AllVisited(free: set<Cell>, lab: Labels, value: int, todo: seq<Cell>, busy: Cell) {
    forall c :: c in lab && lab[c] == value && c !in todo && c != busy ==> Visited(free, lab, c, 4)
  }

  /** A cell far outside any grid, standing for "no cell is being visited". */
  const NOWHERE := Cell(-9, -9)

  lemma SpreadingStart(free: set<Cell>, o: Cell, range: int, lab: Labels, k: nat, todo: seq<Cell>)
    requires Flooded(free, o, range, lab, k) && range > k && Holds(todo, lab, range - k)
    requires forall c :: c in free ==> c.x >= 0
    ensures Spreading(free, o, range, lab, k, todo, [], NOWHERE, 4)
  {
  }

  /** Pop: the top of the stack becomes the busy cell. */
  lemma SpreadingPop(free: set<Cell>, o: Cell, range: int, lab: Labels, k: nat,
                     todo: seq<Cell>, next: seq<Cell>, busy: Cell)
    requires Spreading(free, o, range, lab, k, todo, next, busy, 4) && todo != []
    ensures Spreading(free, o, range, lab, k, todo[..|todo| - 1], next, todo[|todo| - 1], 0)
    ensures var c := todo[|todo| - 1]; c in lab && lab[c] == range - k && Within(free, o, k, c)
  {
    var c := todo[|todo| - 1];
    assert c in todo;
    forall b | b in lab && lab[b] == range - k && b !in todo[..|todo| - 1] && b != c
      ensures Visited(free, lab, b, 4)
    {
      assert b !in todo;
    }
  }

  /** A blocked or already labelled neighbour is passed over. */
  lemma SpreadingSkip(free: set<Cell>, o: Cell, range: int, lab: Labels, k: nat,
                      todo: seq<Cell>, next: seq<Cell>, busy: Cell, n: int)
    requires Spreading(free, o, range, lab, k, todo, next, busy, n) && 0 <= n < 4
    requires Neighbour(busy, n) in free ==> lab[Neighbour(busy, n)] >= 0
    ensures Spreading(free, o, range, lab, k, todo, next, busy, n + 1)
  {
  }

  /** A free, unlabelled neighbour is labelled and pushed. */
  lemma SpreadingPush(free: set<Cell>, o: Cell, range: int, lab: Labels, k: nat,
                      todo: seq<Cell>, next: seq<Cell>, busy: Cell, n: int)
    requires Spreading(free, o, range, lab, k, todo, next, busy, n) && 0 <= n < 4
    requires busy in lab && lab[busy] == range - k
    requires Neighbour(busy, n) in free && lab[Neighbour(busy, n)] < 0
    ensures Spreading(free, o, range, lab[Neighbour(busy, n) := range - k - 1], k, todo,
                      next + [Neighbour(busy, n)], busy, n + 1)
  {
    hide Within, At, PartlyFlooded, Holds, Waiting, AllVisited, Visited;
    var t, value := Neighbour(busy, n), range - k - 1;
    ReachesNext(free, o, range, lab, k, busy, n);
    PartlyFloodedStays(free, o, range, lab, k, t);
    HoldsOneMore(next, lab, value, t);
    WaitingStays(free, todo, lab, range - k, busy, t, value);
    VisitedStays(free, lab, t, value, busy, n);
    VisitedNext(free, lab[t := value], busy, n);
  }

  /** A free neighbour without a label of a cell at distance k is at distance k + 1. */
  lemma ReachesNext(free: set<Cell>, o: Cell, range: int, lab: Labels, k: nat, busy: Cell, n: int)
    requires PartlyFlooded(free, o, range, lab, k) && range > k && 0 <= n < 4 && free <= lab.Keys
    requires busy in lab && lab[busy] == range - k
    requires Neighbour(busy, n) in free && lab[Neighbour(busy, n)] < 0
    ensures !Within(free, o, k, Neighbour(busy, n)) && Within(free, o, k + 1, Neighbour(busy, n))
  {
    hide Within, At;
    assert Within(free, o, k, busy);
    assert Adjacent(busy, Neighbour(busy, n));
    WithinNext(free, o, k, busy, Neighbour(busy, n));
  }

  lemma PartlyFloodedStays(free: set<Cell>, o: Cell, range: int, lab: Labels, k: nat, t: Cell)
    requires PartlyFlooded(free, o, range, lab, k)
    requires !Within(free, o, k, t) && Within(free, o, k + 1, t)
    ensures PartlyFlooded(free, o, range, lab[t := range - k - 1], k)
  {
    hide Within, At;
  }

  lemma WaitingStays(free: set<Cell>, todo: seq<Cell>, lab: Labels, was: int, busy: Cell, t: Cell, value: int)
    requires Waiting(todo, lab, was) && AllVisited(free, lab, was, todo, busy)
    requires t in lab && lab[t] < 0 <= value < was
    ensures Waiting(todo, lab[t := value], was) && AllVisited(free, lab[t := value], was, todo, busy)
  {
    hide Visited, Distinct;
    var now := lab[t := value];
    forall c | c in now && now[c] == was && c !in todo && c != busy
      ensures Visited(free, now, c, 4)
    {
      VisitedStays(free, lab, t, value, c, 4);
    }
  }

  lemma VisitedNext(free: set<Cell>, lab: Labels, c: Cell, n: int)
    requires Visited(free, lab, c, n) && n >= 0
    requires Neighbour(c, n) in lab && lab[Neighbour(c, n)] >= 0
    ensures Visited(free, lab, c, n + 1)
  {
  }

  lemma HoldsOneMore(s: seq<Cell>, lab: Labels, value: int, t: Cell)
    requires Holds(s, lab, value) && t in lab && lab[t] != value
    ensures Holds(s + [t], lab[t := value], value)
  {
    assert t !in s;
    forall c
      ensures c in s + [t] <==> c in lab[t := value] && lab[t := value][c] == value
    {
      assert c in s + [t] <==> c in s || c == t;
    }
  }

  lemma VisitedStays(free: set<Cell>, lab: Labels, t: Cell, value: int, c: Cell, n: int)
    requires Visited(free, lab, c, n) && value >= 0
    ensures Visited(free, lab[t := value], c, n)
  {
  }

  /** With nothing left to visit, layer k + 1 is complete. */
  lemma SpreadingDone(free: set<Cell>, o: Cell, range: int, lab: Labels, k: nat, next: seq<Cell>, busy: Cell)
    requires Spreading(free, o, range, lab, k, [], next, busy, 4)
    ensures Flooded(free, o, range, lab, k + 1) && Holds(next, lab, range - (k + 1))
  {
    forall c | c in lab
      ensures if Within(free, o, k + 1, c) then range - (k + 1) <= lab[c] <= range && At(free, o, range - lab[c], c)
              else lab[c] == -1
    {
      if Within(free, o, k + 1, c) && !Within(free, o, k, c) {
        var b := NearerNeighbour(free, o, k, c);
        WithinIsCell(free, o, k, b);
        assert b in lab;
        AtUnique(free, o, k, range - lab[b], b);
        assert Visited(free, lab, b, 4);
        var i :| 0 <= i < 4 && c == Neighbour(b, i);
        assert lab[c] >= 0;
      } else if Within(free, o, k, c) {
        WithinMonotone(free, o, k, k + 1, c);
      }
    }
  }

  /** The stack of a complete layer is that layer. */
  lemma StackIsLayer(free: set<Cell>, o: Cell, range: int, lab: Labels, k: nat, s: seq<Cell>)
    requires Flooded(free, o, range, lab, k) && Holds(s, lab, range - k)
    ensures |Layer(free, o, k)| == |s|
  {
    forall c
      ensures c in Layer(free, o, k) <==> c in s
    {
      if c in s {
        assert At(free, o, range - lab[c], c);
        WithinIsCell(free, o, k, c);
      }
      if c in Layer(free, o, k) {
        AtUnique(free, o, k, range - lab[c], c);
      }
    }
    assert Layer(free, o, k) == set c | c in s;
    DistinctSize(s);
  }

  /** A stack of different cells at distance n is no larger than that layer. */
  lemma LayerAtLeast(free: set<Cell>, o: Cell, n: nat, s: seq<Cell>)
    requires Distinct(s) && OnLayer(s, free, o, n)
    ensures |Layer(free, o, n)| >= |s|
  {
    var cells := set c | c in s;
    forall c | c in cells
      ensures c in Layer(free, o, n)
    {
      WithinIsCell(free, o, n, c);
    }
    DistinctSize(s);
    SubsetSize(cells, Layer(free, o, n));
  }

  lemma {:induction false} SubsetSize(a: set<Cell>, b: set<Cell>)
    requires a <= b
    ensures |a| <= |b|
    decreases |a|
  {
    if a != {} {
      var c :| c in a;
      SubsetSize(a - {c}, b - {c});
    }
  }

  lemma {:induction false} DistinctSize(s: seq<Cell>)
    requires Distinct(s)
    ensures |set c | c in s| == |s|
    decreases |s|
  {
    if s != [] {
      var init, last := s[..|s| - 1], s[|s| - 1];
      DistinctSize(init);
      assert (set c | c in s) == (set c | c in init) + {last};
      assert last !in init;
    } else {
      assert (set c | c in s) == {};
    }
  }

  // ---------- the flood ----------

  /** The walkable cells of a grid stored row by row. */
  ghost function Free(walkable: array2<bool>): set<Cell>
    reads walkable
  {
    set x, y | 0 <= x < walkable.Length1 && 0 <= y < walkable.Length0 && walkable[y, x] :: Cell(x, y)
  }

  ghost function View(weight: array2<int>): Labels
    reads weight
  {
    map x, y | 0 <= x < weight.Length1 && 0 <= y < weight.Length0 :: Cell(x, y) := weight[y, x]
  }

  /** The outermost cells are not walkable, so a neighbour of any visited cell is in the grid. */
  ghost predicate Bordered(walkable: array2<bool>)
    reads walkable
  {
    forall c :: c in Free(walkable) ==> Interior(walkable, c)
  }

  ghost predicate Interior(walkable: array2<bool>, c: Cell) {
    0 < c.x < walkable.Length1 - 1 && 0 < c.y < walkable.Length0 - 1
  }

  /** Writes one label. */
  method Mark(weight: array2<int>, c: Cell, value: int)
    requires 0 <= c.x < weight.Length1 && 0 <= c.y < weight.Length0
    modifies weight
    ensures View(weight) == old(View(weight))[c := value]
  {
    weight[c.y, c.x] := value;
  }

  /** Reading one cell of each grid. */
  lemma Look(walkable: array2<bool>, weight: array2<int>, c: Cell)
    requires walkable.Length0 == weight.Length0 && walkable.Length1 == weight.Length1
    requires 0 <= c.x < weight.Length1 && 0 <= c.y < weight.Length0
    ensures c in View(weight) && View(weight)[c] == weight[c.y, c.x]
    ensures c in Free(walkable) <==> walkable[c.y, c.x]
  {
  }

  /** All these cells are at distance n. */
  ghost predicate OnLayer(s: seq<Cell>, free: set<Cell>, o: Cell, n: nat) {
    forall i :: 0 <= i < |s| ==> At(free, o, n, s[i])
  }

  lemma InteriorIsInGrid(walkable: array2<bool>, c: Cell)
    requires Interior(walkable, c)
    ensures 0 <= c.x < walkable.Length1 && 0 <= c.y < walkable.Length0
  {
  }

  lemma InteriorNeighbours(walkable: array2<bool>, c: Cell)
    requires Interior(walkable, c)
    ensures forall i {:trigger Dx(i)} {:trigger Dy(i)} :: 0 <= i < 4 ==>
              0 <= c.x + Dx(i) < walkable.Length1 && 0 <= c.y + Dy(i) < walkable.Length0
  {
  }

  class Flooder {
    const stacks: seq<array<Cell>>
    const heads: array<nat>

    ghost predicate Valid() {
      && |stacks| == 2 && stacks[0] != stacks[1]
      && stacks[0].Length == MAX_STACK_LEN && stacks[1].Length == MAX_STACK_LEN
      && heads.Length == 2
    }

    ghost function Stack(i: int): seq<Cell>
      reads heads, if 0 <= i < |stacks| then {stacks[i]} else {}
      requires Valid() && 0 <= i < 2 && heads[i] <= MAX_STACK_LEN
    {
      stacks[i][..heads[i]]
    }

    constructor ()
      ensures Valid()
    {
      var a, b := new Cell[MAX_STACK_LEN](_ => Cell(0, 0)), new Cell[MAX_STACK_LEN](_ => Cell(0, 0));
      stacks := [a, b];
      heads := new nat[2];
    }

    method Push(i: int, c: Cell)
      requires Valid() && 0 <= i < 2 && heads[i] < MAX_STACK_LEN
      modifies stacks[i], heads
      ensures heads[i] == old(heads[i]) + 1 && heads[1 - i] == old(heads[1 - i])
      ensures Stack(i) == old(Stack(i)) + [c]
    {
      stacks[i][heads[i]] := c;
      heads[i] := heads[i] + 1;
    }

    method Pop(i: int) returns (c: Cell)
      requires Valid() && 0 <= i < 2 && 0 < heads[i] <= MAX_STACK_LEN
      modifies heads
      ensures heads[i] == old(heads[i]) - 1 && heads[1 - i] == old(heads[1 - i])
      ensures c == old(Stack(i))[old(heads[i]) - 1] && Stack(i) == old(Stack(i))[..old(heads[i]) - 1]
    {
      c := stacks[i][heads[i] - 1];
      heads[i] := heads[i] - 1;
    }

    /** Visits the four neighbours of a popped cell. Returns false where the source's assertion on
        the stack size fails: when the other stack fills up. */
    method Visit(c: Cell, toggle: int, depth: int, walkable: array2<bool>, weight: array2<int>,
                 ghost o: Cell, ghost range: int, ghost k: nat) returns (ok: bool)
      requires Valid() && 0 <= toggle < 2 && depth == range - k - 1 >= 0
      requires walkable.Length0 == weight.Length0 && walkable.Length1 == weight.Length1
      requires Interior(walkable, c)
      requires heads[toggle] < MAX_STACK_LEN && heads[1 - toggle] < MAX_STACK_LEN
      requires weight[c.y, c.x] == range - k
      requires Spreading(Free(walkable), o, range, View(weight), k, Stack(toggle), Stack(1 - toggle), c, 0)
      modifies weight, stacks[1 - toggle], heads
      ensures heads[toggle] == old(heads[toggle]) && heads[1 - toggle] <= MAX_STACK_LEN
      ensures ok <==> heads[1 - toggle] < MAX_STACK_LEN
      ensures Holds(Stack(1 - toggle), View(weight), depth)
      ensures OnLayer(Stack(1 - toggle), Free(walkable), o, k + 1)
      ensures ok ==> Spreading(Free(walkable), o, range, View(weight), k, Stack(toggle), Stack(1 - toggle), c, 4)
    {
      hide Spreading, Holds, OnLayer, Interior, View, Free;
      InteriorIsInGrid(walkable, c);
      Look(walkable, weight, c);
      InteriorNeighbours(walkable, c);
      var other := 1 - toggle;
      ghost var free := Free(walkable);
      ghost var todo := Stack(toggle);
      var i := 0;
      ok := true;
      while i < 4
        invariant 0 <= i <= 4
        invariant heads[toggle] == old(heads[toggle]) && heads[other] < MAX_STACK_LEN
        invariant c in View(weight) && View(weight)[c] == range - k
        invariant Spreading(free, o, range, View(weight), k, todo, Stack(other), c, i)
      {
        var nx, ny := c.x + Dx(i), c.y + Dy(i);
        ghost var lab, next := View(weight), Stack(other);
        Look(walkable, weight, Cell(nx, ny));
        assert Cell(nx, ny) == Neighbour(c, i);
        if walkable[ny, nx] == false {
          SpreadingSkip(free, o, range, lab, k, todo, next, c, i);
          i := i + 1;
          continue;
        }
        if weight[ny, nx] >= 0 {
          SpreadingSkip(free, o, range, lab, k, todo, next, c, i);
          i := i + 1;
          continue;
        }
        SpreadingPush(free, o, range, lab, k, todo, next, c, i);
        Mark(weight, Cell(nx, ny), depth);
        Push(other, Cell(nx, ny));
        i := i + 1;
        if !(heads[other] < MAX_STACK_LEN) {
          NextLayer(free, o, range, View(weight), k, todo, Stack(other), c, i);
          return false;
        }
      }
      NextLayer(free, o, range, View(weight), k, todo, Stack(other), c, i);
    }

    /** The inner while loop of ADiffuse: empties one stack and fills the other with the next layer. */
    method SpreadLayer(toggle: int, depth: int, walkable: array2<bool>, weight: array2<int>,
                       ghost o: Cell, ghost range: int, ghost k: nat) returns (ok: bool)
      requires Valid() && 0 <= toggle < 2 && depth == range - k - 1 >= 0
      requires walkable.Length0 == weight.Length0 && walkable.Length1 == weight.Length1
      requires Bordered(walkable) && Interior(walkable, o)
      requires heads[toggle] < MAX_STACK_LEN && heads[1 - toggle] == 0
      requires Flooded(Free(walkable), o, range, View(weight), k) && Holds(Stack(toggle), View(weight), range - k)
      modifies weight, stacks[0], stacks[1], heads
      ensures ok <==> |Layer(Free(walkable), o, k + 1)| < MAX_STACK_LEN
      ensures ok ==> heads[toggle] == 0 && heads[1 - toggle] < MAX_STACK_LEN
                     && Flooded(Free(walkable), o, range, View(weight), k + 1)
                     && Holds(Stack(1 - toggle), View(weight), range - (k + 1))
    {
      hide Spreading, Holds, Interior, Bordered, View, Free, Flooded, Within, At, Layer, OnLayer;
      ghost var free := Free(walkable);
      ghost var busy := NOWHERE;
      BorderFacts(walkable);
      SpreadingStart(free, o, range, View(weight), k, Stack(toggle));
      assert Stack(1 - toggle) == [];
      while heads[toggle] > 0
        invariant heads[toggle] < MAX_STACK_LEN && heads[1 - toggle] < MAX_STACK_LEN
        invariant Spreading(free, o, range, View(weight), k, Stack(toggle), Stack(1 - toggle), busy, 4)
        decreases heads[toggle]
      {
        ghost var todo := Stack(toggle);
        Popped(walkable, weight, o, range, k, todo, Stack(1 - toggle), busy);
        var pos := Pop(toggle);
        ok := Visit(pos, toggle, depth, walkable, weight, o, range, k);
        if !ok {
          LayerTooLarge(free, o, k + 1, Stack(1 - toggle), View(weight), depth);
          return false;
        }
        busy := pos;
      }
      assert Stack(toggle) == [];
      LayerComplete(free, o, range, View(weight), k, Stack(1 - toggle), busy);
      ok := true;
    }

    /** Labels every cell within `range` steps of (x, y) with range minus its distance and every other
        cell with -1, whatever order the stacks are popped in. Fails exactly when some layer is too
        large for a stack. */
    method ADiffuse(x: int, y: int, range: int, walkable: array2<bool>, weight: array2<int>) returns (ok: bool)
      requires Valid() && 0 < range <= 32767
      requires walkable.Length0 == weight.Length0 && walkable.Length1 == weight.Length1
      requires Bordered(walkable) && Interior(walkable, Cell(x, y))
      modifies weight, stacks[0], stacks[1], heads
      ensures ok <==> forall n: nat :: 1 <= n <= range ==> |Layer(Free(walkable), Cell(x, y), n)| < MAX_STACK_LEN
      ensures ok ==> Flooded(Free(walkable), Cell(x, y), range, View(weight), range)
    {
      hide Spreading, Holds, Interior, Bordered, View, Free, Flooded, Within, At, Layer;
      ghost var o, free := Cell(x, y), Free(walkable);
      OriginInGrid(walkable, o);
      forall r, c | 0 <= r < weight.Length0 && 0 <= c < weight.Length1 {
        weight[r, c] := -1;
      }
      weight[y, x] := range;
      stacks[0][0] := Cell(x, y);
      heads[0] := 1;
      heads[1] := 0;
      var depth := range - 1;
      var toggle := 0;
      FloodStart(walkable, weight, o, range, Stack(0));
      ghost var k: nat := 0;
      while true
        invariant 0 <= depth && depth == range - k - 1 && 0 <= toggle < 2
        invariant heads[toggle] < MAX_STACK_LEN && heads[1 - toggle] == 0
        invariant Flooded(free, o, range, View(weight), k) && Holds(Stack(toggle), View(weight), range - k)
        invariant forall n: nat :: 1 <= n <= k ==> |Layer(free, o, n)| < MAX_STACK_LEN
        decreases depth
      {
        var fits := SpreadLayer(toggle, depth, walkable, weight, o, range, k);
        if !fits {
          return false;
        }
        toggle := 1 - toggle;
        depth := depth - 1;
        k := k + 1;
        if depth < 0 {
          break;
        }
      }
      ok := true;
    }
  }

  lemma LayerTooLarge(free: set<Cell>, o: Cell, n: nat, s: seq<Cell>, lab: Labels, value: int)
    requires Holds(s, lab, value) && OnLayer(s, free, o, n)
    ensures |Layer(free, o, n)| >= |s|
  {
    hide Layer, OnLayer;
    LayerAtLeast(free, o, n, s);
  }

  lemma LayerComplete(free: set<Cell>, o: Cell, range: int, lab: Labels, k: nat, next: seq<Cell>, busy: Cell)
    requires Spreading(free, o, range, lab, k, [], next, busy, 4)
    ensures Flooded(free, o, range, lab, k + 1) && Holds(next, lab, range - (k + 1))
    ensures |Layer(free, o, k + 1)| == |next|
  {
    hide Spreading, Flooded, Holds, Layer;
    SpreadingDone(free, o, range, lab, k, next, busy);
    StackIsLayer(free, o, range, lab, k + 1, next);
  }

  /** The cell on top of the stack lies inside the grid and carries its layer's label. */
  lemma Popped(walkable: array2<bool>, weight: array2<int>, o: Cell, range: int, k: nat,
               todo: seq<Cell>, next: seq<Cell>, busy: Cell)
    requires walkable.Length0 == weight.Length0 && walkable.Length1 == weight.Length1
    requires Bordered(walkable) && Interior(walkable, o) && todo != []
    requires Spreading(Free(walkable), o, range, View(weight), k, todo, next, busy, 4)
    ensures var c := todo[|todo| - 1];
            && Spreading(Free(walkable), o, range, View(weight), k, todo[..|todo| - 1], next, c, 0)
            && Interior(walkable, c) && weight[c.y, c.x] == range - k
  {
    hide Spreading, Bordered, View, Free, Within;
    var c := todo[|todo| - 1];
    SpreadingPop(Free(walkable), o, range, View(weight), k, todo, next, busy);
    ReachedIsInterior(walkable, o, k, c);
    Look(walkable, weight, c);
  }

  lemma BorderFacts(walkable: array2<bool>)
    requires Bordered(walkable)
    ensures forall c :: c in Free(walkable) ==> c.x >= 0
  {
  }

  lemma OriginInGrid(walkable: array2<bool>, o: Cell)
    requires Interior(walkable, o)
    ensures 0 <= o.x < walkable.Length1 && 0 <= o.y < walkable.Length0
  {
  }

  lemma ReachedIsInterior(walkable: array2<bool>, o: Cell, n: nat, c: Cell)
    requires Bordered(walkable) && Interior(walkable, o) && Within(Free(walkable), o, n, c)
    ensures Interior(walkable, c)
  {
    WithinIsCell(Free(walkable), o, n, c);
  }

  lemma FloodStart(walkable: array2<bool>, weight: array2<int>, o: Cell, range: int, s: seq<Cell>)
    requires walkable.Length0 == weight.Length0 && walkable.Length1 == weight.Length1
    requires Interior(walkable, o) && weight[o.y, o.x] == range > 0 && s == [o]
    requires forall r, c :: 0 <= r < weight.Length0 && 0 <= c < weight.Length1 && !(r == o.y && c == o.x) ==> weight[r, c] == -1
    ensures Flooded(Free(walkable), o, range, View(weight), 0) && Holds(s, View(weight), range)
  {
  }

  /** What is on the stack of the layer being filled. */
  lemma NextLayer(free: set<Cell>, o: Cell, range: int, lab: Labels, k: nat,
                  todo: seq<Cell>, next: seq<Cell>, busy: Cell, n: int)
    requires Spreading(free, o, range, lab, k, todo, next, busy, n)
    ensures Holds(next, lab, range - k - 1)
    ensures OnLayer(next, free, o, k + 1)
  {
    assert forall i :: 0 <= i < |next| ==> next[i] in next;
  }

  // ---------- route extraction ----------

  /** A route of n steps from o: adjacent cells, each one step further from o than the one before. */
  ghost predicate ShortestRoute(free: set<Cell>, o: Cell, to: Cell, path: seq<Cell>) {
    && path != [] && path[0] == o && path[|path| - 1] == to
    && (forall i :: 0 <= i < |path| - 1 ==> Adjacent(path[i], path[i + 1]))
    && (forall i :: 0 <= i < |path| ==> At(free, o, i, path[i]))
  }

  /** The tail of such a route, from distance n on. */
  ghost predicate RouteTail(free: set<Cell>, o: Cell, to: Cell, n: nat, path: seq<Cell>) {
    && path != [] && path[|path| - 1] == to
    && (forall i :: 0 <= i < |path| - 1 ==> Adjacent(path[i], path[i + 1]))
    && (forall i :: 0 <= i < |path| ==> At(free, o, n + i, path[i]))
  }

  lemma TailGrows(free: set<Cell>, o: Cell, to: Cell, n: nat, path: seq<Cell>, b: Cell)
    requires RouteTail(free, o, to, n + 1, path) && Adjacent(b, path[0]) && At(free, o, n, b)
    ensures RouteTail(free, o, to, n, [b] + path)
  {
    var p := [b] + path;
    forall i | 0 <= i < |p|
      ensures At(free, o, n + i, p[i])
    {
      assert i > 0 ==> p[i] == path[i - 1] && At(free, o, n + 1 + (i - 1), path[i - 1]);
    }
    forall i | 0 <= i < |p| - 1
      ensures Adjacent(p[i], p[i + 1])
    {
      assert i > 0 ==> p[i] == path[i - 1] && p[i + 1] == path[i];
    }
  }

  /** The cell the climb goes to from c: the first of the four neighbours at distance n. */
  ghost predicate Leads(free: set<Cell>, o: Cell, n: nat, c: Cell, h: Cell) {
    exists i :: 0 <= i < 4 && h == Neighbour(c, i) && IsFirst(free, o, n, c, i)
  }

  ghost predicate IsFirst(free: set<Cell>, o: Cell, n: nat, c: Cell, i: int) {
    At(free, o, n, Neighbour(c, i)) && forall j :: 0 <= j < i ==> !At(free, o, n, Neighbour(c, j))
  }

  /** The route the climb from `to` takes down to distance n. */
  ghost predicate Climbed(free: set<Cell>, o: Cell, to: Cell, n: nat, path: seq<Cell>) {
    && RouteTail(free, o, to, n, path)
    && forall i :: 0 <= i < |path| - 1 ==> Leads(free, o, n + i, path[i + 1], path[i])
  }

  lemma ClimbedGrows(free: set<Cell>, o: Cell, to: Cell, n: nat, path: seq<Cell>, b: Cell)
    requires Climbed(free, o, to, n + 1, path) && Leads(free, o, n, path[0], b)
    ensures Climbed(free, o, to, n, [b] + path)
  {
    hide At;
    var p := [b] + path;
    LeadsNear(free, o, n, path[0], b);
    TailGrows(free, o, to, n, path, b);
    forall i | 0 <= i < |p| - 1
      ensures Leads(free, o, n + i, p[i + 1], p[i])
    {
      assert i > 0 ==> p[i] == path[i - 1] && p[i + 1] == path[i] && Leads(free, o, n + 1 + (i - 1), path[i], path[i - 1]);
    }
  }

  lemma LeadsNear(free: set<Cell>, o: Cell, n: nat, c: Cell, h: Cell)
    requires Leads(free, o, n, c, h)
    ensures At(free, o, n, h) && Adjacent(h, c)
  {
    assert Adjacent(c, h);
    AdjacentSymmetric(c, h);
  }

  /** The climb has no choice. */
  lemma LeadsUnique(free: set<Cell>, o: Cell, n: nat, c: Cell, h: Cell, k: Cell)
    requires Leads(free, o, n, c, h) && Leads(free, o, n, c, k)
    ensures h == k
  {
    hide At;
    var i :| 0 <= i < 4 && h == Neighbour(c, i) && IsFirst(free, o, n, c, i);
    var j :| 0 <= j < 4 && k == Neighbour(c, j) && IsFirst(free, o, n, c, j);
    assert !(i < j) && !(j < i);
  }

  /** From a cell further out it always finds a way on. */
  lemma LeadsOn(free: set<Cell>, o: Cell, n: nat, c: Cell) returns (h: Cell)
    requires At(free, o, n + 1, c)
    ensures Leads(free, o, n, c, h)
  {
    var b := NearerNeighbour(free, o, n, c);
    hide At;
    AdjacentSymmetric(b, c);
    var j :| 0 <= j < 4 && b == Neighbour(c, j);
    var i := 0;
    while !At(free, o, n, Neighbour(c, i))
      invariant 0 <= i <= j
      invariant forall k :: 0 <= k < i ==> !At(free, o, n, Neighbour(c, k))
      decreases j - i
    {
      i := i + 1;
    }
    h := Neighbour(c, i);
    assert IsFirst(free, o, n, c, i);
  }

  /** Among the neighbours of a cell at distance n + 1, one at distance n has a larger label, and the
      neighbours with a larger label are exactly those at distance n. */
  lemma Uphill(free: set<Cell>, o: Cell, range: int, lab: Labels, n: nat, c: Cell)
    requires range > n && Flooded(free, o, range, lab, range) && At(free, o, n + 1, c) && c in lab
    requires forall i :: 0 <= i < 4 ==> Neighbour(c, i) in lab
    ensures lab[c] == range - (n + 1)
    ensures exists i :: 0 <= i < 4 && lab[Neighbour(c, i)] > lab[c]
    ensures forall i :: 0 <= i < 4 ==> (lab[Neighbour(c, i)] > lab[c] <==> At(free, o, n, Neighbour(c, i)))
  {
    WithinMonotone(free, o, n + 1, range, c);
    AtUnique(free, o, n + 1, range - lab[c], c);
    var b := NearerNeighbour(free, o, n, c);
    AdjacentSymmetric(b, c);
    var j :| 0 <= j < 4 && b == Neighbour(c, j);
    WithinMonotone(free, o, n, range, b);
    AtUnique(free, o, n, range - lab[b], b);
    forall i | 0 <= i < 4
      ensures lab[Neighbour(c, i)] > lab[c] <==> At(free, o, n, Neighbour(c, i))
    {
      var v := Neighbour(c, i);
      if lab[v] > lab[c] {
        assert Adjacent(c, v);
        AdjacentSymmetric(c, v);
        NotMuchNearer(free, o, n, range - lab[v], v, c);
      } else if At(free, o, n, v) {
        LabelOf(free, o, range, lab, n, v);
      }
    }
  }

  lemma LabelOf(free: set<Cell>, o: Cell, range: int, lab: Labels, n: nat, c: Cell)
    requires range >= n && Flooded(free, o, range, lab, range) && At(free, o, n, c) && c in lab
    ensures lab[c] == range - n
  {
    WithinMonotone(free, o, n, range, c);
    AtUnique(free, o, n, range - lab[c], c);
  }

  /** Labels of neighbours differ by at most one: a free cell is at most one step further than any
      cell beside it. */
  lemma NotMuchNearer(free: set<Cell>, o: Cell, n: nat, m: nat, v: Cell, c: Cell)
    requires At(free, o, n + 1, c) && Adjacent(v, c) && At(free, o, m, v) && m <= n
    ensures m == n
  {
    var b := NearerNeighbour(free, o, n, c);
    assert Within(free, o, m + 1, c);
    if m + 1 <= n {
      WithinMonotone(free, o, m + 1, n, c);
    }
  }

  /** Reading the labels of a cell and its neighbours. */
  lemma LookAround(walkable: array2<bool>, weight: array2<int>, c: Cell)
    requires walkable.Length0 == weight.Length0 && walkable.Length1 == weight.Length1
    requires Interior(walkable, c)
    ensures c in View(weight) && View(weight)[c] == weight[c.y, c.x]
    ensures forall i :: 0 <= i < 4 ==>
              var b := Neighbour(c, i);
              && 0 <= b.x < weight.Length1 && 0 <= b.y < weight.Length0
              && b in View(weight) && View(weight)[b] == weight[b.y, b.x]
  {
  }

  /** ASearchTo on the labels of a flood from o, for any start and target in the grid. Returns ok = false
      where the source's assertion on the number of steps fails, as it does for every start the flood did
      not reach; the route is pushed in front of the given list. It is the one the climb from the target
      takes to the distance of the start; its first cell is the start itself when that is o. */
  method ASearchTo(from: Cell, to0: Cell, route0: seq<Cell>, maxStep: int,
                   walkable: array2<bool>, weight: array2<int>, ghost o: Cell, ghost range: int)
    returns (step: int, route: seq<Cell>, ok: bool, ghost near: nat, ghost far: nat, ghost path: seq<Cell>)
    requires walkable.Length0 == weight.Length0 && walkable.Length1 == weight.Length1
    requires Bordered(walkable) && Interior(walkable, o)
    requires range > 0 && Flooded(Free(walkable), o, range, View(weight), range)
    requires 0 <= from.x < weight.Length1 && 0 <= from.y < weight.Length0
    requires 0 <= to0.x < weight.Length1 && 0 <= to0.y < weight.Length0
    ensures !Within(Free(walkable), o, range, to0) ==> ok && step == 0 && route == route0
    ensures Within(Free(walkable), o, range, to0) && !Within(Free(walkable), o, range, from) ==> !ok
    ensures Within(Free(walkable), o, range, to0) && Within(Free(walkable), o, range, from) ==>
              && At(Free(walkable), o, near, from) && At(Free(walkable), o, far, to0) && step == far - near
              && (ok <==> 0 < step <= maxStep)
              && (ok ==> Climbed(Free(walkable), o, to0, near, path) && route == path + route0 && |path| == step + 1)
              && (ok && from == o ==> ShortestRoute(Free(walkable), from, to0, path))
  {
    hide Interior, Bordered, View, Free, Within, At, ShortestRoute, RouteTail, Climbed, Flooded, Leads;
    ghost var free, lab := Free(walkable), View(weight);
    ok, route, path, near, far := true, route0, [], 0, 0;
    var to := to0;
    Look(walkable, weight, to);
    Look(walkable, weight, from);
    LabelMeaning(free, o, range, lab, from);
    LabelMeaning(free, o, range, lab, to);
    var depth := weight[to.y, to.x];
    if depth == -1 {
      step := 0;
      return;
    }
    step := weight[from.y, from.x] - depth;
    if weight[from.y, from.x] != -1 {
      near, far := range - weight[from.y, from.x], range - depth;
    }
    if !(step > 0 && step <= maxStep) {
      ok := false;
      return;
    }
    path := [to];
    route := [to] + route;
    ClimbStart(free, o, to, far);
    while depth != weight[from.y, from.x]
      invariant depth <= range - near == weight[from.y, from.x] && range - depth <= range
      invariant path != [] && path[0] == to && |path| == far - (range - depth) + 1
      invariant Climbed(free, o, to0, range - depth, path)
      invariant route == path + route0
      decreases range - near - depth
    {
      ghost var n: nat := range - depth - 1;
      TailHead(free, o, to0, n + 1, path);
      AtIsInterior(walkable, o, n + 1, to);
      LookAround(walkable, weight, to);
      Uphill(free, o, range, lab, n, to);
      var i := 0;
      while i < 4
        invariant 0 <= i < 4
        invariant forall k :: 0 <= k < i ==> !At(free, o, n, Neighbour(to, k)) && lab[Neighbour(to, k)] <= depth
        decreases 4 - i
      {
        var npos := Cell(to.x + Dx(i), to.y + Dy(i));
        assert npos == Neighbour(to, i);
        if weight[npos.y, npos.x] > depth {
          FirstLeads(free, o, n, to, i);
          ClimbedGrows(free, o, to0, n, path, npos);
          assert [npos] + (path + route0) == ([npos] + path) + route0;
          route := [npos] + route;
          path := [npos] + path;
          to := npos;
          break;
        }
        i := i + 1;
      }
      depth := depth + 1;
    }
    if from == o {
      OriginIsNear(free, o, near);
      RouteComplete(free, o, to0, path);
    }
  }

  lemma FirstLeads(free: set<Cell>, o: Cell, n: nat, c: Cell, i: int)
    requires 0 <= i < 4 && At(free, o, n, Neighbour(c, i))
    requires forall k :: 0 <= k < i ==> !At(free, o, n, Neighbour(c, k))
    ensures Leads(free, o, n, c, Neighbour(c, i))
  {
    assert IsFirst(free, o, n, c, i);
  }

  lemma OriginIsNear(free: set<Cell>, o: Cell, n: nat)
    requires At(free, o, n, o)
    ensures n == 0
  {
    assert At(free, o, 0, o);
    AtUnique(free, o, n, 0, o);
  }

  // ---------- where a route begins ----------

  /** The target alone decides the route: the start only says how far it goes. */
  lemma {:induction false} RouteDetermined(free: set<Cell>, o: Cell, to: Cell, n: nat, p: seq<Cell>, q: seq<Cell>)
    requires Climbed(free, o, to, n, p) && Climbed(free, o, to, n, q)
    ensures p == q
    decreases |p|
  {
    hide At, Leads, Adjacent;
    SameLength(free, o, to, n, p, q);
    if |p| == 1 {
      assert p == [to] && q == [to];
    } else {
      ClimbedTail(free, o, to, n, p);
      ClimbedTail(free, o, to, n, q);
      RouteDetermined(free, o, to, n + 1, p[1..], q[1..]);
      assert p[1] == p[1..][0] == q[1..][0] == q[1];
      LeadsUnique(free, o, n, p[1], p[0], q[0]);
      assert p == [p[0]] + p[1..] && q == [q[0]] + q[1..];
    }
  }

  lemma SameLength(free: set<Cell>, o: Cell, to: Cell, n: nat, p: seq<Cell>, q: seq<Cell>)
    requires RouteTail(free, o, to, n, p) && RouteTail(free, o, to, n, q)
    ensures |p| == |q|
  {
    assert At(free, o, n + (|p| - 1), p[|p| - 1]) && At(free, o, n + (|q| - 1), q[|q| - 1]);
    AtUnique(free, o, n + (|p| - 1), n + (|q| - 1), to);
  }

  lemma ClimbedTail(free: set<Cell>, o: Cell, to: Cell, n: nat, path: seq<Cell>)
    requires Climbed(free, o, to, n, path) && |path| > 1
    ensures Climbed(free, o, to, n + 1, path[1..]) && Leads(free, o, n, path[1], path[0])
    ensures At(free, o, n + 1, path[1])
  {
    hide At, Leads, Adjacent;
    assert Leads(free, o, n + 0, path[0 + 1], path[0]);
    assert At(free, o, n + 1, path[1]);
    var p := path[1..];
    forall i | 0 <= i < |p|
      ensures At(free, o, n + 1 + i, p[i])
    {
      assert At(free, o, n + (i + 1), path[i + 1]);
    }
    forall i | 0 <= i < |p| - 1
      ensures Adjacent(p[i], p[i + 1]) && Leads(free, o, n + 1 + i, p[i + 1], p[i])
    {
      assert Adjacent(path[i + 1], path[i + 1 + 1]) && Leads(free, o, n + (i + 1), path[i + 1 + 1], path[i + 1]);
    }
  }

  /** Every target as far out as n + 1 or further has a route: of the cells at distance n exactly one
      begins it. */
  lemma {:induction false} RouteExists(free: set<Cell>, o: Cell, to: Cell, n: nat, step: nat) returns (path: seq<Cell>)
    requires At(free, o, n + step, to)
    ensures Climbed(free, o, to, n, path) && |path| == step + 1
    decreases step
  {
    hide At, Leads, RouteTail;
    if step == 0 {
      ClimbStart(free, o, to, n);
      path := [to];
    } else {
      path := RouteExists(free, o, to, n + 1, step - 1);
      TailHead(free, o, to, n + 1, path);
      var h := LeadsOn(free, o, n, path[0]);
      ClimbedGrows(free, o, to, n, path, h);
      path := [h] + path;
    }
  }

  /** All routes from distance n begin at s exactly when s is the first nearer neighbour of every cell
      one step further out. */
  lemma StartsEveryRoute(free: set<Cell>, o: Cell, n: nat, s: Cell)
    ensures (forall to, path :: Climbed(free, o, to, n, path) && |path| > 1 ==> path[0] == s) <==>
            (forall c :: At(free, o, n + 1, c) ==> Leads(free, o, n, c, s))
  {
    hide At, Leads, Climbed;
    if forall c :: At(free, o, n + 1, c) ==> Leads(free, o, n, c, s) {
      forall to, path | Climbed(free, o, to, n, path) && |path| > 1
        ensures path[0] == s
      {
        ClimbedTail(free, o, to, n, path);
        LeadsUnique(free, o, n, path[1], path[0], s);
      }
    }
    if forall to, path :: Climbed(free, o, to, n, path) && |path| > 1 ==> path[0] == s {
      forall c | At(free, o, n + 1, c)
        ensures Leads(free, o, n, c, s)
      {
        var path := RouteExists(free, o, c, n, 1);
        ClimbedTail(free, o, c, n, path);
        RouteTarget(free, o, c, n, path);
      }
    }
  }

  lemma RouteTarget(free: set<Cell>, o: Cell, to: Cell, n: nat, path: seq<Cell>)
    requires Climbed(free, o, to, n, path)
    ensures path != [] && path[|path| - 1] == to
  {
  }

  /** A route begins at a cell from which the target is no further than the labels say. */
  lemma {:induction false} StartOnRoute(free: set<Cell>, o: Cell, to: Cell, near: nat, path: seq<Cell>)
    requires RouteTail(free, o, to, near, path)
    ensures Within(free, path[0], |path| - 1, to)
    decreases |path|
  {
    hide At, Within;
    if |path| == 1 {
      WithinNone(free, to);
    } else {
      var n, front := |path|, path[..|path| - 1];
      assert At(free, o, near + (n - 1), path[n - 1]);
      assert forall i :: 0 <= i < |front| ==> At(free, o, near + i, path[i]);
      StartOnRoute(free, o, path[n - 2], near, front);
      FartherIsFree(free, o, near + (n - 1), to);
      assert Adjacent(path[n - 2], path[n - 2 + 1]);
      WithinNext(free, path[0], n - 2, path[n - 2], to);
    }
  }

  /** From every cell at that distance from which the target is no further than the labels say, there is
      a way out to the target. */
  lemma {:induction false} WayFrom(free: set<Cell>, o: Cell, to: Cell, near: nat, step: nat, h: Cell) returns (path: seq<Cell>)
    requires At(free, o, near, h) && At(free, o, near + step, to) && Within(free, h, step, to)
    ensures RouteTail(free, o, to, near, path) && path[0] == h && |path| == step + 1
    decreases step
  {
    if step == 0 {
      path := [h];
    } else {
      if Within(free, h, step - 1, to) {
        WithinFrom(free, o, near, h, step - 1, to);
        assert false;
      }
      var b :| Adjacent(b, to) && Within(free, h, step - 1, b);
      WithinFrom(free, o, near, h, step - 1, b);
      BesideIsNext(free, o, near + (step - 1), b, to);
      path := WayFrom(free, o, b, near, step - 1, h);
      TailExtends(free, o, b, near, path, to);
      path := path + [to];
    }
  }

  lemma {:induction false} WithinFrom(free: set<Cell>, o: Cell, near: nat, h: Cell, step: nat, c: Cell)
    requires Within(free, o, near, h) && Within(free, h, step, c)
    ensures Within(free, o, near + step, c)
    decreases step
  {
    if step == 0 {
    } else if Within(free, h, step - 1, c) {
      WithinFrom(free, o, near, h, step - 1, c);
      WithinMonotone(free, o, near + (step - 1), near + step, c);
    } else {
      var b :| Adjacent(b, c) && Within(free, h, step - 1, b);
      WithinFrom(free, o, near, h, step - 1, b);
      WithinNext(free, o, near + (step - 1), b, c);
    }
  }

  /** A cell within n steps beside one at distance n + 1 is at distance n. */
  lemma BesideIsNext(free: set<Cell>, o: Cell, n: nat, b: Cell, c: Cell)
    requires Within(free, o, n, b) && Adjacent(b, c) && At(free, o, n + 1, c)
    ensures At(free, o, n, b)
  {
    var near := NearerNeighbour(free, o, n, c);
    assert n > 0 && Within(free, o, n - 1, b) ==> Within(free, o, n, c);
  }

  lemma TailExtends(free: set<Cell>, o: Cell, b: Cell, n: nat, path: seq<Cell>, to: Cell)
    requires RouteTail(free, o, b, n, path) && Adjacent(b, to) && At(free, o, n + |path|, to)
    ensures RouteTail(free, o, to, n, path + [to])
  {
    hide At, Adjacent;
    var p := path + [to];
    forall i | 0 <= i < |p|
      ensures At(free, o, n + i, p[i])
    {
      assert i < |path| ==> p[i] == path[i] && At(free, o, n + i, path[i]);
    }
  }

  /** One target, whatever the order of the neighbours: every route out to it from distance `near` begins
      at s exactly when s is the only cell there from which the target is no further than the labels say. */
  lemma StartIsSure(free: set<Cell>, o: Cell, to: Cell, near: nat, step: nat, s: Cell)
    requires At(free, o, near + step, to)
    ensures (forall path :: RouteTail(free, o, to, near, path) ==> path[0] == s) <==>
            (forall h :: At(free, o, near, h) && Within(free, h, step, to) ==> h == s)
  {
    hide At, Within;
    if forall h :: At(free, o, near, h) && Within(free, h, step, to) ==> h == s {
      forall path | RouteTail(free, o, to, near, path)
        ensures path[0] == s
      {
        StartOnRoute(free, o, to, near, path);
        assert At(free, o, near + (|path| - 1), path[|path| - 1]) && At(free, o, near + 0, path[0]);
        AtUnique(free, o, near + step, near + (|path| - 1), to);
      }
    }
    if forall path :: RouteTail(free, o, to, near, path) ==> path[0] == s {
      forall h | At(free, o, near, h) && Within(free, h, step, to)
        ensures h == s
      {
        var path := WayFrom(free, o, to, near, step, h);
      }
    }
  }

  /** Four cells in a row, flooded from the second. */
  function Row(): set<Cell> {
    {Cell(1, 1), Cell(2, 1), Cell(3, 1), Cell(4, 1)}
  }

  lemma BesideOrigin(free: set<Cell>, o: Cell, c: Cell, i: int)
    requires 0 <= i < 4 && c == Neighbour(o, i) && c in free
    ensures At(free, o, 1, c)
  {
    assert Adjacent(o, c) && Within(free, o, 0, o);
  }

  lemma TwoFromOrigin(free: set<Cell>, o: Cell, b: Cell, c: Cell)
    requires At(free, o, 1, b) && Adjacent(b, c) && c in free && c != o && !Adjacent(o, c)
    ensures At(free, o, 2, c)
  {
    hide Adjacent;
    WithinNext(free, o, 1, b, c);
  }

  lemma FarApart(a: Cell, b: Cell)
    requires b.x > a.x + 1
    ensures !Adjacent(a, b)
  {
  }

  lemma NextTo(a: Cell, b: Cell)
    requires b == Cell(a.x + 1, a.y)
    ensures b == Neighbour(a, 1) && a == Neighbour(b, 3) && Adjacent(a, b)
  {
  }

  lemma RowDistances(free: set<Cell>, a: Cell, o: Cell, b: Cell, t: Cell)
    requires a in free && b in free && t in free
    requires o == Cell(a.x + 1, a.y) && b == Cell(o.x + 1, o.y) && t == Cell(b.x + 1, b.y)
    ensures At(free, o, 1, a) && At(free, o, 1, b) && At(free, o, 2, t)
  {
    hide At, Adjacent;
    NextTo(a, o);
    NextTo(o, b);
    NextTo(b, t);
    FarApart(o, t);
    BesideOrigin(free, o, a, 3);
    BesideOrigin(free, o, b, 1);
    TwoFromOrigin(free, o, b, t);
  }

  /** A route that misses its start: from the first cell to the fourth. The start is as far from the
      origin as the third cell, and it is there that the only route begins. */
  lemma StartMissed(path: seq<Cell>)
    ensures At(Row(), Cell(2, 1), 1, Cell(1, 1)) && At(Row(), Cell(2, 1), 2, Cell(4, 1))
    ensures Climbed(Row(), Cell(2, 1), Cell(4, 1), 1, path) <==> path == [Cell(3, 1), Cell(4, 1)]
  {
    hide At, Climbed;
    var free, o, t := Row(), Cell(2, 1), Cell(4, 1);
    RowDistances(free, Cell(1, 1), o, Cell(3, 1), t);
    var p := RouteExists(free, o, t, 1, 1);
    NearRow(free, o, p);
    if Climbed(free, o, t, 1, path) {
      RouteDetermined(free, o, t, 1, path, p);
    }
  }

  /** Four cells in a square. */
  function Square(): set<Cell> {
    {Cell(1, 1), Cell(2, 1), Cell(1, 2), Cell(2, 2)}
  }

  /** A neighbour at distance 1 is first if those before it are no cells of the map. */
  lemma FirstInMap(free: set<Cell>, o: Cell, t: Cell, i: int, back: int)
    requires 0 <= i < 4 && 0 <= back < 4 && Neighbour(t, i) in free && Neighbour(t, i) == Neighbour(o, back)
    requires forall j :: 0 <= j < i ==> Neighbour(t, j) !in free && Neighbour(t, j) != o
    ensures Leads(free, o, 1, t, Neighbour(t, i))
  {
    BesideOrigin(free, o, Neighbour(t, i), back);
    forall j | 0 <= j < i
      ensures !At(free, o, 1, Neighbour(t, j))
    {
      if At(free, o, 1, Neighbour(t, j)) {
        WithinIsCell(free, o, 1, Neighbour(t, j));
      }
    }
    hide At;
    FirstLeads(free, o, 1, t, i);
  }

  /** Where two neighbours are equally near, the order is below, right, above, left: from each corner of
      the square the climb to the opposite one goes as told. */
  lemma CornerTurns()
    ensures Leads(Square(), Cell(1, 1), 1, Cell(2, 2), Cell(2, 1)) && Leads(Square(), Cell(2, 2), 1, Cell(1, 1), Cell(1, 2))
    ensures Leads(Square(), Cell(2, 1), 1, Cell(1, 2), Cell(2, 2)) && Leads(Square(), Cell(1, 2), 1, Cell(2, 1), Cell(2, 2))
  {
    NeighboursOf(Cell(1, 1));
    NeighboursOf(Cell(2, 1));
    NeighboursOf(Cell(1, 2));
    NeighboursOf(Cell(2, 2));
    hide Leads, Neighbour;
    FirstInMap(Square(), Cell(1, 1), Cell(2, 2), 2, 1);
    FirstInMap(Square(), Cell(2, 2), Cell(1, 1), 0, 3);
    FirstInMap(Square(), Cell(2, 1), Cell(1, 2), 1, 0);
    FirstInMap(Square(), Cell(1, 2), Cell(2, 1), 0, 1);
  }

  lemma NeighboursOf(c: Cell)
    ensures Neighbour(c, 0) == Cell(c.x, c.y + 1) && Neighbour(c, 1) == Cell(c.x + 1, c.y)
    ensures Neighbour(c, 2) == Cell(c.x, c.y - 1) && Neighbour(c, 3) == Cell(c.x - 1, c.y)
  {
  }

  /** So the one route from the first corner to the opposite one goes by the cell beside the first. */
  lemma DiagonalRoute(path: seq<Cell>)
    ensures At(Square(), Cell(1, 1), 2, Cell(2, 2))
    ensures Climbed(Square(), Cell(1, 1), Cell(2, 2), 0, path) <==> path == [Cell(1, 1), Cell(2, 1), Cell(2, 2)]
  {
    var free, o, b, t := Square(), Cell(1, 1), Cell(2, 1), Cell(2, 2);
    hide At, Leads, Climbed;
    CornerDistance(free, o, b, t);
    CornerTurns();
    hide Square;
    var p := RouteExists(free, o, t, 0, 2);
    ThreeCells(free, o, t, b, p);
    if Climbed(free, o, t, 0, path) {
      RouteDetermined(free, o, t, 0, path, p);
    }
  }

  lemma CornerDistance(free: set<Cell>, o: Cell, b: Cell, t: Cell)
    requires b in free && t in free && b == Cell(o.x + 1, o.y) && t == Cell(b.x, b.y + 1)
    ensures At(free, o, 2, t)
  {
    NeighboursOf(o);
    NeighboursOf(b);
    assert Adjacent(b, t) by {
      assert t == Neighbour(b, 0);
    }
    CornerApart(o, t);
    hide At, Adjacent, Neighbour;
    BesideOrigin(free, o, b, 1);
    TwoFromOrigin(free, o, b, t);
  }

  lemma CornerApart(a: Cell, b: Cell)
    requires a.x != b.x && a.y != b.y
    ensures !Adjacent(a, b)
  {
  }

  lemma ThreeCells(free: set<Cell>, o: Cell, t: Cell, b: Cell, p: seq<Cell>)
    requires Climbed(free, o, t, 0, p) && |p| == 3 && Leads(free, o, 1, t, b)
    ensures p == [o, b, t]
  {
    hide Leads;
    RouteTarget(free, o, t, 0, p);
    assert Leads(free, o, 0 + 1, p[1 + 1], p[1]);
    LeadsUnique(free, o, 1, t, p[1], b);
    assert At(free, o, 0 + 0, p[0]);
  }

  lemma AdjacentGap(a: Cell, b: Cell)
    requires Adjacent(a, b)
    ensures a.x == b.x || a.y == b.y
    ensures a.x == b.x ==> a.y == b.y + 1 || a.y == b.y - 1
    ensures a.y == b.y ==> a.x == b.x + 1 || a.x == b.x - 1
  {
  }

  lemma NearRow(free: set<Cell>, o: Cell, p: seq<Cell>)
    requires free == Row() && o == Cell(2, 1) && Climbed(free, o, Cell(4, 1), 1, p) && |p| == 2
    ensures p == [Cell(3, 1), Cell(4, 1)]
  {
    hide Within, Adjacent, Leads;
    FirstTwo(free, o, Cell(4, 1), p);
    AdjacentGap(p[0], p[1]);
    hide At, Climbed;
    assert p[0].y == 1 && 1 <= p[0].x <= 4;
  }

  lemma FirstTwo(free: set<Cell>, o: Cell, to: Cell, p: seq<Cell>)
    requires Climbed(free, o, to, 1, p) && |p| == 2
    ensures p[1] == to && Adjacent(p[0], p[1]) && (p[0] == o || p[0] in free)
  {
    hide Within, Adjacent, Leads;
    assert At(free, o, 1 + 0, p[0]) && Adjacent(p[0], p[0 + 1]);
    WithinIsCell(free, o, 1, p[0]);
  }

  lemma WithinNone(free: set<Cell>, o: Cell)
    ensures Within(free, o, 0, o)
  {
  }

  lemma FartherIsFree(free: set<Cell>, o: Cell, n: nat, c: Cell)
    requires At(free, o, n, c) && n > 0
    ensures c in free
  {
  }

  lemma WithinNext(free: set<Cell>, o: Cell, n: nat, b: Cell, c: Cell)
    requires Within(free, o, n, b) && Adjacent(b, c) && c in free
    ensures Within(free, o, n + 1, c)
  {
  }

  lemma LabelMeaning(free: set<Cell>, o: Cell, range: int, lab: Labels, c: Cell)
    requires range > 0 && Flooded(free, o, range, lab, range) && c in lab
    ensures lab[c] == -1 <==> !Within(free, o, range, c)
    ensures lab[c] != -1 ==> 0 <= lab[c] <= range && At(free, o, range - lab[c], c)
  {
  }

  lemma ClimbStart(free: set<Cell>, o: Cell, to: Cell, n: nat)
    requires At(free, o, n, to)
    ensures Climbed(free, o, to, n, [to])
  {
  }

  lemma TailHead(free: set<Cell>, o: Cell, to: Cell, n: nat, path: seq<Cell>)
    requires Climbed(free, o, to, n, path)
    ensures path != [] && At(free, o, n, path[0])
  {
    assert At(free, o, n + 0, path[0]);
  }

  lemma AtIsInterior(walkable: array2<bool>, o: Cell, n: nat, c: Cell)
    requires Bordered(walkable) && Interior(walkable, o) && At(Free(walkable), o, n, c)
    ensures Interior(walkable, c)
  {
    ReachedIsInterior(walkable, o, n, c);
  }

  lemma RouteComplete(free: set<Cell>, o: Cell, to: Cell, path: seq<Cell>)
    requires Climbed(free, o, to, 0, path)
    ensures ShortestRoute(free, o, to, path)
  {
    assert At(free, o, 0 + 0, path[0]);
    assert forall i :: 0 <= i < |path| ==> At(free, o, 0 + i, path[i]) && 0 + i == i;
  }
}
