/** The array heap of dev/algorithmic/src/ob_path_search.cpp: Queue, QueueTail, PushToQueue and
    ShrinkQueue. Slot 0 is never written and holds distance 0, so sift-up needs no bounds test. */
module PathQueue {

  const MAX_QUEUE_LEN := 2048

  datatype Node = Node(pos: nat, distance: int)

  /** The live part of the array, with the sentinel at index 0. */
  ghost predicate Heap(q: seq<Node>) {
    && |q| > 0
    && q[0].distance == 0
    && forall j :: 1 <= j < |q| ==> q[j / 2].distance <= q[j].distance
  }

  ghost predicate Open(q: multiset<Node>, p: nat) {
    exists n :: n in q && n.pos == p
  }

  /** The root of the heap has the smallest key. */
  lemma {:induction false} RootIsMinimum(q: seq<Node>, j: nat)
    requires Heap(q) && 1 <= j < |q|
    ensures q[1].distance <= q[j].distance
    ensures 0 <= q[j].distance
    decreases j
  {
    if j == 1 {
      assert q[j / 2].distance == 0;
    } else {
      RootIsMinimum(q, j / 2);
    }
  }

  lemma RemoveRoot(q: seq<Node>)
    requires |q| >= 2
    ensures |q| > 2 ==> multiset(q[1 := q[|q| - 1]][..|q| - 1][1..]) == multiset(q[1..]) - multiset{q[1]}
    ensures |q| == 2 ==> multiset(q[1..]) == multiset{q[1]}
  {
    var last := q[|q| - 1];
    if |q| > 2 {
      var mid := q[2..|q| - 1];
      assert q[1..] == [q[1]] + mid + [last];
      assert q[1 := last][..|q| - 1][1..] == [last] + mid;
    } else {
      assert q[1..] == [q[1]];
    }
  }

  lemma SwapKeepsMultiset<T>(s: seq<T>, i: nat, j: nat)
    requires i < |s| && j < |s|
    ensures multiset(s[i := s[j]][j := s[i]]) == multiset(s)
  {
  }

  /** The entries queued in the first `tail` slots after the sentinel. */
  ghost function Bag(a: seq<Node>, tail: nat): multiset<Node>
    requires tail < |a|
  {
    multiset(a[1..tail + 1])
  }

  /** Moving the hole from i to j, with the entry at j filling i, keeps the bag. */
  lemma BagMovesHole(a: seq<Node>, tail: nat, i: nat, j: nat, x: Node)
    requires 1 <= i <= tail < |a| && 1 <= j <= tail && i != j
    ensures Bag(a[i := a[j]][j := x], tail) == Bag(a[i := x], tail)
  {
    var s := a[i := x][1..tail + 1];
    SwapKeepsMultiset(s, i - 1, j - 1);
    assert a[i := a[j]][j := x][1..tail + 1] == s[i - 1 := s[j - 1]][j - 1 := s[i - 1]];
  }

  // ---------- sift-up ----------

  /** Every entry except the one at c is in order with its parent, and the children of c are in
      order with c's parent: what is left to repair while an entry moves up. */
  ghost predicate UpTo(q: seq<Node>, c: nat) {
    && 1 <= c < |q|
    && q[0].distance == 0
    && (forall j :: 1 <= j < |q| && j != c ==> q[j / 2].distance <= q[j].distance)
    && (forall j :: 1 <= j < |q| && j / 2 == c ==> q[c / 2].distance <= q[j].distance)
  }

  lemma UpStart(q: seq<Node>, n: Node)
    requires Heap(q)
    ensures UpTo(q + [n], |q|)
  {
  }

  lemma UpStep(q: seq<Node>, c: nat)
    requires UpTo(q, c) && c > 1 && q[c / 2].distance > q[c].distance
    ensures UpTo(q[c := q[c / 2]][c / 2 := q[c]], c / 2)
  {
    var p := c / 2;
    var r := q[c := q[p]][p := q[c]];
    forall j | 1 <= j < |r| && j != p
      ensures r[j / 2].distance <= r[j].distance
    {
      assert j / 2 != c || r[j] == q[j];
    }
    forall j | 1 <= j < |r| && j / 2 == p
      ensures r[p / 2].distance <= r[j].distance
    {
      assert q[p / 2].distance <= q[p].distance;
    }
  }

  lemma UpDone(q: seq<Node>, c: nat)
    requires UpTo(q, c) && q[c / 2].distance <= q[c].distance
    ensures Heap(q)
  {
  }

  /** The loop state of sift-up over the array a: c is the hole, n the entry to drop into it. */
  ghost predicate Rising(a: seq<Node>, tail: nat, c: nat, n: Node, bag: multiset<Node>) {
    && 1 <= c <= tail < |a|
    && UpTo(a[c := n][..tail + 1], c)
    && Bag(a[c := n], tail) == bag
  }

  lemma RisingStart(a: seq<Node>, tail: nat, n: Node)
    requires 0 < tail < |a| && Heap(a[..tail])
    ensures Rising(a, tail, tail, n, Bag(a, tail - 1) + multiset{n})
  {
    UpStart(a[..tail], n);
    assert a[tail := n][..tail + 1] == a[..tail] + [n];
    assert a[tail := n][1..tail + 1] == a[1..tail] + [n];
  }

  lemma RisingHeap(a: seq<Node>, tail: nat, c: nat, n: Node)
    requires 1 <= c <= tail < |a| && UpTo(a[c := n][..tail + 1], c)
    requires a[c / 2].distance > n.distance >= 0
    ensures c > 1 && UpTo(a[c := a[c / 2]][c / 2 := n][..tail + 1], c / 2)
  {
    var q := a[c := n][..tail + 1];
    RootBound(q, c);
    UpStep(q, c);
    assert a[c := a[c / 2]][c / 2 := n][..tail + 1] == q[c := q[c / 2]][c / 2 := q[c]];
  }

  lemma RisingStep(a: seq<Node>, tail: nat, c: nat, n: Node, bag: multiset<Node>)
    requires Rising(a, tail, c, n, bag) && a[c / 2].distance > n.distance >= 0
    ensures c > 1 && Rising(a[c := a[c / 2]], tail, c / 2, n, bag)
  {
    RisingHeap(a, tail, c, n);
    BagMovesHole(a, tail, c, c / 2, n);
  }

  /** The sentinel stops sift-up: an entry smaller than its parent is never at the root. */
  lemma RootBound(q: seq<Node>, c: nat)
    requires UpTo(q, c) && q[c / 2].distance > q[c].distance >= 0
    ensures c > 1
  {
  }

  lemma RisingDone(a: seq<Node>, tail: nat, c: nat, n: Node, bag: multiset<Node>)
    requires Rising(a, tail, c, n, bag) && a[c / 2].distance <= n.distance
    ensures Heap(a[c := n][..tail + 1]) && Bag(a[c := n], tail) == bag
  {
    UpDone(a[c := n][..tail + 1], c);
  }

  // ---------- sift-down ----------

  /** Every entry whose parent is not c is in order, and c's children are in order with c's parent. */
  ghost predicate DownFrom(q: seq<Node>, c: nat) {
    && 1 <= c < |q|
    && q[0].distance == 0
    && (forall j :: 1 <= j < |q| && j / 2 != c ==> q[j / 2].distance <= q[j].distance)
    && (forall j :: 1 <= j < |q| && j / 2 == c ==> q[c / 2].distance <= q[j].distance)
  }

  lemma DownStart(q: seq<Node>)
    requires Heap(q) && |q| > 2
    ensures DownFrom(q[1 := q[|q| - 1]][..|q| - 1], 1)
  {
    var r := q[1 := q[|q| - 1]][..|q| - 1];
    RootIsMinimum(q, |q| - 1);
    forall j | 1 <= j < |r| && j / 2 == 1
      ensures r[0].distance <= r[j].distance
    {
      RootIsMinimum(q, j);
    }
  }

  lemma DownStep(q: seq<Node>, c: nat, i: nat)
    requires DownFrom(q, c) && i < |q| && i / 2 == c
    requires q[i].distance < q[c].distance
    requires forall j :: 1 <= j < |q| && j / 2 == c ==> q[i].distance <= q[j].distance
    ensures DownFrom(q[c := q[i]][i := q[c]], i)
  {
    var r := q[c := q[i]][i := q[c]];
    forall j | 1 <= j < |r| && j / 2 != i
      ensures r[j / 2].distance <= r[j].distance
    {
      if j == c { assert q[c / 2].distance <= q[i].distance; }
    }
    forall j | 1 <= j < |r| && j / 2 == i
      ensures r[i / 2].distance <= r[j].distance
    {
      assert j != i && j != c && q[i].distance <= q[j].distance;
    }
  }

  lemma DownDone(q: seq<Node>, c: nat)
    requires DownFrom(q, c)
    requires forall j :: 1 <= j < |q| && j / 2 == c ==> q[c].distance <= q[j].distance
    ensures Heap(q)
  {
  }

  /** The loop state of sift-down: c is the hole, v the entry to drop into it. With nothing left
      in the queue, slot 1 is dead and any value may be dropped there. */
  ghost predicate Sinking(a: seq<Node>, tail: nat, c: nat, v: Node, bag: multiset<Node>) {
    && tail < |a|
    && 1 <= c < |a|
    && Bag(a[c := v], tail) == bag
    && if tail == 0 then c == 1 && a[0].distance == 0 else c <= tail && DownFrom(a[c := v][..tail + 1], c)
  }

  /** Shrinking starts by moving the last entry to the root. */
  lemma SinkingStart(a: seq<Node>, tail: nat)
    requires 0 < tail < |a| && Heap(a[..tail + 1])
    ensures Sinking(a[1 := a[tail]], tail - 1, 1, a[tail], Bag(a, tail) - multiset{a[1]})
  {
    var q := a[..tail + 1];
    RemoveRoot(q);
    var r := a[1 := a[tail]];
    assert r[1 := a[tail]] == r;
    assert q[1..] == a[1..tail + 1];
    if tail == 1 {
      assert r[1..1] == [];
    } else {
      DownStart(q);
      assert r[..tail] == q[1 := q[tail]][..tail];
      assert r[1..tail] == q[1 := q[tail]][..tail][1..];
    }
  }

  /** i is a child of c with a smallest key among c's children. */
  ghost predicate LeastChild(a: seq<Node>, tail: nat, c: nat, i: nat) {
    && tail < |a|
    && i <= tail && i / 2 == c
    && forall j :: 1 <= j <= tail && j / 2 == c ==> a[i].distance <= a[j].distance
  }

  lemma PickChild(a: seq<Node>, tail: nat, c: nat, i: nat)
    requires 1 <= c && 2 * c <= tail < |a|
    requires i == if 2 * c < tail && a[2 * c].distance > a[2 * c + 1].distance then 2 * c + 1 else 2 * c
    ensures LeastChild(a, tail, c, i)
  {
    forall j | 1 <= j <= tail && j / 2 == c
      ensures a[i].distance <= a[j].distance
    {
      assert j == 2 * c || j == 2 * c + 1;
    }
  }

  lemma SinkingHeap(a: seq<Node>, tail: nat, c: nat, i: nat, v: Node)
    requires 1 <= c <= tail < |a| && DownFrom(a[c := v][..tail + 1], c)
    requires LeastChild(a, tail, c, i) && a[i].distance < v.distance
    ensures DownFrom(a[c := a[i]][i := v][..tail + 1], i)
  {
    var q := a[c := v][..tail + 1];
    DownStep(q, c, i);
    assert a[c := a[i]][i := v][..tail + 1] == q[c := q[i]][i := q[c]];
  }

  lemma SinkingStep(a: seq<Node>, tail: nat, c: nat, i: nat, v: Node, bag: multiset<Node>)
    requires Sinking(a, tail, c, v, bag) && tail > 0
    requires LeastChild(a, tail, c, i) && a[i].distance < v.distance
    ensures Sinking(a[c := a[i]], tail, i, v, bag)
  {
    SinkingHeap(a, tail, c, i, v);
    BagMovesHole(a, tail, c, i, v);
  }

  lemma SinkingDone(a: seq<Node>, tail: nat, c: nat, i: nat, v: Node, bag: multiset<Node>)
    requires Sinking(a, tail, c, v, bag)
    requires 2 * c <= tail ==> LeastChild(a, tail, c, i) && v.distance <= a[i].distance
    ensures Heap(a[c := v][..tail + 1]) && Bag(a[c := v], tail) == bag
  {
    if tail > 0 {
      DownDone(a[c := v][..tail + 1], c);
    }
  }

  // ---------- the queue object ----------

  class Queue {
    const nodes: array<Node>
    var tail: nat

    ghost predicate Valid()
      reads this, nodes
    {
      && nodes.Length == MAX_QUEUE_LEN && tail < MAX_QUEUE_LEN
      && nodes[0].distance == 0
      && Heap(nodes[..][..tail + 1])
    }

    /** The queued entries, as the search sees them: a bag. */
    ghost function Contents(): multiset<Node>
      reads this, nodes
      requires nodes.Length == MAX_QUEUE_LEN && tail < MAX_QUEUE_LEN
    {
      Bag(nodes[..], tail)
    }

    /** Zero-initialised static storage: an empty queue. */
    constructor ()
      ensures Valid() && tail == 0 && fresh(nodes)
    {
      nodes := new Node[MAX_QUEUE_LEN](_ => Node(0, 0));
      tail := 0;
    }

    /** Restart with one entry, whatever was queued before. */
    method Reset(pos: nat, distance: nat)
      requires nodes.Length == MAX_QUEUE_LEN && nodes[0].distance == 0
      modifies this`tail, nodes
      ensures Valid() && tail == 1 && nodes[1] == Node(pos, distance)
      ensures Contents() == multiset{Node(pos, distance)}
    {
      nodes[1] := Node(pos, distance);
      tail := 1;
      assert nodes[..][1..2] == [Node(pos, distance)];
    }

    /** Adds one entry, or leaves the bag as it is when the array is full. */
    method PushToQueue(pos: nat, distance: nat)
      requires Valid()
      modifies this`tail, nodes
      ensures Valid()
      ensures old(tail) == MAX_QUEUE_LEN - 1 ==> tail == old(tail) && nodes[..] == old(nodes[..])
      ensures old(tail) < MAX_QUEUE_LEN - 1 ==>
                tail == old(tail) + 1 && Contents() == old(Contents()) + multiset{Node(pos, distance)}
    {
      hide Rising, Heap, Bag;
      tail := tail + 1;
      if tail == MAX_QUEUE_LEN {
        tail := tail - 1;
        return;
      }
      var count := tail;
      ghost var n := Node(pos, distance);
      ghost var bag := old(Contents()) + multiset{n};
      RisingStart(nodes[..], tail, n);
      while nodes[count / 2].distance > distance
        invariant 1 <= count <= tail == old(tail) + 1 < MAX_QUEUE_LEN
        invariant nodes[0] == old(nodes[0])
        invariant Rising(nodes[..], tail, count, n, bag)
        decreases count
      {
        RisingStep(nodes[..], tail, count, n, bag);
        nodes[count] := nodes[count / 2];
        count := count / 2;
      }
      RisingDone(nodes[..], tail, count, n, bag);
      nodes[count] := Node(pos, distance);
    }

    /** Removes the root entry and nothing else. */
    method ShrinkQueue()
      requires Valid() && tail > 0
      modifies this`tail, nodes
      ensures Valid() && tail == old(tail) - 1
      ensures Contents() == old(Contents()) - multiset{old(nodes[1])}
    {
      hide Sinking, Heap, Bag, LeastChild;
      SinkingStart(nodes[..], tail);
      nodes[1] := nodes[tail];
      tail := tail - 1;
      var v := nodes[1];
      var count := 1;
      ghost var bag := old(Contents()) - multiset{old(nodes[1])};
      ghost var least := 0;
      while count <= tail / 2
        invariant tail == old(tail) - 1
        invariant nodes[0] == old(nodes[0])
        invariant 1 <= count < MAX_QUEUE_LEN
        invariant Sinking(nodes[..], tail, count, v, bag)
        decreases tail - count
      {
        var i := count * 2;
        if nodes[i].distance > nodes[i + 1].distance {
          if i < tail {
            i := i + 1;
          }
        }
        PickChild(nodes[..], tail, count, i);
        if v.distance <= nodes[i].distance {
          least := i;
          break;
        }
        SinkingStep(nodes[..], tail, count, i, v, bag);
        nodes[count] := nodes[i];
        count := i;
      }
      SinkingDone(nodes[..], tail, count, least, v, bag);
      nodes[count] := v;
    }
  }
}
