/** Reference counting of dev/cyberspace/src/cs-obj_descriptor.cpp: descriptors that tell a callback
    when they start and stop holding an object. A callback is known by a number, an object by its
    unique id and address; the callback is taken to leave the descriptor alone. */
module ObjDescriptor {

  import opened Wrappers

  const TYPE_NULL: nat := 0
  const INVALID_ID: int := -1

  /** What a descriptor's handle holds. */
  datatype Headle = Headle(uniqueId: int, typeId: nat, obj: nat, createTime: int, func: Option<nat>)

  /** One call of a reference callback. */
  datatype Call = Call(func: nat, uniqueId: int, obj: nat, count: int)

  /** An object as one callback knows it. */
  datatype Key = Key(func: nat, uniqueId: int, obj: nat)

  predicate Holds(h: Headle, k: Key) {
    h.func == Some(k.func) && h.uniqueId == k.uniqueId && h.obj == k.obj
  }

  /** The callback's calls for a handle that starts or stops holding its object. */
  function Referenced(h: Headle, count: int): seq<Call> {
    if h.func.Some? then [Call(h.func.value, h.uniqueId, h.obj, count)] else []
  }

  /** What is delivered to a key over a sequence of calls. */
  function Net(calls: seq<Call>, k: Key): int {
    if calls == [] then 0
    else
      var c := calls[|calls| - 1];
      Net(calls[..|calls| - 1], k) + if Key(c.func, c.uniqueId, c.obj) == k then c.count else 0
  }

  // ---------- assignment ----------

  /** operator = takes effect unless the target has a type and the source a different one. */
  predicate Accepts(target: Headle, source: Headle) {
    target.typeId == TYPE_NULL || target.typeId == source.typeId
  }

  function Assigned(target: Headle, source: Headle): Headle {
    if Accepts(target, source) then source else target
  }

  function AssignCalls(target: Headle, source: Headle): seq<Call> {
    if Accepts(target, source) then Referenced(target, -1) + Referenced(source, 1) else []
  }

  // ---------- all descriptors of a program ----------

  datatype World = World(live: map<nat, Headle>, calls: seq<Call>)

  datatype Event =
    | Default(id: nat, time: int)
    | Create(id: nat, uniqueId: int, typeId: nat, obj: nat, func: Option<nat>, time: int)
    | Copy(id: nat, source: nat)
    | Assign(id: nat, source: nat)
    | Destroy(id: nat)

  function Fresh(time: int): Headle {
    Headle(INVALID_ID, TYPE_NULL, 0, time, None)
  }

  /** One operation; an operation on a descriptor that is not there, or a second construction, does nothing. */
  function Step(w: World, e: Event): World {
    match e
    case Default(id, time) =>
      if id in w.live then w else World(w.live[id := Fresh(time)], w.calls + Referenced(Fresh(time), 1))
    case Create(id, uid, typeId, obj, func, time) =>
      var h := Headle(uid, typeId, obj, time, func);
      if id in w.live then w else World(w.live[id := h], w.calls + Referenced(h, 1))
    case Copy(id, source) =>
      if id in w.live || source !in w.live then w
      else World(w.live[id := w.live[source]], w.calls + Referenced(w.live[source], 1))
    case Assign(id, source) =>
      if id !in w.live || source !in w.live then w
      else
        World(w.live[id := Assigned(w.live[id], w.live[source])], w.calls + AssignCalls(w.live[id], w.live[source]))
    case Destroy(id) =>
      if id !in w.live then w else World(w.live - {id}, w.calls + Referenced(w.live[id], -1))
  }

  function After(w: World, es: seq<Event>): World
    decreases |es|
  {
    if es == [] then w else After(Step(w, es[0]), es[1..])
  }

  const EMPTY := World(map[], [])

  /** The live descriptors that hold an object. */
  function Holders(live: map<nat, Headle>, k: Key): set<nat> {
    set id | id in live && Holds(live[id], k)
  }

  // ---------- the count ----------

  ghost predicate Balanced(w: World) {
    forall k :: Net(w.calls, k) == |Holders(w.live, k)|
  }

  lemma {:induction false} NetAppend(a: seq<Call>, b: seq<Call>, k: Key)
    ensures Net(a + b, k) == Net(a, k) + Net(b, k)
    decreases |b|
  {
    if b == [] {
      assert a + b == a;
    } else {
      assert (a + b)[..|a + b| - 1] == a + b[..|b| - 1];
      NetAppend(a, b[..|b| - 1], k);
    }
  }

  lemma NetReferenced(h: Headle, count: int, k: Key)
    ensures Net(Referenced(h, count), k) == if Holds(h, k) then count else 0
  {
    if h.func.Some? {
      assert Referenced(h, count)[..0] == [];
    }
  }

  function Weight(h: Headle, k: Key): nat {
    if Holds(h, k) then 1 else 0
  }

  lemma HoldersAdded(live: map<nat, Headle>, id: nat, h: Headle, k: Key)
    requires id !in live
    ensures |Holders(live[id := h], k)| == |Holders(live, k)| + Weight(h, k)
  {
    var was, now := Holders(live, k), Holders(live[id := h], k);
    assert id !in was;
    if Holds(h, k) {
      assert now == was + {id};
    } else {
      assert now == was;
    }
  }

  lemma HoldersRemoved(live: map<nat, Headle>, id: nat, k: Key)
    requires id in live
    ensures |Holders(live - {id}, k)| == |Holders(live, k)| - Weight(live[id], k)
  {
    var was, now := Holders(live, k), Holders(live - {id}, k);
    if Holds(live[id], k) {
      assert id in was;
      assert now == was - {id};
    } else {
      assert now == was;
    }
  }

  lemma HoldersReplaced(live: map<nat, Headle>, id: nat, h: Headle, k: Key)
    requires id in live
    ensures |Holders(live[id := h], k)| == |Holders(live, k)| - Weight(live[id], k) + Weight(h, k)
  {
    var rest := live - {id};
    HoldersRemoved(live, id, k);
    HoldersAdded(rest, id, h, k);
    assert rest[id := h] == live[id := h];
  }

  lemma StepBalanced(w: World, e: Event)
    requires Balanced(w)
    ensures Balanced(Step(w, e))
  {
    hide Holds, Holders, Net, Referenced;
    forall k
      ensures Net(Step(w, e).calls, k) == |Holders(Step(w, e).live, k)|
    {
      StepCounts(w, e, k);
    }
  }

  lemma StepCounts(w: World, e: Event, k: Key)
    requires Net(w.calls, k) == |Holders(w.live, k)|
    ensures Net(Step(w, e).calls, k) == |Holders(Step(w, e).live, k)|
  {
    hide Holds, Holders, Net, Referenced, Accepts;
    match e
    case Default(id, time) =>
      if id !in w.live {
        HoldersAdded(w.live, id, Fresh(time), k);
        NetAppend(w.calls, Referenced(Fresh(time), 1), k);
        NetReferenced(Fresh(time), 1, k);
      }
    case Create(id, uid, typeId, obj, func, time) =>
      if id !in w.live {
        var h := Headle(uid, typeId, obj, time, func);
        HoldersAdded(w.live, id, h, k);
        NetAppend(w.calls, Referenced(h, 1), k);
        NetReferenced(h, 1, k);
      }
    case Copy(id, source) =>
      if id !in w.live && source in w.live {
        HoldersAdded(w.live, id, w.live[source], k);
        NetAppend(w.calls, Referenced(w.live[source], 1), k);
        NetReferenced(w.live[source], 1, k);
      }
    case Assign(id, source) =>
      if id in w.live && source in w.live {
        AssignCounts(w, id, source, k);
      }
    case Destroy(id) =>
      if id in w.live {
        HoldersRemoved(w.live, id, k);
        NetAppend(w.calls, Referenced(w.live[id], -1), k);
        NetReferenced(w.live[id], -1, k);
      }
  }

  lemma AssignCounts(w: World, id: nat, source: nat, k: Key)
    requires id in w.live && source in w.live
    requires Net(w.calls, k) == |Holders(w.live, k)|
    ensures Net(Step(w, Assign(id, source)).calls, k) == |Holders(Step(w, Assign(id, source)).live, k)|
  {
    hide Holds, Holders, Net, Referenced, Accepts;
    var h, g := w.live[id], w.live[source];
    HoldersReplaced(w.live, id, Assigned(h, g), k);
    NetAppend(w.calls, AssignCalls(h, g), k);
    NetAppend(Referenced(h, -1), Referenced(g, 1), k);
    NetReferenced(h, -1, k);
    NetReferenced(g, 1, k);
    NetNothing(k);
  }

  lemma NetNothing(k: Key)
    ensures Net([], k) == 0
  {
  }

  lemma {:induction false} AfterBalanced(w: World, es: seq<Event>)
    requires Balanced(w)
    ensures Balanced(After(w, es))
    decreases |es|
  {
    hide Balanced, Step;
    if es != [] {
      StepBalanced(w, es[0]);
      AfterBalanced(Step(w, es[0]), es[1..]);
    }
  }

  /** In every run the net count delivered for an object is the number of live descriptors that hold it. */
  lemma EveryRunBalanced(es: seq<Event>, k: Key)
    ensures var w := After(EMPTY, es);
            Net(w.calls, k) == |Holders(w.live, k)|
  {
    hide After, Net, Holders;
    assert Balanced(EMPTY) by {
      forall j
        ensures Net(EMPTY.calls, j) == |Holders(EMPTY.live, j)|
      {
        NetNothing(j);
        NoHolders(j);
      }
    }
    AfterBalanced(EMPTY, es);
  }

  lemma NoHolders(k: Key)
    ensures Holders(map[], k) == {}
  {
  }

  /** When no descriptor is left, every object's count has come back to zero. */
  lemma AllGone(es: seq<Event>, k: Key)
    requires After(EMPTY, es).live == map[]
    ensures Net(After(EMPTY, es).calls, k) == 0
  {
    hide After, Net, Holders;
    EveryRunBalanced(es, k);
    NoHolders(k);
  }

  // ---------- types ----------

  /** As long as it lives, a descriptor with a type keeps it. */
  lemma {:induction false} TypeKept(w: World, id: nat, es: seq<Event>)
    requires id in w.live && w.live[id].typeId != TYPE_NULL && Destroy(id) !in es
    ensures id in After(w, es).live && After(w, es).live[id].typeId == w.live[id].typeId
    decreases |es|
  {
    hide After;
    if es == [] {
      AfterNothing(w);
    } else {
      AfterFirst(w, es);
      TypeStep(w, id, es[0]);
      TypeKept(Step(w, es[0]), id, es[1..]);
    }
  }

  lemma AfterNothing(w: World)
    ensures After(w, []) == w
  {
  }

  lemma AfterFirst(w: World, es: seq<Event>)
    requires es != []
    ensures After(w, es) == After(Step(w, es[0]), es[1..])
  {
  }

  lemma TypeStep(w: World, id: nat, e: Event)
    requires id in w.live && w.live[id].typeId != TYPE_NULL && e != Destroy(id)
    ensures id in Step(w, e).live && Step(w, e).live[id].typeId == w.live[id].typeId
  {
  }

  /** An assignment across types changes nothing and calls nobody; any other one makes the target hold
      what the source holds. */
  lemma AssignmentRefused(w: World, id: nat, source: nat)
    requires id in w.live && source in w.live
    ensures var h, g := w.live[id], w.live[source];
            var t := Step(w, Assign(id, source));
            if h.typeId != TYPE_NULL && h.typeId != g.typeId then t == w
            else t.live[id] == g && t.live - {id} == w.live - {id}
  {
    assert w.live[id := w.live[id]] == w.live;
    assert w.calls + [] == w.calls;
    assert w.live[id := w.live[source]] - {id} == w.live - {id};
  }

  // ---------- order of the calls ----------

  /** Assigning a descriptor to itself is not neutral to a callback that acts at zero: the count first
      drops by one, to zero exactly if no other descriptor holds the object, and then comes back. */
  lemma SelfAssignmentDips(w: World, id: nat, k: Key)
    requires Balanced(w) && id in w.live && Holds(w.live[id], k)
    ensures var t := Step(w, Assign(id, id));
            && t.live == w.live && |t.calls| == |w.calls| + 2
            && Net(t.calls, k) == Net(w.calls, k)
            && (Net(t.calls[..|w.calls| + 1], k) == 0 <==> Holders(w.live, k) == {id})
  {
    hide Net;
    var h := w.live[id];
    var t := Step(w, Assign(id, id));
    assert w.live[id := h] == w.live;
    StepCounts(w, Assign(id, id), k);
    assert t.calls[..|w.calls| + 1] == w.calls + Referenced(h, -1);
    NetAppend(w.calls, Referenced(h, -1), k);
    NetReferenced(h, -1, k);
    var s := Holders(w.live, k);
    assert id in s;
    assert |s| == 1 <==> s == {id} by {
      if |s| == 1 {
        assert |s - {id}| == 0;
        assert s == s - {id} + {id};
      }
    }
  }

  // ---------- the class ----------

  /** Everything the reference callbacks were told. */
  class Callbacks {
    var calls: seq<Call>

    constructor ()
      ensures calls == []
    {
      calls := [];
    }

    method Reference(func: Option<nat>, uniqueId: int, obj: nat, count: int)
      modifies this
      ensures calls == old(calls) + if func.Some? then [Call(func.value, uniqueId, obj, count)] else []
    {
      if func.Some? {
        calls := calls + [Call(func.value, uniqueId, obj, count)];
      }
    }
  }

  class Descriptor {
    var uniqueId: int
    var typeId: nat
    var obj: nat
    var createTime: int
    var func: Option<nat>

    function View(): Headle
      reads this
    {
      Headle(uniqueId, typeId, obj, createTime, func)
    }

    constructor Default(callbacks: Callbacks, time: int)
      modifies callbacks
      ensures View() == Fresh(time) && callbacks.calls == old(callbacks.calls)
    {
      uniqueId, typeId, obj, createTime, func := INVALID_ID, TYPE_NULL, 0, time, None;
      new;
      callbacks.Reference(func, uniqueId, obj, 1);
    }

    constructor Create(callbacks: Callbacks, objUniqueId: int, objTypeId: nat, pobj: nat, pfunc: Option<nat>, time: int)
      modifies callbacks
      ensures View() == Headle(objUniqueId, objTypeId, pobj, time, pfunc)
      ensures callbacks.calls == old(callbacks.calls) + Referenced(View(), 1)
    {
      uniqueId, typeId, obj, createTime, func := objUniqueId, objTypeId, pobj, time, pfunc;
      new;
      callbacks.Reference(func, uniqueId, obj, 1);
    }

    /** The copy constructor: operator = on a descriptor without a handle, which has no type to check. */
    constructor Copy(callbacks: Callbacks, source: Descriptor)
      modifies callbacks
      ensures View() == old(source.View())
      ensures callbacks.calls == old(callbacks.calls) + Referenced(View(), 1)
    {
      uniqueId, typeId, obj, createTime, func :=
        source.uniqueId, source.typeId, source.obj, source.createTime, source.func;
      new;
      callbacks.Reference(func, uniqueId, obj, 1);
    }

    /** operator =; the source may be this descriptor itself. */
    method Assign(callbacks: Callbacks, source: Descriptor)
      modifies this, callbacks
      ensures View() == Assigned(old(View()), old(source.View()))
      ensures callbacks.calls == old(callbacks.calls) + AssignCalls(old(View()), old(source.View()))
    {
      if typeId != TYPE_NULL && typeId != source.typeId {
        return;
      }
      ghost var before := callbacks.calls;
      callbacks.Reference(func, uniqueId, obj, -1);
      assert callbacks.calls == before + Referenced(View(), -1);
      uniqueId := source.uniqueId;
      typeId := source.typeId;
      obj := source.obj;
      createTime := source.createTime;
      func := source.func;
      callbacks.Reference(func, uniqueId, obj, 1);
    }

    /** The destructor. */
    method Destroy(callbacks: Callbacks)
      modifies callbacks
      ensures callbacks.calls == old(callbacks.calls) + Referenced(View(), -1)
    {
      callbacks.Reference(func, uniqueId, obj, -1);
    }
  }
}
