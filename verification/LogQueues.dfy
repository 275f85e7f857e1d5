/** The ten log queues of dev/cyberspace/src/cs-database_service.cpp and their worker threads, as a
    machine whose steps are the lock-protected sections; dbSetRecord is appending to an output.
    A schedule is any sequence of steps; a step that cannot be taken leaves everything as it is. */
module LogQueues {

  const MAX_QUEUE := 10

  datatype LogData = LogData(sessionUid: nat, classify: int, level: int, event: string, data: string, content: string)

  /** Where a worker thread stands in DoUpdate. */
  datatype Worker =
    | Waiting
    | Looping(idx: nat)
    | Taking(idx: nat)
    | Writing(idx: nat, batch: seq<LogData>)
    | Exited(idx: nat)

  datatype Service = Service(
    alive: bool,
    queueIndex: nat,
    queues: seq<seq<LogData>>,
    workers: seq<Worker>,
    submitted: seq<LogData>,
    output: seq<LogData>)

  datatype Event =
    | Submit(rec: LogData)
    | Begin(w: nat)
    | Test(w: nat)
    | Take(w: nat)
    | Write(w: nat)
    | Finish(w: nat)
    | Stop

  predicate Shape(s: Service) {
    |s.queues| == MAX_QUEUE && |s.workers| == MAX_QUEUE
  }

  /** A worker number and the queue index it holds are in range. */
  predicate Can(s: Service, e: Event)
    requires Shape(s)
  {
    match e
    case Submit(_) => true
    case Stop => true
    case Begin(w) => w < MAX_QUEUE && s.workers[w].Waiting?
    case Test(w) => w < MAX_QUEUE && s.workers[w].Looping?
    case Take(w) => w < MAX_QUEUE && s.workers[w].Taking?
    case Write(w) => w < MAX_QUEUE && s.workers[w].Writing? && s.workers[w].batch != []
    case Finish(w) => w < MAX_QUEUE && s.workers[w].Writing? && s.workers[w].batch == []
  }

  /** Every worker that began owns the index it was given; the indices are below queueIndex, which
      counts them, and no two workers have the same one. */
  predicate Owners(s: Service)
    requires Shape(s)
  {
    && s.queueIndex == Begun(s.workers)
    && (forall w :: 0 <= w < MAX_QUEUE && !s.workers[w].Waiting? ==> s.workers[w].idx < s.queueIndex)
    && (forall v, w :: 0 <= v < w < MAX_QUEUE && !s.workers[v].Waiting? && !s.workers[w].Waiting? ==>
          s.workers[v].idx != s.workers[w].idx)
  }

  function Begun(ws: seq<Worker>): (n: nat)
    ensures n <= |ws|
  {
    if ws == [] then 0 else Begun(ws[1..]) + if ws[0].Waiting? then 0 else 1
  }

  function Step(s: Service, e: Event): (t: Service)
    requires Shape(s) && Owners(s)
    ensures Shape(t)
  {
    if !Can(s, e) then s
    else
      match e
      case Submit(rec) =>
        var q := rec.sessionUid % MAX_QUEUE;
        s.(queues := s.queues[q := s.queues[q] + [rec]], submitted := s.submitted + [rec])
      case Stop => s.(alive := false)
      case Begin(w) => s.(workers := s.workers[w := Looping(s.queueIndex)], queueIndex := s.queueIndex + 1)
      case Test(w) =>
        var i := s.workers[w].idx;
        s.(workers := s.workers[w := if s.alive then Taking(i) else Exited(i)])
      case Take(w) =>
        IndexInRange(s, w);
        var i := s.workers[w].idx;
        s.(workers := s.workers[w := Writing(i, s.queues[i])], queues := s.queues[i := []])
      case Write(w) =>
        var b := s.workers[w].batch;
        s.(workers := s.workers[w := Writing(s.workers[w].idx, b[1..])], output := s.output + [b[0]])
      case Finish(w) => s.(workers := s.workers[w := Looping(s.workers[w].idx)])
  }

  /** A record goes to the queue of the last digit of its session. */
  lemma SubmitExample(s: Service, r: LogData)
    requires Shape(s) && Owners(s) && r.sessionUid == 23
    ensures Step(s, Submit(r)).queues == s.queues[3 := s.queues[3] + [r]] && |s.queues| == 10
  {
  }

  /** Ten workers share out the indices 0 to 9: none goes past the arrays of locks and queues. */
  lemma IndexInRange(s: Service, w: nat)
    requires Shape(s) && Owners(s) && w < MAX_QUEUE && !s.workers[w].Waiting?
    ensures s.workers[w].idx < MAX_QUEUE
  {
  }

  lemma {:induction false} BegunOneMore(ws: seq<Worker>, w: nat, x: Worker)
    requires w < |ws| && !x.Waiting?
    ensures Begun(ws[w := x]) == Begun(ws) + if ws[w].Waiting? then 1 else 0
    decreases |ws|
  {
    if w > 0 {
      assert ws[w := x][1..] == ws[1..][w - 1 := x];
      BegunOneMore(ws[1..], w - 1, x);
    } else {
      assert ws[w := x][1..] == ws[1..];
    }
  }

  /** The started service of OnLoadConfigure. */
  function Started(): Service {
    Service(true, 0, seq(MAX_QUEUE, _ => []), seq(MAX_QUEUE, _ => Waiting), [], [])
  }

  lemma {:induction false} NoneBegun(ws: seq<Worker>)
    requires forall w :: 0 <= w < |ws| ==> ws[w].Waiting?
    ensures Begun(ws) == 0
    decreases |ws|
  {
    if ws != [] {
      NoneBegun(ws[1..]);
    }
  }

  // ---------- records by queue and by session ----------

  /** The records of one queue, in order. */
  function OfQueue(x: seq<LogData>, q: nat): seq<LogData> {
    if x == [] then []
    else
      var r := x[|x| - 1];
      OfQueue(x[..|x| - 1], q) + if r.sessionUid % MAX_QUEUE == q then [r] else []
  }

  /** The records of one session, in order. */
  function OfSession(x: seq<LogData>, sid: nat): seq<LogData> {
    if x == [] then []
    else
      var r := x[|x| - 1];
      OfSession(x[..|x| - 1], sid) + if r.sessionUid == sid then [r] else []
  }

  lemma QueueGrows(x: seq<LogData>, r: LogData, q: nat)
    ensures OfQueue(x + [r], q) == OfQueue(x, q) + if r.sessionUid % MAX_QUEUE == q then [r] else []
  {
    assert (x + [r])[..|x|] == x;
  }

  lemma {:induction false} SessionWithinQueue(x: seq<LogData>, sid: nat)
    ensures OfSession(OfQueue(x, sid % MAX_QUEUE), sid) == OfSession(x, sid)
    decreases |x|
  {
    if x != [] {
      var head, r := x[..|x| - 1], x[|x| - 1];
      SessionWithinQueue(head, sid);
      var y := OfQueue(head, sid % MAX_QUEUE);
      assert (y + [r])[..|y|] == y && y + [] == y;
    }
  }

  lemma {:induction false} SessionAppend(x: seq<LogData>, y: seq<LogData>, sid: nat)
    ensures OfSession(x + y, sid) == OfSession(x, sid) + OfSession(y, sid)
    decreases |y|
  {
    if y == [] {
      assert x + y == x;
    } else {
      assert (x + y)[..|x + y| - 1] == x + y[..|y| - 1];
      SessionAppend(x, y[..|y| - 1], sid);
    }
  }

  lemma {:induction false} CountWithinQueue(x: seq<LogData>, r: LogData)
    ensures multiset(OfQueue(x, r.sessionUid % MAX_QUEUE))[r] == multiset(x)[r]
    decreases |x|
  {
    if x != [] {
      CountWithinQueue(x[..|x| - 1], r);
      assert x == x[..|x| - 1] + [x[|x| - 1]];
    }
  }

  // ---------- the invariant ----------

  /** The rest of the batch of the worker that owns queue q. */
  ghost function Held(ws: seq<Worker>, q: nat): seq<LogData> {
    if exists w :: 0 <= w < |ws| && ws[w].Writing? && ws[w].idx == q then
      var w :| 0 <= w < |ws| && ws[w].Writing? && ws[w].idx == q;
      ws[w].batch
    else []
  }

  /** Written, then the owner's batch, then the queue: together what was submitted, in order. */
  ghost predicate Conserved(s: Service, q: nat)
    requires Shape(s) && q < MAX_QUEUE
  {
    OfQueue(s.output, q) + Held(s.workers, q) + s.queues[q] == OfQueue(s.submitted, q)
  }

  ghost predicate Valid(s: Service) {
    Shape(s) && Owners(s) && forall q: nat :: q < MAX_QUEUE ==> Conserved(s, q)
  }

  predicate Distinct(ws: seq<Worker>) {
    forall v, w :: 0 <= v < w < |ws| && !ws[v].Waiting? && !ws[w].Waiting? ==> ws[v].idx != ws[w].idx
  }

  lemma HeldBy(ws: seq<Worker>, w: nat)
    requires w < |ws| && Distinct(ws) && !ws[w].Waiting?
    ensures Held(ws, ws[w].idx) == if ws[w].Writing? then ws[w].batch else []
  {
  }

  /** A step of worker w leaves the batches of the other queues alone. */
  lemma HeldElsewhere(ws: seq<Worker>, w: nat, x: Worker, q: nat)
    requires w < |ws| && Distinct(ws) && Distinct(ws[w := x]) && !x.Waiting? && q != x.idx
    requires !ws[w].Waiting? ==> ws[w].idx == x.idx
    ensures Held(ws[w := x], q) == Held(ws, q)
  {
    var vs := ws[w := x];
    if v :| 0 <= v < |ws| && ws[v].Writing? && ws[v].idx == q {
      assert vs[v] == ws[v];
      HeldBy(ws, v);
      HeldBy(vs, v);
    }
    if v :| 0 <= v < |vs| && vs[v].Writing? && vs[v].idx == q {
      assert vs[v] == ws[v];
    }
  }

  lemma StartedValid()
    ensures Valid(Started())
  {
    var s := Started();
    NoneBegun(s.workers);
    forall q: nat | q < MAX_QUEUE
      ensures Conserved(s, q)
    {
      assert Held(s.workers, q) == [];
    }
  }

  lemma OwnersKept(s: Service, e: Event)
    requires Shape(s) && Owners(s)
    ensures Owners(Step(s, e))
  {
    if Can(s, e) && !e.Submit? && !e.Stop? {
      BegunOneMore(s.workers, e.w, Step(s, e).workers[e.w]);
    }
  }

  lemma SubmitKeeps(s: Service, rec: LogData, q: nat)
    requires Valid(s) && q < MAX_QUEUE
    ensures Conserved(Step(s, Submit(rec)), q)
  {
    assert Conserved(s, q);
    QueueGrows(s.submitted, rec, q);
    var t := Step(s, Submit(rec));
    if rec.sessionUid % MAX_QUEUE == q {
      assert OfQueue(s.output, q) + Held(s.workers, q) + (s.queues[q] + [rec]) ==
             OfQueue(s.output, q) + Held(s.workers, q) + s.queues[q] + [rec];
    }
  }

  lemma OtherQueueKeeps(s: Service, e: Event, q: nat)
    requires Valid(s) && q < MAX_QUEUE && Can(s, e) && !e.Submit? && !e.Stop?
    requires Step(s, e).workers[e.w].idx != q
    ensures Conserved(Step(s, e), q)
  {
    hide OfQueue, Held;
    assert Conserved(s, q);
    OwnersKept(s, e);
    HeldElsewhere(s.workers, e.w, Step(s, e).workers[e.w], q);
    if e.Write? {
      WritesOwn(s, e.w);
      QueueGrows(s.output, s.workers[e.w].batch[0], q);
    }
  }

  lemma BeginKeeps(s: Service, w: nat)
    requires Valid(s) && Can(s, Begin(w))
    ensures s.queueIndex < MAX_QUEUE && Conserved(Step(s, Begin(w)), s.queueIndex)
  {
    hide OfQueue;
    var t, q := Step(s, Begin(w)), s.queueIndex;
    OwnersKept(s, Begin(w));
    IndexInRange(t, w);
    assert Conserved(s, q);
    HeldBy(t.workers, w);
    assert Held(s.workers, q) == [];
  }

  lemma WriteKeeps(s: Service, w: nat)
    requires Valid(s) && Can(s, Write(w)) && s.workers[w].idx < MAX_QUEUE
    ensures Conserved(Step(s, Write(w)), s.workers[w].idx)
  {
    hide OfQueue, Held;
    var t, q, b := Step(s, Write(w)), s.workers[w].idx, s.workers[w].batch;
    assert Conserved(s, q);
    OwnersKept(s, Write(w));
    HeldBy(s.workers, w);
    HeldBy(t.workers, w);
    WritesOwn(s, w);
    QueueGrows(s.output, b[0], q);
    assert OfQueue(s.output, q) + [b[0]] + b[1..] == OfQueue(s.output, q) + b;
  }

  lemma PassKeeps(s: Service, e: Event)
    requires Valid(s) && Can(s, e) && (e.Test? || e.Take? || e.Finish?) && s.workers[e.w].idx < MAX_QUEUE
    ensures Conserved(Step(s, e), s.workers[e.w].idx)
  {
    hide OfQueue, Held;
    var t, q := Step(s, e), s.workers[e.w].idx;
    assert Conserved(s, q);
    OwnersKept(s, e);
    HeldBy(s.workers, e.w);
    HeldBy(t.workers, e.w);
  }

  lemma WorkerKeeps(s: Service, e: Event, q: nat)
    requires Valid(s) && q < MAX_QUEUE && Can(s, e) && !e.Submit? && !e.Stop?
    ensures Conserved(Step(s, e), q)
  {
    hide OfQueue, Held, Conserved;
    if Step(s, e).workers[e.w].idx != q {
      OtherQueueKeeps(s, e, q);
    } else if e.Begin? {
      BeginKeeps(s, e.w);
    } else if e.Write? {
      WriteKeeps(s, e.w);
    } else {
      PassKeeps(s, e);
    }
  }

  /** What a worker writes belongs to the queue it owns. */
  lemma WritesOwn(s: Service, w: nat)
    requires Valid(s) && w < MAX_QUEUE && s.workers[w].Writing? && s.workers[w].batch != []
    ensures s.workers[w].batch[0].sessionUid % MAX_QUEUE == s.workers[w].idx
  {
    var q, b := s.workers[w].idx, s.workers[w].batch;
    IndexInRange(s, w);
    HeldBy(s.workers, w);
    assert Conserved(s, q);
    QueueOnly(s.submitted, q);
    var y := OfQueue(s.submitted, q);
    assert y[|OfQueue(s.output, q)|] == b[0];
  }

  lemma {:induction false} QueueOnly(x: seq<LogData>, q: nat)
    ensures forall k :: 0 <= k < |OfQueue(x, q)| ==> OfQueue(x, q)[k].sessionUid % MAX_QUEUE == q
    decreases |x|
  {
    if x != [] {
      QueueOnly(x[..|x| - 1], q);
    }
  }

  lemma StepKeeps(s: Service, e: Event)
    requires Valid(s)
    ensures Valid(Step(s, e))
  {
    OwnersKept(s, e);
    forall q: nat | q < MAX_QUEUE
      ensures Conserved(Step(s, e), q)
    {
      assert Conserved(s, q);
      if e.Submit? {
        SubmitKeeps(s, e.rec, q);
      } else if Can(s, e) && !e.Stop? {
        WorkerKeeps(s, e, q);
      }
    }
  }

  // ---------- whole runs ----------

  /** The state after a schedule. */
  ghost function After(s: Service, es: seq<Event>): (t: Service)
    requires Valid(s)
    ensures Valid(t)
    decreases |es|
  {
    if es == [] then s
    else
      StepKeeps(s, es[0]);
      After(Step(s, es[0]), es[1..])
  }

  ghost function Run(es: seq<Event>): (t: Service)
    ensures Valid(t)
  {
    StartedValid();
    After(Started(), es)
  }

  /** In every schedule, per queue, what was written, what its owner still holds and what is queued
      are together what was submitted, and no two workers own the same queue. */
  lemma EveryRunConserves(es: seq<Event>, q: nat)
    requires q < MAX_QUEUE
    ensures var s := Run(es);
            && OfQueue(s.output, q) + Held(s.workers, q) + s.queues[q] == OfQueue(s.submitted, q)
            && Distinct(s.workers)
            && forall w :: 0 <= w < MAX_QUEUE && !s.workers[w].Waiting? ==> s.workers[w].idx < MAX_QUEUE
  {
    hide Run, OfQueue, Held;
    var s := Run(es);
    assert Conserved(s, q);
  }

  /** In every schedule the records of a session are written in the order they were submitted, and
      none is written that was not submitted. */
  lemma SessionsInOrder(es: seq<Event>, sid: nat)
    ensures var s := Run(es);
            OfSession(s.output, sid) <= OfSession(s.submitted, sid)
  {
    hide Run, OfQueue, OfSession, Held;
    var s, q := Run(es), sid % MAX_QUEUE;
    EveryRunConserves(es, q);
    SessionWithinQueue(s.output, sid);
    SessionWithinQueue(s.submitted, sid);
    SessionAppend(OfQueue(s.output, q) + Held(s.workers, q), s.queues[q], sid);
    SessionAppend(OfQueue(s.output, q), Held(s.workers, q), sid);
  }

  /** In every schedule each record is written at most as often as it was submitted. */
  lemma WrittenAtMostOnce(es: seq<Event>)
    ensures multiset(Run(es).output) <= multiset(Run(es).submitted)
  {
    hide Run, OfQueue, Held;
    var s := Run(es);
    forall r
      ensures multiset(s.output)[r] <= multiset(s.submitted)[r]
    {
      var q := r.sessionUid % MAX_QUEUE;
      EveryRunConserves(es, q);
      CountWithinQueue(s.output, r);
      CountWithinQueue(s.submitted, r);
      assert multiset(OfQueue(s.output, q) + Held(s.workers, q) + s.queues[q]) ==
             multiset(OfQueue(s.output, q)) + multiset(Held(s.workers, q)) + multiset(s.queues[q]);
    }
  }

  /** The steps of one undisturbed turn of a worker that finds n records. */
  function Turn(w: nat, n: nat): seq<Event> {
    [Test(w), Take(w)] + seq(n, _ => Write(w)) + [Finish(w)]
  }

  lemma AfterCons(s: Service, e: Event, es: seq<Event>)
    requires Valid(s)
    ensures Valid(Step(s, e)) && After(s, [e] + es) == After(Step(s, e), es)
  {
    StepKeeps(s, e);
    assert ([e] + es)[1..] == es;
  }

  /** Writing out a batch. */
  lemma {:induction false} WritesOut(s: Service, w: nat, n: nat)
    requires Valid(s) && w < MAX_QUEUE && s.workers[w].Writing? && |s.workers[w].batch| == n
    ensures var t := After(s, seq(n, _ => Write(w)) + [Finish(w)]);
            var q := s.workers[w].idx;
            && t.workers[w] == Looping(q) && t.queues == s.queues && t.submitted == s.submitted && t.alive == s.alive
    decreases n
  {
    hide Valid, Held;
    var es := seq(n, _ => Write(w)) + [Finish(w)];
    if n == 0 {
      assert es == [Finish(w)] + [];
      assert Owners(s) && Shape(s) by {
        ValidShape(s);
      }
      AfterCons(s, Finish(w), []);
      AfterNothing(Step(s, Finish(w)));
    } else {
      ValidShape(s);
      assert es == [Write(w)] + (seq(n - 1, _ => Write(w)) + [Finish(w)]);
      AfterCons(s, Write(w), seq(n - 1, _ => Write(w)) + [Finish(w)]);
      WritesOut(Step(s, Write(w)), w, n - 1);
    }
  }

  lemma AfterNothing(s: Service)
    requires Valid(s)
    ensures After(s, []) == s
  {
  }

  lemma ValidShape(s: Service)
    requires Valid(s)
    ensures Shape(s) && Owners(s)
  {
  }

  /** While the service is alive, one turn of a queue's owner writes everything submitted to it. */
  lemma TurnWritesAll(s: Service, w: nat)
    requires Valid(s) && w < MAX_QUEUE && s.workers[w].Looping? && s.alive
    ensures var q := s.workers[w].idx;
            var t := After(s, Turn(w, |s.queues[q]|));
            OfQueue(t.output, q) == OfQueue(t.submitted, q) == OfQueue(s.submitted, q)
  {
    ValidShape(s);
    hide OfQueue, Valid, Held;
    var q := s.workers[w].idx;
    var n := |s.queues[q]|;
    var rest := seq(n, _ => Write(w)) + [Finish(w)];
    assert Turn(w, n) == [Test(w)] + ([Take(w)] + rest);
    AfterCons(s, Test(w), [Take(w)] + rest);
    var s1 := Step(s, Test(w));
    ValidShape(s1);
    AfterCons(s1, Take(w), rest);
    var s2 := Step(s1, Take(w));
    WritesOut(s2, w, n);
    var t := After(s2, rest);
    Settled(t, w);
  }

  lemma Settled(t: Service, w: nat)
    requires Valid(t) && w < MAX_QUEUE && t.workers[w].Looping?
    requires t.queues[t.workers[w].idx] == []
    ensures OfQueue(t.output, t.workers[w].idx) == OfQueue(t.submitted, t.workers[w].idx)
  {
    assert Conserved(t, t.workers[w].idx);
    HeldBy(t.workers, w);
  }

  lemma ExitedStep(s: Service, w: nat, e: Event)
    requires Valid(s) && w < MAX_QUEUE && s.workers[w].Exited?
    ensures Step(s, e).workers[w] == s.workers[w]
    ensures OfQueue(Step(s, e).output, s.workers[w].idx) == OfQueue(s.output, s.workers[w].idx)
  {
    if e.Write? && Can(s, e) {
      WritesOwn(s, e.w);
      QueueGrows(s.output, s.workers[e.w].batch[0], s.workers[w].idx);
    }
  }

  /** A worker that has left its loop has written for the last time: whatever its queue holds then, or
      receives later, is never written. There is no final drain. */
  lemma {:induction false} NoDrain(s: Service, w: nat, es: seq<Event>)
    requires Valid(s) && w < MAX_QUEUE && s.workers[w].Exited?
    ensures var t := After(s, es);
            t.workers[w] == s.workers[w] && OfQueue(t.output, s.workers[w].idx) == OfQueue(s.output, s.workers[w].idx)
    decreases |es|
  {
    hide OfQueue, Step;
    if es != [] {
      StepKeeps(s, es[0]);
      ExitedStep(s, w, es[0]);
      NoDrain(Step(s, es[0]), w, es[1..]);
    }
  }

  /** The records a schedule submits to queue q, in order. */
  function Sent(es: seq<Event>, q: nat): seq<LogData> {
    if es == [] then []
    else (if es[0].Submit? && es[0].rec.sessionUid % MAX_QUEUE == q then [es[0].rec] else []) + Sent(es[1..], q)
  }

  lemma {:induction false} NothingSent(es: seq<Event>, q: nat)
    ensures Sent(es, q) == [] <==> forall e :: e in es && e.Submit? ==> e.rec.sessionUid % MAX_QUEUE != q
    decreases |es|
  {
    if es == [] {
    } else {
      NothingSent(es[1..], q);
      assert es == [es[0]] + es[1..];
    }
  }

  lemma OrphanStep(s: Service, w: nat, e: Event)
    requires Valid(s) && w < MAX_QUEUE && s.workers[w].Exited? && s.workers[w].idx < MAX_QUEUE
    ensures Step(s, e).queues[s.workers[w].idx] == s.queues[s.workers[w].idx] + Sent([e], s.workers[w].idx)
  {
    if Can(s, e) && e.Take? {
      IndexInRange(s, e.w);
      assert s.workers[e.w].idx != s.workers[w].idx;
    }
  }

  /** The queue of a worker that has left its loop only grows, by what the schedule submits to it. */
  lemma {:induction false} OrphanQueue(s: Service, w: nat, es: seq<Event>)
    requires Valid(s) && w < MAX_QUEUE && s.workers[w].Exited?
    ensures s.workers[w].idx < MAX_QUEUE
    ensures After(s, es).queues[s.workers[w].idx] == s.queues[s.workers[w].idx] + Sent(es, s.workers[w].idx)
    decreases |es|
  {
    hide Step, OfQueue, Conserved;
    IndexInRange(s, w);
    if es == [] {
    } else {
      var q, t := s.workers[w].idx, Step(s, es[0]);
      StepKeeps(s, es[0]);
      ExitedStep(s, w, es[0]);
      OrphanStep(s, w, es[0]);
      OrphanQueue(t, w, es[1..]);
      assert Sent([es[0]], q) + Sent(es[1..], q) == Sent(es, q);
    }
  }

  /** What a worker that has left its loop loses: exactly the records its queue held when it left and
      those submitted to the queue afterwards. */
  lemma LostRecords(s: Service, w: nat, es: seq<Event>)
    requires Valid(s) && w < MAX_QUEUE && s.workers[w].Exited?
    ensures var q, t := s.workers[w].idx, After(s, es);
            q < MAX_QUEUE && OfQueue(t.submitted, q) == OfQueue(t.output, q) + (s.queues[q] + Sent(es, q))
  {
    hide OfQueue;
    var q, t := s.workers[w].idx, After(s, es);
    OrphanQueue(s, w, es);
    NoDrain(s, w, es);
    assert Conserved(t, q);
    HeldBy(t.workers, w);
  }

  /** So everything submitted to its queue is written exactly when the queue was empty when the worker
      left its loop and nothing is submitted to it afterwards. */
  lemma AllWrittenExactly(s: Service, w: nat, es: seq<Event>)
    requires Valid(s) && w < MAX_QUEUE && s.workers[w].Exited?
    ensures var q, t := s.workers[w].idx, After(s, es);
            && q < MAX_QUEUE
            && (OfQueue(t.submitted, q) == OfQueue(t.output, q) <==>
                  s.queues[q] == [] && forall e :: e in es && e.Submit? ==> e.rec.sessionUid % MAX_QUEUE != q)
  {
    hide OfQueue, Sent;
    var q, t := s.workers[w].idx, After(s, es);
    LostRecords(s, w, es);
    NothingSent(es, q);
    assert |OfQueue(t.submitted, q)| == |OfQueue(t.output, q)| + |s.queues[q]| + |Sent(es, q)|;
  }

  lemma {:induction false} AfterAppend(s: Service, es: seq<Event>, fs: seq<Event>)
    requires Valid(s)
    ensures After(s, es + fs) == After(After(s, es), fs)
    decreases |es|
  {
    hide Valid, Step;
    if es == [] {
      assert es + fs == fs;
    } else {
      ValidShape(s);
      StepKeeps(s, es[0]);
      AfterAppend(Step(s, es[0]), es[1..], fs);
      assert (es + fs)[1..] == es[1..] + fs;
    }
  }

  /** The first worker begins and finds its queue empty. */
  function EmptyTurn(): seq<Event> {
    [Begin(0)] + ([Test(0)] + ([Take(0)] + ([Finish(0)] + [])))
  }

  /** A record arrives and the service is stopped before the worker looks at the flag again. */
  function LateRecord(r: LogData): seq<Event> {
    [Submit(r)] + ([Stop] + ([Test(0)] + []))
  }

  function LossSchedule(r: LogData): seq<Event> {
    EmptyTurn() + LateRecord(r)
  }

  /** That run, however it goes on, never writes the record. */
  lemma RecordLost(r: LogData, more: seq<Event>)
    requires r.sessionUid % MAX_QUEUE == 0
    ensures var t := Run(LossSchedule(r) + more);
            t.workers[0] == Exited(0) && r in OfQueue(t.submitted, 0) && r !in t.output
  {
    StartedValid();
    AfterEmptyTurn(Started());
    AfterLateRecord(Run(EmptyTurn()), r);
    hide Step, OfQueue, Valid, EmptyTurn, LateRecord, After;
    var s, t := Run(LossSchedule(r)), Run(LossSchedule(r) + more);
    AfterAppend(Started(), EmptyTurn(), LateRecord(r));
    AfterAppend(Started(), LossSchedule(r), more);
    NothingOfQueue(0);
    NoDrain(s, 0, more);
    LostRecords(s, 0, more);
    CountWithinQueue(t.output, r);
  }

  lemma AfterEmptyTurn(s0: Service)
    requires Valid(s0) && s0.alive && s0.queueIndex == 0 && s0.workers[0].Waiting? && s0.queues[0] == []
    ensures var s := After(s0, EmptyTurn());
            Shape(s) && s.workers[0] == Looping(0) && s.queues[0] == [] && s.output == s0.output && s.alive
  {
    ValidShape(s0);
    hide Valid, Held, After, OfQueue, Owners;
    AfterCons(s0, Begin(0), [Test(0)] + ([Take(0)] + ([Finish(0)] + [])));
    var s1 := Step(s0, Begin(0));
    ValidShape(s1);
    AfterCons(s1, Test(0), [Take(0)] + ([Finish(0)] + []));
    var s2 := Step(s1, Test(0));
    ValidShape(s2);
    AfterCons(s2, Take(0), [Finish(0)] + []);
    var s3 := Step(s2, Take(0));
    ValidShape(s3);
    AfterCons(s3, Finish(0), []);
    AfterNothing(Step(s3, Finish(0)));
    ValidShape(Step(s3, Finish(0)));
  }

  lemma AfterLateRecord(s: Service, r: LogData)
    requires Valid(s) && s.workers[0] == Looping(0) && r.sessionUid % MAX_QUEUE == 0
    ensures var t := After(s, LateRecord(r));
            Shape(t) && t.workers[0] == Exited(0) && t.queues[0] == s.queues[0] + [r] && t.output == s.output
  {
    ValidShape(s);
    hide Valid, Held, After, OfQueue;
    AfterCons(s, Submit(r), [Stop] + ([Test(0)] + []));
    var s1 := Step(s, Submit(r));
    ValidShape(s1);
    AfterCons(s1, Stop, [Test(0)] + []);
    var s2 := Step(s1, Stop);
    ValidShape(s2);
    AfterCons(s2, Test(0), []);
    AfterNothing(Step(s2, Test(0)));
    ValidShape(Step(s2, Test(0)));
  }

  lemma NothingOfQueue(q: nat)
    ensures OfQueue([], q) == []
  {
  }

  // ---------- the object ----------

  /** The shared variables of the source and the ten threads' own. */
  class LogService {
    var isAlive: bool
    var queueIndex: nat
    const queues: array<seq<LogData>>
    var workers: seq<Worker>
    var output: seq<LogData>
    ghost var submitted: seq<LogData>

    ghost function View(): Service
      reads this, queues
    {
      Service(isAlive, queueIndex, queues[..], workers, submitted, output)
    }

    /** The worker start of OnLoadConfigure. */
    constructor ()
      ensures View() == Started() && Valid(View())
    {
      queues := new seq<LogData>[MAX_QUEUE](_ => []);
      isAlive := true;
      queueIndex := 0;
      workers := seq(MAX_QUEUE, _ => Waiting);
      output, submitted := [], [];
      new;
      StartedValid();
    }

    method SetLogMessage(combin: LogData)
      requires Valid(View())
      modifies this`submitted, queues
      ensures View() == Step(old(View()), Submit(combin)) && Valid(View())
    {
      hide Valid, Owners;
      ghost var s := View();
      ValidShape(s);
      StepKeeps(s, Submit(combin));
      var tbidx := combin.sessionUid % MAX_QUEUE;
      queues[tbidx] := queues[tbidx] + [combin];
      submitted := submitted + [combin];
      assert queues[..] == Step(s, Submit(combin)).queues;
    }

    /** The first section of DoUpdate: the thread takes its index. */
    method TakeIndex(w: nat)
      requires Valid(View()) && Can(View(), Begin(w))
      modifies this`queueIndex, this`workers
      ensures View() == Step(old(View()), Begin(w)) && Valid(View())
    {
      hide Valid, Owners;
      ValidShape(View());
      StepKeeps(View(), Begin(w));
      var threadIdx := queueIndex;
      queueIndex := queueIndex + 1;
      workers := workers[w := Looping(threadIdx)];
    }

    /** The loop test. */
    method TestAlive(w: nat)
      requires Valid(View()) && Can(View(), Test(w))
      modifies this`workers
      ensures View() == Step(old(View()), Test(w)) && Valid(View())
    {
      hide Valid, Owners;
      ValidShape(View());
      StepKeeps(View(), Test(w));
      workers := workers[w := if isAlive then Taking(workers[w].idx) else Exited(workers[w].idx)];
    }

    /** The section under the queue's lock: copy and clear. */
    method TakeBatch(w: nat)
      requires Valid(View()) && Can(View(), Take(w))
      modifies this`workers, queues
      ensures View() == Step(old(View()), Take(w)) && Valid(View())
    {
      hide Valid, Owners;
      ghost var s := View();
      ValidShape(s);
      IndexInRange(s, w);
      StepKeeps(s, Take(w));
      var threadIdx := workers[w].idx;
      var logdata := queues[threadIdx];
      queues[threadIdx] := [];
      workers := workers[w := Writing(threadIdx, logdata)];
      assert queues[..] == Step(s, Take(w)).queues;
    }

    /** One turn of the inner loop: one record goes to the database. */
    method WriteRecord(w: nat)
      requires Valid(View()) && Can(View(), Write(w))
      modifies this`workers, this`output
      ensures View() == Step(old(View()), Write(w)) && Valid(View())
    {
      hide Valid, Owners;
      ValidShape(View());
      StepKeeps(View(), Write(w));
      var batch := workers[w].batch;
      output := output + [batch[0]];
      workers := workers[w := Writing(workers[w].idx, batch[1..])];
    }

    /** The inner loop is over. */
    method FinishBatch(w: nat)
      requires Valid(View()) && Can(View(), Finish(w))
      modifies this`workers
      ensures View() == Step(old(View()), Finish(w)) && Valid(View())
    {
      hide Valid, Owners;
      ValidShape(View());
      StepKeeps(View(), Finish(w));
      workers := workers[w := Looping(workers[w].idx)];
    }

    /** The service is shut down. */
    method Shutdown()
      requires Valid(View())
      modifies this`isAlive
      ensures View() == Step(old(View()), Stop) && Valid(View())
    {
      hide Valid, Owners;
      ValidShape(View());
      StepKeeps(View(), Stop);
      isAlive := false;
    }
  }
}
