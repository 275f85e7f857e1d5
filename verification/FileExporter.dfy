/** The log file worker of dev/cyberspace/src/cs-log_file_exporter.cpp: producers append messages under
    a lock, one thread moves them to a file that changes with the day, and drains the rest at the end.
    A schedule is any sequence of steps; a step that cannot be taken leaves everything as it is. */
module FileExporter {

  import opened Wrappers

  /** A message in the file opened on a date. */
  datatype Line = Line(date: string, text: string)

  /** Where the worker thread stands in DoUpdate. */
  datatype Phase =
    | Waiting
    | Looping
    | Checking
    | Collecting
    | Writing(batch: seq<string>)
    | Ending
    | Draining(batch: seq<string>)
    | Done
    | Crashed

  datatype Exporter = Exporter(
    isLive: bool,
    logf: Option<string>,
    day: int,
    phase: Phase,
    messages: seq<string>,
    accepted: seq<string>,
    lines: seq<Line>)

  datatype Event =
    | Output(stamp: string, text: Option<string>)
    | Close
    | Begin(today: int)
    | Test
    | Check(today: int, date: string, opens: bool)
    | Collect
    | Write
    | Flush
    | Drain
    | WriteRest
    | Finish

  /** What OutputMessage queues. */
  function Stamped(stamp: string, text: string): string {
    stamp + " : " + text
  }

  lemma StampedExample()
    ensures Stamped("2016/01/01", "up") == "2016/01/01 : up"
  {
  }

  /** A null or empty string is not a message. */
  predicate IsMessage(text: Option<string>) {
    text.Some? && text.value != ""
  }

  function Step(s: Exporter, e: Event): Exporter {
    match e
    case Output(stamp, text) =>
      if IsMessage(text) then
        var m := Stamped(stamp, text.value);
        s.(messages := s.messages + [m], accepted := s.accepted + [m])
      else s
    case Close => s.(isLive := false)
    case Begin(today) => if s.phase.Waiting? then s.(phase := Looping, day := today) else s
    case Test =>
      if !s.phase.Looping? then s
      else if s.isLive then s.(phase := Checking)
      else s.(phase := Ending)
    case Check(today, date, opens) =>
      if !s.phase.Checking? then s
      else if s.day != today || s.logf.None? then
        s.(phase := Collecting, logf := if opens then Some(date) else None, day := today)
      else s.(phase := Collecting)
    case Collect => if s.phase.Collecting? then s.(phase := Writing(s.messages), messages := []) else s
    case Write =>
      if !(s.phase.Writing? && s.phase.batch != []) then s else Put(s, Writing(s.phase.batch[1..]))
    case Flush => if s.phase.Writing? && s.phase.batch == [] then s.(phase := Looping) else s
    case Drain => if s.phase.Ending? then s.(phase := Draining(s.messages), messages := []) else s
    case WriteRest =>
      if !(s.phase.Draining? && s.phase.batch != []) then s else Put(s, Draining(s.phase.batch[1..]))
    case Finish =>
      if !(s.phase.Draining? && s.phase.batch == []) then s
      else if s.logf.None? then s.(phase := Crashed)
      else s.(phase := Done, logf := None)
  }

  /** fwrite of the first message of the batch; there is nowhere to write it without a file. */
  function Put(s: Exporter, next: Phase): Exporter
    requires (s.phase.Writing? || s.phase.Draining?) && s.phase.batch != []
  {
    if s.logf.None? then s.(phase := Crashed)
    else s.(lines := s.lines + [Line(s.logf.value, s.phase.batch[0])], phase := next)
  }

  /** The state after Open: no file yet. */
  function Opened(): Exporter {
    Exporter(true, None, 0, Waiting, [], [], [])
  }

  function After(s: Exporter, es: seq<Event>): Exporter
    decreases |es|
  {
    if es == [] then s else After(Step(s, es[0]), es[1..])
  }

  function Run(es: seq<Event>): Exporter {
    After(Opened(), es)
  }

  /** The texts of the lines of all files, in the order they were written. */
  function Texts(lines: seq<Line>): seq<string> {
    seq(|lines|, k requires 0 <= k < |lines| => lines[k].text)
  }

  /** The messages the worker has taken but not written. */
  function Held(s: Exporter): seq<string> {
    if s.phase.Writing? || s.phase.Draining? then s.phase.batch else []
  }

  // ---------- conservation ----------

  predicate Conserved(s: Exporter) {
    Texts(s.lines) + Held(s) + s.messages == s.accepted
  }

  /** There is no file before the worker begins and after it has stopped, and its last part is only
      reached after Close. */
  predicate FileOpen(s: Exporter) {
    match s.phase
    case Waiting => s.logf.None?
    case Ending => !s.isLive
    case Draining(_) => !s.isLive
    case Done => !s.isLive && s.logf.None?
    case Crashed => s.logf.None?
    case _ => true
  }

  predicate Valid(s: Exporter) {
    FileOpen(s) && (!s.phase.Crashed? ==> Conserved(s))
  }

  lemma TextsGrow(lines: seq<Line>, l: Line)
    ensures Texts(lines + [l]) == Texts(lines) + [l.text]
  {
  }

  lemma PutKeeps(s: Exporter, e: Event)
    requires Valid(s) && (e == Write || e == WriteRest)
    ensures Valid(Step(s, e))
  {
    if (s.phase.Writing? || s.phase.Draining?) && s.phase.batch != [] {
      var b := s.phase.batch;
      assert b == [b[0]] + b[1..];
      if s.logf.Some? {
        TextsGrow(s.lines, Line(s.logf.value, b[0]));
        assert Texts(s.lines) + [b[0]] + b[1..] == Texts(s.lines) + b;
      }
    }
  }

  lemma StepKeeps(s: Exporter, e: Event)
    requires Valid(s)
    ensures Valid(Step(s, e))
  {
    hide Texts, Stamped;
    match e
    case Write => PutKeeps(s, e);
    case WriteRest => PutKeeps(s, e);
    case Output(stamp, text) =>
      if IsMessage(text) && !s.phase.Crashed? {
        var m := Stamped(stamp, text.value);
        assert Texts(s.lines) + Held(s) + (s.messages + [m]) == Texts(s.lines) + Held(s) + s.messages + [m];
      }
    case _ =>
  }

  lemma {:induction false} AfterKeeps(s: Exporter, es: seq<Event>)
    requires Valid(s)
    ensures Valid(After(s, es))
    decreases |es|
  {
    hide Step, Valid;
    if es != [] {
      StepKeeps(s, es[0]);
      AfterKeeps(Step(s, es[0]), es[1..]);
    }
  }

  /** In every schedule, across every change of file, what was written, what the worker holds and what
      is queued are together what was accepted, in order. */
  lemma EveryRunConserves(es: seq<Event>)
    ensures var s := Run(es);
            !s.phase.Crashed? ==> Texts(s.lines) + Held(s) + s.messages == s.accepted
  {
    hide After, Texts, Held;
    OpenedValid();
    AfterKeeps(Opened(), es);
  }

  // ---------- when the worker crashes ----------

  /** Whether the service is still live at the first loop test that is one; `begun` and `live` say how
      things stand before the schedule. None if there is no such test. */
  function FirstTest(es: seq<Event>, begun: bool, live: bool): Option<bool>
    decreases |es|
  {
    if es == [] then None
    else if begun && es[0].Test? then Some(live)
    else FirstTest(es[1..], begun || es[0].Begin?, live && !es[0].Close?)
  }

  /** Close comes before the first loop test. */
  predicate ClosedFirst(es: seq<Event>) {
    FirstTest(es, false, true) == Some(false)
  }

  /** No fopen of the schedule fails. */
  predicate AllOpen(es: seq<Event>) {
    forall e :: e in es && e.Check? ==> e.opens
  }

  /** Where the worker can be once its first test has said that the service is live, if no fopen fails. */
  predicate HasFile(s: Exporter) {
    match s.phase
    case Waiting => false
    case Checking => true
    case Done => true
    case Crashed => false
    case _ => s.logf.Some?
  }

  /** Where it can be once that test has said otherwise. */
  predicate HasNone(s: Exporter) {
    s.logf.None? && (s.phase.Ending? || s.phase.Draining? || s.phase.Crashed?)
  }

  lemma {:induction false} FileStays(s: Exporter, es: seq<Event>)
    requires HasFile(s) && AllOpen(es)
    ensures HasFile(After(s, es))
    decreases |es|
  {
    hide Step;
    if es == [] {
    } else {
      FileStep(s, es[0]);
      FileStays(Step(s, es[0]), es[1..]);
    }
  }

  lemma FileStep(s: Exporter, e: Event)
    requires HasFile(s) && (e.Check? ==> e.opens)
    ensures HasFile(Step(s, e))
  {
  }

  lemma {:induction false} NoneStays(s: Exporter, es: seq<Event>)
    requires HasNone(s)
    ensures HasNone(After(s, es))
    decreases |es|
  {
    hide Step;
    if es == [] {
    } else {
      NoneStep(s, es[0]);
      NoneStays(Step(s, es[0]), es[1..]);
    }
  }

  lemma NoneStep(s: Exporter, e: Event)
    requires HasNone(s)
    ensures HasNone(Step(s, e))
  {
  }

  /** The first test decides where the worker can get. */
  lemma {:induction false} FirstTestDecides(s: Exporter, es: seq<Event>)
    requires (s.phase.Waiting? || s.phase.Looping?) && s.logf.None?
    ensures var t := After(s, es);
            match FirstTest(es, s.phase.Looping?, s.isLive)
            case None => t.phase.Waiting? || t.phase.Looping?
            case Some(live) => if live then AllOpen(es) ==> HasFile(t) else HasNone(t)
    decreases |es|
  {
    hide Step, HasFile, HasNone;
    if es == [] {
    } else {
      var t := Step(s, es[0]);
      BeforeTest(s, es[0]);
      if s.phase.Looping? && es[0].Test? {
        if s.isLive {
          if AllOpen(es) {
            FileStays(t, es[1..]);
          }
        } else {
          NoneStays(t, es[1..]);
        }
      } else {
        FirstTestDecides(t, es[1..]);
      }
    }
  }

  lemma BeforeTest(s: Exporter, e: Event)
    requires (s.phase.Waiting? || s.phase.Looping?) && s.logf.None?
    ensures var t := Step(s, e);
            if s.phase.Looping? && e.Test? then (if s.isLive then HasFile(t) else HasNone(t))
            else
              && (t.phase.Waiting? || t.phase.Looping?) && t.logf.None?
              && (t.phase.Looping? <==> s.phase.Looping? || e.Begin?) && (t.isLive <==> s.isLive && !e.Close?)
  {
  }

  /** A worker that has stopped has crashed exactly when the service was closed before its first loop
      test, as long as no fopen fails: its loop body, which opens the first file, was never entered. */
  lemma CrashesOnlyUnentered(es: seq<Event>)
    requires AllOpen(es) && (Run(es).phase.Done? || Run(es).phase.Crashed?)
    ensures Run(es).phase.Crashed? <==> ClosedFirst(es)
  {
    hide After, FirstTest;
    FirstTestDecides(Opened(), es);
  }

  /** Whether or not some fopen failed: from its last loop test on, the worker crashes exactly when it
      then has no file. */
  lemma {:induction false} EndDecided(s: Exporter, es: seq<Event>)
    requires s.phase.Ending? || s.phase.Draining?
    requires After(s, es).phase.Done? || After(s, es).phase.Crashed?
    ensures After(s, es).phase.Crashed? <==> s.logf.None?
    decreases |es|
  {
    hide Step;
    if es != [] {
      var t := Step(s, es[0]);
      EndStep(s, es[0]);
      if t.phase.Ending? || t.phase.Draining? {
        EndDecided(t, es[1..]);
      } else {
        StoppedStays(t, es[1..]);
      }
    }
  }

  lemma EndStep(s: Exporter, e: Event)
    requires s.phase.Ending? || s.phase.Draining?
    ensures var t := Step(s, e);
            if s.logf.None? then HasNone(t)
            else t.phase.Done? || ((t.phase.Ending? || t.phase.Draining?) && t.logf == s.logf)
  {
  }

  lemma {:induction false} StoppedStays(s: Exporter, es: seq<Event>)
    requires s.phase.Done? || s.phase.Crashed?
    ensures After(s, es).phase == s.phase
    decreases |es|
  {
    if es != [] {
      StoppedStays(Step(s, es[0]), es[1..]);
    }
  }

  /** A failed fopen is tried again in the next turn, but not before the messages that have come in are
      written to the file that is not there. */
  lemma FailedOpening(s: Exporter, today: int, date: string)
    requires s.phase.Checking? && s.logf.None?
    ensures var t := After(s, [Check(today, date, false), Collect]);
            && t.logf.None? && t.phase == Writing(s.messages)
            && Step(Step(t, Write), Flush).phase == if s.messages == [] then Looping else Crashed
  {
    hide After;
    var c := Check(today, date, false);
    AfterOne(Step(s, c), Collect);
    AfterFirst(s, c, [Collect]);
    assert [c] + [Collect] == [c, Collect];
  }

  /** A run that closes too early: the accepted message is lost with the crash. */
  lemma ClosedTooEarly(stamp: string, text: string, today: int)
    requires text != ""
    ensures var s := Run([Output(stamp, Some(text)), Begin(today), Close, Test, Drain, WriteRest]);
            s.phase.Crashed? && s.lines == [] && s.accepted == [Stamped(stamp, text)]
  {
    hide Step, After;
    var m := Stamped(stamp, text);
    var s1 := Opened().(messages := [m], accepted := [m]);
    var s2 := s1.(phase := Looping, day := today);
    var s3 := s2.(isLive := false);
    var s4 := s3.(phase := Ending);
    var s5 := s4.(phase := Draining([m]), messages := []);
    EarlySteps(stamp, text, today);
    var e1, e2, e3, e4, e5, e6 := Output(stamp, Some(text)), Begin(today), Close, Test, Drain, WriteRest;
    AfterOne(s5, e6);
    AfterFirst(s4, e5, [e6]);
    AfterFirst(s3, e4, [e5, e6]);
    AfterFirst(s2, e3, [e4, e5, e6]);
    AfterFirst(s1, e2, [e3, e4, e5, e6]);
    AfterFirst(Opened(), e1, [e2, e3, e4, e5, e6]);
    assert [e5] + [e6] == [e5, e6] && [e4] + [e5, e6] == [e4, e5, e6] && [e3] + [e4, e5, e6] == [e3, e4, e5, e6];
    assert [e2] + [e3, e4, e5, e6] == [e2, e3, e4, e5, e6] && [e1] + [e2, e3, e4, e5, e6] == [e1, e2, e3, e4, e5, e6];
  }

  lemma AfterFirst(s: Exporter, e: Event, es: seq<Event>)
    ensures After(s, [e] + es) == After(Step(s, e), es)
  {
    assert ([e] + es)[1..] == es;
  }

  lemma EarlySteps(stamp: string, text: string, today: int)
    requires text != ""
    ensures var m := Stamped(stamp, text);
            var s1 := Opened().(messages := [m], accepted := [m]);
            var s2 := s1.(phase := Looping, day := today);
            var s3 := s2.(isLive := false);
            var s4 := s3.(phase := Ending);
            var s5 := s4.(phase := Draining([m]), messages := []);
            && Step(Opened(), Output(stamp, Some(text))) == s1 && Step(s1, Begin(today)) == s2 && Step(s2, Close) == s3
            && Step(s3, Test) == s4 && Step(s4, Drain) == s5 && Step(s5, WriteRest) == s5.(phase := Crashed)
  {
  }

  // ---------- the final drain ----------

  lemma {:induction false} AfterAppend(s: Exporter, es: seq<Event>, fs: seq<Event>)
    ensures After(s, es + fs) == After(After(s, es), fs)
    decreases |es|
  {
    hide Step;
    if es == [] {
      assert es + fs == fs;
    } else {
      assert (es + fs)[1..] == es[1..] + fs;
      AfterAppend(Step(s, es[0]), es[1..], fs);
    }
  }

  /** The messages of the events that queue one. */
  function Accepted(es: seq<Event>): seq<string> {
    if es == [] then []
    else
      (if es[0].Output? && IsMessage(es[0].text) then [Stamped(es[0].stamp, es[0].text.value)] else []) + Accepted(es[1..])
  }

  /** From the moment the final batch is taken on, whatever else happens, what is still to be written
      is that batch: later messages stay in the queue for good. */
  lemma {:induction false} DrainFixed(s: Exporter, es: seq<Event>)
    requires Valid(s) && ((s.phase.Draining? && s.logf.Some?) || s.phase.Done?)
    ensures var t := After(s, es);
            && (t.phase.Draining? || t.phase.Done?)
            && Texts(t.lines) + Held(t) == Texts(s.lines) + Held(s)
            && t.messages == s.messages + Accepted(es)
    decreases |es|
  {
    hide Texts, Valid, Step, Held;
    if es == [] {
      assert s.messages + [] == s.messages;
    } else {
      var t := Step(s, es[0]);
      StepKeeps(s, es[0]);
      DrainStep(s, es[0]);
      DrainFixed(t, es[1..]);
      AcceptedCons(es);
      assert s.messages + Accepted([es[0]]) + Accepted(es[1..]) == s.messages + (Accepted([es[0]]) + Accepted(es[1..]));
    }
  }

  lemma AcceptedCons(es: seq<Event>)
    requires es != []
    ensures Accepted(es) == Accepted([es[0]]) + Accepted(es[1..])
  {
    hide Stamped, IsMessage;
    assert [es[0]][1..] == [];
  }

  lemma DrainStep(s: Exporter, e: Event)
    requires Valid(s) && ((s.phase.Draining? && s.logf.Some?) || s.phase.Done?)
    ensures var t := Step(s, e);
            && ((t.phase.Draining? && t.logf.Some?) || t.phase.Done?)
            && Texts(t.lines) + Held(t) == Texts(s.lines) + Held(s)
            && t.messages == s.messages + Accepted([e])
  {
    assert Accepted([e]) == (if e.Output? && IsMessage(e.text) then [Stamped(e.stamp, e.text.value)] else []) + [];
    if e.WriteRest? && s.phase.Draining? && s.phase.batch != [] {
      var b := s.phase.batch;
      TextsGrow(s.lines, Line(s.logf.value, b[0]));
      assert b == [b[0]] + b[1..];
    }
  }

  /** In every schedule in which the worker ends properly, everything accepted up to the final take is
      in the files, and everything accepted later is still queued. */
  lemma FinalDrain(before: seq<Event>, after: seq<Event>)
    requires Run(before).phase.Ending?
    requires Run(before + [Drain] + after).phase.Done?
    ensures Texts(Run(before + [Drain] + after).lines) == Run(before).accepted
    ensures Run(before + [Drain] + after).messages == Accepted(after)
  {
    hide After, Texts, Valid;
    var s := Run(before);
    OpenedValid();
    AfterKeeps(Opened(), before);
    var t := Step(s, Drain);
    AfterAppend(Opened(), before + [Drain], after);
    AfterAppend(Opened(), before, [Drain]);
    AfterOne(s, Drain);
    StepKeeps(s, Drain);
    EndDecided(t, after);
    DrainFixed(t, after);
    EveryRunConserves(before);
    var u := Run(before + [Drain] + after);
    assert Texts(u.lines) + [] == Texts(u.lines);
    assert Texts(s.lines) + [] + s.messages == Texts(s.lines) + s.messages;
    assert [] + Accepted(after) == Accepted(after);
  }

  lemma AfterOne(s: Exporter, e: Event)
    ensures After(s, [e]) == Step(s, e)
  {
    assert After(Step(s, e), []) == Step(s, e);
  }

  lemma OpenedValid()
    ensures Valid(Opened())
  {
  }

  // ---------- the object ----------

  class Exporting {
    var isLive: bool
    var logf: Option<string>
    var day: int
    var phase: Phase
    var logMessage: seq<string>
    var lines: seq<Line>
    ghost var accepted: seq<string>

    ghost function View(): Exporter
      reads this
    {
      Exporter(isLive, logf, day, phase, logMessage, accepted, lines)
    }

    /** Open. */
    constructor ()
      ensures View() == Opened() && Valid(View())
    {
      isLive, logf, day, phase := true, None, 0, Waiting;
      logMessage, lines := [], [];
      accepted := [];
    }

    method OutputMessage(stamp: string, text: Option<string>)
      requires Valid(View())
      modifies this`logMessage, this`accepted
      ensures View() == Step(old(View()), Output(stamp, text)) && Valid(View())
    {
      hide Valid;
      StepKeeps(View(), Output(stamp, text));
      if text.None? {
        return;
      }
      if text.value == "" {
        return;
      }
      var message := stamp + " : " + text.value;
      logMessage := logMessage + [message];
      accepted := accepted + [message];
    }

    method CloseLog()
      requires Valid(View())
      modifies this`isLive
      ensures View() == Step(old(View()), Close) && Valid(View())
    {
      StepKeeps(View(), Close);
      isLive := false;
    }

    /** The first lines of DoUpdate. */
    method Enter(today: int)
      requires Valid(View()) && phase.Waiting?
      modifies this`day, this`phase
      ensures View() == Step(old(View()), Begin(today)) && Valid(View())
    {
      StepKeeps(View(), Begin(today));
      day := today;
      phase := Looping;
    }

    /** The loop test. */
    method TestLive()
      requires Valid(View()) && phase.Looping?
      modifies this`phase
      ensures View() == Step(old(View()), Test) && Valid(View())
    {
      StepKeeps(View(), Test);
      if isLive {
        phase := Checking;
      } else {
        phase := Ending;
      }
    }

    /** Opens the first file, and another one when the day has changed; `opens` is whether fopen succeeds. */
    method ChangeFile(today: int, date: string, opens: bool)
      requires Valid(View()) && phase.Checking?
      modifies this`logf, this`day, this`phase
      ensures View() == Step(old(View()), Check(today, date, opens)) && Valid(View())
    {
      StepKeeps(View(), Check(today, date, opens));
      if day != today || logf.None? {
        if logf.Some? {
          logf := None;
        }
        logf := if opens then Some(date) else None;
        day := today;
      }
      phase := Collecting;
    }

    /** The section under the lock: copy and clear. */
    method CollectBatch()
      requires Valid(View()) && phase.Collecting?
      modifies this`phase, this`logMessage
      ensures View() == Step(old(View()), Collect) && Valid(View())
    {
      StepKeeps(View(), Collect);
      phase := Writing(logMessage);
      logMessage := [];
    }

    /** One turn of the writing loop. */
    method WriteLine()
      requires Valid(View()) && phase.Writing? && phase.batch != []
      modifies this`phase, this`lines
      ensures View() == Step(old(View()), Write) && Valid(View())
    {
      StepKeeps(View(), Write);
      if logf.None? {
        phase := Crashed;
      } else {
        lines := lines + [Line(logf.value, phase.batch[0])];
        phase := Writing(phase.batch[1..]);
      }
    }

    method FlushBatch()
      requires Valid(View()) && phase.Writing? && phase.batch == []
      modifies this`phase
      ensures View() == Step(old(View()), Flush) && Valid(View())
    {
      StepKeeps(View(), Flush);
      phase := Looping;
    }

    /** After the loop: the rest of the queue is taken. */
    method DrainBatch()
      requires Valid(View()) && phase.Ending?
      modifies this`phase, this`logMessage
      ensures View() == Step(old(View()), Drain) && Valid(View())
    {
      StepKeeps(View(), Drain);
      phase := Draining(logMessage);
      logMessage := [];
    }

    method WriteRestLine()
      requires Valid(View()) && phase.Draining? && phase.batch != []
      modifies this`phase, this`lines
      ensures View() == Step(old(View()), WriteRest) && Valid(View())
    {
      StepKeeps(View(), WriteRest);
      if logf.None? {
        phase := Crashed;
      } else {
        lines := lines + [Line(logf.value, phase.batch[0])];
        phase := Draining(phase.batch[1..]);
      }
    }

    method CloseFile()
      requires Valid(View()) && phase.Draining? && phase.batch == []
      modifies this`phase, this`logf
      ensures View() == Step(old(View()), Finish) && Valid(View())
    {
      StepKeeps(View(), Finish);
      if logf.None? {
        phase := Crashed;
      } else {
        logf := None;
        phase := Done;
      }
    }
  }
}
