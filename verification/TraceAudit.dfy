/** The explanation rebuilt from the trace alone, and the proof that it is the stored one. */
module TraceAudit {
  import opened Trading
  import opened Trace
  import opened Explainer

  const DRIVER_DAYS := 5

  /** What the audit reads of a step. */
  datatype View = View(kind: Kind, input: Payload, output: Payload)

  function ViewOf(s: Step): View {
    View(s.kind, s.input, s.output)
  }

  function OneView(s: Step): seq<View> {
    if s.node == ExplainerNode then [ViewOf(s)] else []
  }

  /** The explainer's own steps, in order. */
  function ExplainerViews(steps: seq<Step>): seq<View> {
    if steps == [] then [] else ExplainerViews(steps[..|steps| - 1]) + OneView(steps[|steps| - 1])
  }

  // ---------------------------------------------------------------- rebuilding

  datatype Explanation = Explanation(retrieved: Retrieved, cited: seq<int>, problems: seq<Problem>, valid: bool)

  /** `Broken` is the exception for a step without the fields the audit reads or a reply that does
      not parse. */
  datatype Rebuilt = NoReply | Broken | Rebuilt(explanation: Explanation)

  function Check(drivers: seq<Driver>, retrieved: Retrieved): Explanation {
    var problems := Problems(drivers, retrieved);
    Explanation(retrieved, Cited(drivers), problems, problems == [])
  }

  function RetrievalOf(v: View): Option<(string, seq<int>)> {
    if v.input.ForDay? && v.output.Results? then Some((v.input.day, v.output.ids)) else None
  }

  /** Retrieved ids by day, later retrievals of a day replacing earlier ones. */
  function RetrievedBy(views: seq<View>): Option<Retrieved> {
    if views == [] then Some(map[])
    else
      var before, last := RetrievedBy(views[..|views| - 1]), views[|views| - 1];
      if before.None? then None
      else if last.kind != RETRIEVAL then before
      else
        var r := RetrievalOf(last);
        if r.None? then None else Some(before.value[r.value.0 := r.value.1])
  }

  function LastReply(views: seq<View>): Option<View> {
    if views == [] then None
    else if views[|views| - 1].kind == LLM then Some(views[|views| - 1])
    else LastReply(views[..|views| - 1])
  }

  function RebuildFrom(reply: Option<View>, retrieved: Option<Retrieved>,
                       parse: string -> Option<seq<Driver>>): Rebuilt {
    if reply.None? then NoReply
    else if retrieved.None? || !reply.value.output.Content? then Broken
    else
      var drivers := parse(reply.value.output.text);
      if drivers.None? then Broken else Rebuilt(Check(drivers.value, retrieved.value))
  }

  function Rebuild(steps: seq<Step>, parse: string -> Option<seq<Driver>>): Rebuilt {
    var views := ExplainerViews(steps);
    RebuildFrom(LastReply(views), RetrievedBy(views), parse)
  }

  // ---------------------------------------------------------------- what the node does

  /** One explained decision: the tail dates, what each retrieval returned, and the one model call. */
  datatype Task = Task(tail: seq<string>, retrieve: string -> seq<int>, run: int, prompt: string, model: Option<string>,
                       reply: Reply, startedAt: int, endedAt: int)

  function ContentOf(reply: Reply): Payload {
    Content(reply.text, reply.toolCalls)
  }

  function TailDates(task: Task): seq<string> {
    if |task.tail| <= DRIVER_DAYS then task.tail else task.tail[..DRIVER_DAYS]
  }

  function RetrievalEvents(dates: seq<string>, retrieve: string -> seq<int>): seq<Event> {
    if dates == [] then []
    else
      var day := dates[|dates| - 1];
      RetrievalEvents(dates[..|dates| - 1], retrieve)
        + [Added(ExplainerNode, RETRIEVAL, ForDay(day), Results(retrieve(day)), NO_DETAIL)]
  }

  /** The node's own dictionary of retrieved ids. */
  function NodeRetrieved(dates: seq<string>, retrieve: string -> seq<int>): Retrieved {
    if dates == [] then map[]
    else NodeRetrieved(dates[..|dates| - 1], retrieve)[dates[|dates| - 1] := retrieve(dates[|dates| - 1])]
  }

  /** The callbacks and records of the explainer node, in its own order. */
  function Script(task: Task): seq<Event> {
    RetrievalEvents(TailDates(task), task.retrieve)
      + [Started(task.run, ExplainerNode, task.prompt, task.model, task.startedAt)]
      + [Ended(task.run, Some(task.reply), task.endedAt)]
      + [Added(ExplainerNode, CHECK, Other("drivers"), Other("check"), NO_DETAIL)]
  }

  /** What the node stores with the decision. */
  function Stored(task: Task, drivers: seq<Driver>): Explanation {
    Check(drivers, NodeRetrieved(TailDates(task), task.retrieve))
  }

  // ---------------------------------------------------------------- other nodes do not matter

  /** Events of the explainer: its records, its calls' starts, and everything of the call's run id. */
  predicate Own(e: Event, run: int) {
    match e
    case Added(node, _, _, _, _) => node == ExplainerNode
    case Started(r, node, _, _, _) => node == ExplainerNode || r == run
    case Ended(r, _, _) => r == run
    case Erred(r, _, _) => r == run
  }

  function OwnEvents(events: seq<Event>, run: int): seq<Event> {
    if events == [] then []
    else
      OwnEvents(events[..|events| - 1], run) + if Own(events[|events| - 1], run) then [events[|events| - 1]] else []
  }

  /** How many explainer steps come before a position. */
  function Rank(steps: seq<Step>, idx: nat): nat
    requires idx <= |steps|
  {
    |ExplainerViews(steps[..idx])|
  }

  /** A recorder that saw all events against one that saw only the explainer's. */
  ghost predicate Matches(all: Recorder, own: Recorder, run: int) {
    && Sound(all) && Sound(own)
    && ExplainerViews(all.steps) == ExplainerViews(own.steps)
    && (run in all.open <==> run in own.open)
    && (run in all.open ==>
          && all.steps[all.open[run].0].node == ExplainerNode && own.steps[own.open[run].0].node == ExplainerNode
          && Rank(all.steps, all.open[run].0) == Rank(own.steps, own.open[run].0))
    && (forall other :: other in all.open && other != run ==> all.steps[all.open[other].0].node != ExplainerNode)
    && (forall other :: other in own.open ==> other == run)
  }

  lemma {:induction false} ViewsConcat(a: seq<Step>, b: seq<Step>)
    ensures ExplainerViews(a + b) == ExplainerViews(a) + ExplainerViews(b)
  {
    if b == [] {
      assert a + b == a;
    } else {
      assert (a + b)[..|a + b| - 1] == a + b[..|b| - 1];
      ViewsConcat(a, b[..|b| - 1]);
    }
  }

  lemma ViewsAt(head: seq<Step>, s: Step, tail: seq<Step>)
    ensures ExplainerViews(head + [s] + tail) == ExplainerViews(head) + OneView(s) + ExplainerViews(tail)
  {
    hide OneView;
    assert (head + [s])[..|head|] == head;
    ViewsConcat(head + [s], tail);
  }

  /** Rewriting one step in place rewrites its view in place, or nothing at all. */
  lemma ViewsUpdate(steps: seq<Step>, idx: nat, s: Step)
    requires idx < |steps| && s.node == steps[idx].node
    ensures s.node != ExplainerNode ==> ExplainerViews(steps[idx := s]) == ExplainerViews(steps)
    ensures s.node == ExplainerNode ==>
              && Rank(steps, idx) < |ExplainerViews(steps)|
              && ExplainerViews(steps)[Rank(steps, idx)] == ViewOf(steps[idx])
              && ExplainerViews(steps[idx := s]) == ExplainerViews(steps)[Rank(steps, idx) := ViewOf(s)]
  {
    hide ExplainerViews, ViewOf;
    var head, tail := steps[..idx], steps[idx + 1..];
    assert steps == head + [steps[idx]] + tail;
    assert steps[idx := s] == head + [s] + tail;
    ViewsAt(head, steps[idx], tail);
    ViewsAt(head, s, tail);
    var h, t := ExplainerViews(head), ExplainerViews(tail);
    if s.node == ExplainerNode {
      assert (h + [ViewOf(steps[idx])] + t)[|h| := ViewOf(s)] == h + [ViewOf(s)] + t;
    } else {
      assert h + [] + t == h + t;
    }
  }

  lemma ViewsAppend(steps: seq<Step>, s: Step)
    ensures ExplainerViews(steps + [s]) == ExplainerViews(steps) + OneView(s)
    ensures forall idx :: 0 <= idx <= |steps| ==> Rank(steps + [s], idx) == Rank(steps, idx)
  {
    assert (steps + [s])[..|steps|] == steps;
    assert forall idx :: 0 <= idx <= |steps| ==> (steps + [s])[..idx] == steps[..idx];
  }

  lemma RankAfterRewrite(steps: seq<Step>, i: nat, s: Step, j: nat)
    requires i < |steps| && j <= |steps| && s.node == steps[i].node != ExplainerNode
    ensures Rank(steps[i := s], j) == Rank(steps, j)
  {
    hide ExplainerViews;
    if i < j {
      assert steps[i := s][..j] == steps[..j][i := s];
      ViewsUpdate(steps[..j], i, s);
    } else {
      assert steps[i := s][..j] == steps[..j];
    }
  }

  /** An explainer call's start names the explainer's run id, and no other call does. */
  predicate OwnRun(e: Event, run: int) {
    e.Started? ==> (e.node == ExplainerNode <==> e.run == run)
  }

  lemma ForeignAppend(all: Recorder, own: Recorder, e: Event, run: int)
    requires Matches(all, own, run) && OwnRun(e, run) && !Own(e, run) && (e.Added? || e.Started?)
    ensures Matches(Apply(all, e), own, run)
  {
    ApplyKeepsSound(all, e);
    var next := Apply(all, e);
    hide ExplainerViews, Rank;
    ViewsAppend(all.steps, next.steps[|all.steps|]);
  }

  /** The end of another node's call on one recorder: the explainer's views and ranks stay. */
  lemma ForeignEnd(r: Recorder, e: Event, run: int)
    requires Sound(r) && (e.Ended? || e.Erred?) && e.run in r.open && e.run != run
    requires r.steps[r.open[e.run].0].node != ExplainerNode
    ensures
      var next := Apply(r, e);
      && Sound(next) && next.open == r.open - {e.run}
      && ExplainerViews(next.steps) == ExplainerViews(r.steps)
      && (forall other :: other in next.open ==> next.steps[next.open[other].0].node == r.steps[r.open[other].0].node)
      && (run in next.open ==> Rank(next.steps, next.open[run].0) == Rank(r.steps, r.open[run].0))
  {
    ApplyKeepsSound(r, e);
    var idx := r.open[e.run].0;
    var s := Apply(r, e).steps[idx];
    ViewsUpdate(r.steps, idx, s);
    if run in r.open {
      RankAfterRewrite(r.steps, idx, s, r.open[run].0);
    }
    hide ExplainerViews, Rank, Sound;
  }

  lemma ForeignRewrite(all: Recorder, own: Recorder, e: Event, run: int)
    requires Matches(all, own, run) && !Own(e, run) && (e.Ended? || e.Erred?)
    ensures Matches(Apply(all, e), own, run)
  {
    if e.run in all.open {
      hide Apply, ExplainerViews, Rank, Sound;
      ForeignEnd(all, e, run);
    }
  }

  lemma OwnAdded(all: Recorder, own: Recorder, e: Event, run: int)
    requires Matches(all, own, run) && Own(e, run) && e.Added?
    ensures Matches(Apply(all, e), Apply(own, e), run)
  {
    ApplyKeepsSound(all, e);
    ApplyKeepsSound(own, e);
    ViewsAppend(all.steps, Apply(all, e).steps[|all.steps|]);
    ViewsAppend(own.steps, Apply(own, e).steps[|own.steps|]);
    hide ExplainerViews, Rank, ViewOf;
  }

  /** A start on one recorder: where the call's step is, and that nothing else moved. */
  lemma StartOpensNextStep(r: Recorder, e: Event)
    requires Sound(r) && e.Started? && e.node == ExplainerNode
    ensures
      var next := Apply(r, e);
      && Sound(next)
      && ExplainerViews(next.steps) == ExplainerViews(r.steps) + [View(LLM, Prompt(e.prompt), Nothing)]
      && e.run in next.open && next.open[e.run].0 == |r.steps|
      && next.steps[|r.steps|].node == ExplainerNode
      && Rank(next.steps, |r.steps|) == |ExplainerViews(r.steps)|
      && (forall other :: other in next.open && other != e.run ==>
            other in r.open && next.steps[next.open[other].0].node == r.steps[r.open[other].0].node)
  {
    ApplyKeepsSound(r, e);
    ViewsAppend(r.steps, Apply(r, e).steps[|r.steps|]);
    assert r.steps[..|r.steps|] == r.steps;
    assert forall other :: other in r.open ==> r.open[other].0 < |r.steps|;
    hide ExplainerViews, Sound;
  }

  lemma OwnStarted(all: Recorder, own: Recorder, e: Event, run: int)
    requires Matches(all, own, run) && OwnRun(e, run) && Own(e, run) && e.Started?
    ensures Matches(Apply(all, e), Apply(own, e), run)
  {
    hide Apply, ExplainerViews, Rank, Sound;
    StartOpensNextStep(all, e);
    StartOpensNextStep(own, e);
  }

  /** What an end or error callback leaves in the step its start opened. */
  function Closing(v: View, e: Event): View {
    if e.Ended? && e.reply.Some? then v.(output := Content(e.reply.value.text, e.reply.value.toolCalls)) else v
  }

  /** The end of an explainer call on one recorder: its own view is rewritten, and nothing else moves. */
  lemma EndRewritesItsStep(r: Recorder, e: Event)
    requires Sound(r) && (e.Ended? || e.Erred?) && e.run in r.open
    requires r.steps[r.open[e.run].0].node == ExplainerNode
    ensures
      var next, at := Apply(r, e), Rank(r.steps, r.open[e.run].0);
      && Sound(next) && next.open == r.open - {e.run}
      && at < |ExplainerViews(r.steps)|
      && ExplainerViews(next.steps) == ExplainerViews(r.steps)[at := Closing(ExplainerViews(r.steps)[at], e)]
      && (forall other :: other in next.open ==> next.steps[next.open[other].0].node == r.steps[r.open[other].0].node)
  {
    ApplyKeepsSound(r, e);
    var i := r.open[e.run].0;
    ViewsUpdate(r.steps, i, Apply(r, e).steps[i]);
    hide ExplainerViews, Rank, Sound;
  }

  lemma OwnRewrite(all: Recorder, own: Recorder, e: Event, run: int)
    requires Matches(all, own, run) && Own(e, run) && (e.Ended? || e.Erred?)
    ensures Matches(Apply(all, e), Apply(own, e), run)
  {
    if run in all.open {
      hide Apply, ExplainerViews, Rank, Sound, Closing;
      EndRewritesItsStep(all, e);
      EndRewritesItsStep(own, e);
    }
  }

  /** Whatever other nodes and calls interleave, the explainer's steps are those that its own events
      alone would have recorded. */
  lemma {:induction false} OtherEventsDoNotMatter(events: seq<Event>, run: int)
    requires forall i :: 0 <= i < |events| ==> OwnRun(events[i], run)
    ensures Matches(Record(events), Record(OwnEvents(events, run)), run)
  {
    if events != [] {
      var prefix, e := events[..|events| - 1], events[|events| - 1];
      OtherEventsDoNotMatter(prefix, run);
      assert OwnRun(e, run);
      RecordAppend(OwnEvents(prefix, run), e);
      var all, own := Record(prefix), Record(OwnEvents(prefix, run));
      assert Record(events) == Apply(all, e);
      assert OwnEvents(events, run) == OwnEvents(prefix, run) + if Own(e, run) then [e] else [];
      hide Matches, Apply, Own, OwnRun, Record, OwnEvents;
      OneEvent(all, own, e, run);
      if !Own(e, run) {
        assert OwnEvents(prefix, run) + [] == OwnEvents(prefix, run);
      }
    }
  }

  lemma OneEvent(all: Recorder, own: Recorder, e: Event, run: int)
    requires Matches(all, own, run) && OwnRun(e, run)
    ensures Matches(Apply(all, e), if Own(e, run) then Apply(own, e) else own, run)
  {
    hide Matches, Apply, OwnRun;
    if Own(e, run) {
      if e.Added? {
        OwnAdded(all, own, e, run);
      } else if e.Started? {
        OwnStarted(all, own, e, run);
      } else {
        OwnRewrite(all, own, e, run);
      }
    } else if e.Added? || e.Started? {
      ForeignAppend(all, own, e, run);
    } else {
      ForeignRewrite(all, own, e, run);
    }
  }

  // ---------------------------------------------------------------- the script alone

  lemma RecordAppend(events: seq<Event>, e: Event)
    ensures Record(events + [e]) == Apply(Record(events), e)
  {
    assert (events + [e])[..|events|] == events;
  }

  lemma ReadAfterRetrieval(views: seq<View>, day: string, ids: seq<int>)
    requires RetrievedBy(views).Some?
    ensures var next := views + [View(RETRIEVAL, ForDay(day), Results(ids))];
            && RetrievedBy(next) == Some(RetrievedBy(views).value[day := ids])
            && LastReply(next) == LastReply(views)
  {
    assert (views + [View(RETRIEVAL, ForDay(day), Results(ids))])[..|views|] == views;
  }

  /** The steps of the retrievals alone, and what the audit reads from them. */
  lemma {:induction false} RetrievalsRecorded(dates: seq<string>, retrieve: string -> seq<int>)
    ensures
      var r := Record(RetrievalEvents(dates, retrieve));
      var views := ExplainerViews(r.steps);
      && r.open == map[]
      && RetrievedBy(views) == Some(NodeRetrieved(dates, retrieve))
      && LastReply(views) == None
  {
    if dates != [] {
      var prefix, day := dates[..|dates| - 1], dates[|dates| - 1];
      RetrievalsRecorded(prefix, retrieve);
      var r := Record(RetrievalEvents(prefix, retrieve));
      var e := Added(ExplainerNode, RETRIEVAL, ForDay(day), Results(retrieve(day)), NO_DETAIL);
      RecordAppend(RetrievalEvents(prefix, retrieve), e);
      ViewsAppend(r.steps, Apply(r, e).steps[|r.steps|]);
      hide ExplainerViews, Record, RetrievedBy, LastReply, Rank;
      ReadAfterRetrieval(ExplainerViews(r.steps), day, retrieve(day));
    }
  }

  lemma ReadAfterReply(views: seq<View>, reply: View, check: View)
    requires reply.kind == LLM && check.kind == CHECK
    ensures RetrievedBy(views + [reply, check]) == RetrievedBy(views)
    ensures LastReply(views + [reply, check]) == Some(reply)
  {
    assert views + [reply, check] == (views + [reply]) + [check];
    assert ((views + [reply]) + [check])[..|views| + 1] == views + [reply];
    assert (views + [reply])[..|views|] == views;
  }

  const CHECK_VIEW := View(CHECK, Other("drivers"), Other("check"))

  /** A call started and ended on a recorder with nothing open, then the check recorded. */
  lemma CallAndCheck(r: Recorder, start: Event, end: Event, check: Event, reply: Reply)
    requires start.Started? && start.node == ExplainerNode && end.Ended? && end.run == start.run
        && end.reply == Some(reply)
    requires check.Added? && check.node == ExplainerNode
    ensures ExplainerViews(Apply(Apply(Apply(r, start), end), check).steps)
         == ExplainerViews(r.steps)
             + [View(LLM, Prompt(start.prompt), ContentOf(reply)), View(check.kind, check.input, check.output)]
  {
    var idx, r2 := |r.steps|, Apply(Apply(r, start), end);
    assert r2.steps == r.steps + [r2.steps[idx]];
    ViewsAppend(r.steps, r2.steps[idx]);
    ViewsAppend(r2.steps, Apply(r2, check).steps[idx + 1]);
    hide ExplainerViews;
  }

  lemma ScriptViews(task: Task)
    ensures
      var before := ExplainerViews(Record(RetrievalEvents(TailDates(task), task.retrieve)).steps);
      ExplainerViews(Record(Script(task)).steps)
          == before + [View(LLM, Prompt(task.prompt), ContentOf(task.reply)), CHECK_VIEW]
  {
    var events := RetrievalEvents(TailDates(task), task.retrieve);
    var start, end, check := Started(task.run, ExplainerNode, task.prompt, task.model, task.startedAt),
                             Ended(task.run, Some(task.reply), task.endedAt),
                             Added(ExplainerNode, CHECK, Other("drivers"), Other("check"), NO_DETAIL);
    assert Script(task) == events + [start] + [end] + [check];
    hide ExplainerViews, Record, RetrievalEvents, TailDates, Apply, Script;
    RecordAppend(events, start);
    RecordAppend(events + [start], end);
    RecordAppend(events + [start] + [end], check);
    CallAndCheck(Record(events), start, end, check, task.reply);
  }

  /** The audit reads the node's own retrievals and reply, and nothing else. */
  lemma AuditReads(events: seq<Event>, task: Task)
    requires forall i :: 0 <= i < |events| ==> OwnRun(events[i], task.run)
    requires OwnEvents(events, task.run) == Script(task)
    ensures
      var views := ExplainerViews(Record(events).steps);
      && RetrievedBy(views) == Some(NodeRetrieved(TailDates(task), task.retrieve))
      && LastReply(views) == Some(View(LLM, Prompt(task.prompt), ContentOf(task.reply)))
  {
    OtherEventsDoNotMatter(events, task.run);
    assert ExplainerViews(Record(events).steps) == ExplainerViews(Record(Script(task)).steps);
    hide Matches, ExplainerViews, Record, RetrievalEvents, TailDates, Script, RetrievedBy, LastReply, OwnEvents;
    ScriptViews(task);
    RetrievalsRecorded(TailDates(task), task.retrieve);
    ReadAfterReply(ExplainerViews(Record(RetrievalEvents(TailDates(task), task.retrieve)).steps),
                   View(LLM, Prompt(task.prompt), ContentOf(task.reply)), CHECK_VIEW);
  }

  /** TRACE COMPLETENESS. For any tail, retrievals and reply, and any interleaving with the events of
      other nodes, the audit rebuilds from the recorded steps exactly the explanation the node
      stored: the same retrieved ids, citations, problems and validity. */
  lemma TraceRebuildsTheExplanation(events: seq<Event>, task: Task, parse: string -> Option<seq<Driver>>)
    requires forall i :: 0 <= i < |events| ==> OwnRun(events[i], task.run)
    requires OwnEvents(events, task.run) == Script(task)
    requires parse(task.reply.text).Some?
    ensures Rebuild(Record(events).steps, parse) == Rebuilt(Stored(task, parse(task.reply.text).value))
  {
    AuditReads(events, task);
    hide Check, ExplainerViews, Record, NodeRetrieved, TailDates, Script, RetrievedBy, LastReply, OwnEvents, OwnRun;
    assert Rebuild(Record(events).steps, parse)
        == RebuildFrom(Some(View(LLM, Prompt(task.prompt), ContentOf(task.reply))),
                       Some(NodeRetrieved(TailDates(task), task.retrieve)), parse);
  }

  lemma {:induction false} NodeRetrievedSays(dates: seq<string>, retrieve: string -> seq<int>)
    ensures forall date :: date in NodeRetrieved(dates, retrieve) <==> date in dates
    ensures forall date :: date in dates ==> NodeRetrieved(dates, retrieve)[date] == retrieve(date)
  {
    if dates != [] {
      var n := |dates| - 1;
      NodeRetrievedSays(dates[..n], retrieve);
      assert dates == dates[..n] + [dates[n]];
    }
  }

  /** What is stored: the retrieved ids of the first five tail dates, the drivers' citations in order,
      the problems, and as valid exactly the answers that are grounded and complete. */
  lemma StoredSays(task: Task, drivers: seq<Driver>)
    ensures
      var e, dates := Stored(task, drivers), if |task.tail| <= 5 then task.tail else task.tail[..5];
      && (forall date :: date in e.retrieved <==> date in dates)
      && (forall date :: date in dates ==> e.retrieved[date] == task.retrieve(date))
      && e.cited == Cited(drivers) && e.problems == Problems(drivers, e.retrieved)
      && (e.valid <==>
            && (forall i :: 0 <= i < |drivers| ==> Grounded(drivers[i], e.retrieved))
            && (forall date :: date in dates ==> exists i :: 0 <= i < |drivers| && drivers[i].date == date))
  {
    var e := Stored(task, drivers);
    NodeRetrievedSays(TailDates(task), task.retrieve);
    ValidExactlyWhenGrounded(drivers, e.retrieved);
    hide Grounded, Problems, Cited, NodeRetrieved;
  }
}
