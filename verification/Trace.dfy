/** The per-decision trace: steps in arrival order, some added whole by the code that performs them,
    some opened by a model call's start callback and completed by its end or error callback. */
module Trace {
  import opened Trading

  datatype Kind = LLM | RETRIEVAL | CHECK | RULE

  /** Which graph node a step belongs to. */
  datatype Node = ExplainerNode | OtherNode(name: string)

  datatype Payload =
    | Nothing
    | Prompt(text: string)
    | Content(text: string, toolCalls: seq<string>)
    | ForDay(day: string)
    | Results(ids: seq<int>)
    | Other(text: string)

  /** The optional fields of a step. */
  datatype Detail = Detail(
    parent: Option<nat>,
    model: Option<string>,
    inputTokens: Option<nat>,
    outputTokens: Option<nat>,
    duration: Option<int>,
    error: Option<string>)

  const NO_DETAIL := Detail(None, None, None, None, None, None)

  datatype Step = Step(step: nat, node: Node, kind: Kind, input: Payload, output: Payload, detail: Detail)

  /** A model's message, with the usage and the model name it reports, if any. */
  datatype Reply = Reply(
    text: string,
    toolCalls: seq<string>,
    inputTokens: Option<nat>,
    outputTokens: Option<nat>,
    model: Option<string>)

  /** The recorder's state; `open` maps a model call's run id to its step and start time. */
  datatype Recorder = Recorder(steps: seq<Step>, open: map<int, (nat, int)>)

  const FRESH := Recorder([], map[])

  /** `reply` is None when the response carries no message. */
  datatype Event =
    | Added(node: Node, kind: Kind, input: Payload, output: Payload, detail: Detail)
    | Started(run: int, node: Node, prompt: string, model: Option<string>, at: int)
    | Ended(run: int, reply: Option<Reply>, at: int)
    | Erred(run: int, message: string, at: int)

  function AddStep(r: Recorder, node: Node, kind: Kind, input: Payload, output: Payload, detail: Detail): Recorder {
    r.(steps := r.steps + [Step(|r.steps|, node, kind, input, output, detail)])
  }

  ghost predicate Sound(r: Recorder) {
    && (forall i :: 0 <= i < |r.steps| ==> r.steps[i].step == i)
    && (forall run :: run in r.open ==> r.open[run].0 < |r.steps| && r.steps[r.open[run].0].kind == LLM)
    && (forall a, b :: a in r.open && b in r.open && a != b ==> r.open[a].0 != r.open[b].0)
  }

  /** The model a reply names, or else the one the call was started with. */
  function ModelOf(reply: Reply, requested: Option<string>): Option<string> {
    if reply.model.Some? && reply.model.value != "" then reply.model else requested
  }

  /** A step completed by its end callback: timed, and with what the message carries, if there is one. */
  function Completed(s: Step, reply: Option<Reply>, elapsed: int): Step {
    var timed := s.detail.(duration := Some(elapsed));
    match reply
    case None => s.(detail := timed)
    case Some(m) =>
      s.(output := Content(m.text, m.toolCalls),
         detail := timed.(inputTokens := m.inputTokens, outputTokens := m.outputTokens,
                          model := ModelOf(m, s.detail.model)))
  }

  function Failed(s: Step, message: string, elapsed: int): Step {
    s.(detail := s.detail.(error := Some(message), duration := Some(elapsed)))
  }

  function StartDetail(model: Option<string>): Detail {
    NO_DETAIL.(model := model)
  }

  /** Edits the step an open call points to, and closes the call. */
  function Close(r: Recorder, run: int, edit: Step -> Step): Recorder
    requires run in r.open
  {
    var idx := r.open[run].0;
    Recorder(if idx < |r.steps| then r.steps[idx := edit(r.steps[idx])] else r.steps, r.open - {run})
  }

  function Apply(r: Recorder, e: Event): Recorder {
    match e
    case Added(node, kind, input, output, detail) => AddStep(r, node, kind, input, output, detail)
    case Started(run, node, prompt, model, at) =>
      AddStep(r, node, LLM, Prompt(prompt), Nothing, StartDetail(model)).(open := r.open[run := (|r.steps|, at)])
    case Ended(run, reply, at) =>
      if run !in r.open then r
      else
        var (idx, t0) := r.open[run];
        Close(r, run, (s: Step) => Completed(s, reply, at - t0))
    case Erred(run, message, at) =>
      if run !in r.open then r
      else
        var (idx, t0) := r.open[run];
        Close(r, run, (s: Step) => Failed(s, message, at - t0))
  }

  function Record(events: seq<Event>): Recorder {
    if events == [] then FRESH else Apply(Record(events[..|events| - 1]), events[|events| - 1])
  }

  lemma ApplyKeepsSound(r: Recorder, e: Event)
    requires Sound(r)
    ensures Sound(Apply(r, e))
  {
  }

  /** Step numbers are positions, whatever callbacks arrive in whatever order. */
  lemma {:induction false} StepsAreNumberedByPosition(events: seq<Event>)
    ensures Sound(Record(events))
  {
    if events != [] {
      StepsAreNumberedByPosition(events[..|events| - 1]);
      ApplyKeepsSound(Record(events[..|events| - 1]), events[|events| - 1]);
    }
  }

  predicate Mentions(e: Event, run: int) {
    !e.Added? && e.run == run
  }

  /** Events of other runs touch neither an open call nor the step it points to. */
  lemma ApplyKeepsOpenCall(r: Recorder, e: Event, run: int)
    requires Sound(r) && run in r.open && !Mentions(e, run)
    ensures run in Apply(r, e).open && Apply(r, e).open[run] == r.open[run]
    ensures |r.steps| <= |Apply(r, e).steps|
    ensures Apply(r, e).steps[r.open[run].0] == r.steps[r.open[run].0]
  {
    if !e.Added? && e.run in r.open {
      var idx: nat := r.open[e.run].0;
    }
  }

  lemma {:induction false} OpenCallStays(before: seq<Event>, events: seq<Event>, run: int)
    requires run in Record(before).open && Record(before).open[run].0 < |Record(before).steps|
    requires forall i :: 0 <= i < |events| ==> !Mentions(events[i], run)
    ensures run in Record(before + events).open && Record(before + events).open[run] == Record(before).open[run]
    ensures |Record(before).steps| <= |Record(before + events).steps|
    ensures var idx := Record(before).open[run].0; Record(before + events).steps[idx] == Record(before).steps[idx]
  {
    if events == [] {
      assert before + events == before;
    } else {
      var n := |events| - 1;
      OpenCallStays(before, events[..n], run);
      var all := before + events;
      assert all[..|all| - 1] == before + events[..n] && all[|all| - 1] == events[n];
      assert !Mentions(events[n], run);
      StepsAreNumberedByPosition(before + events[..n]);
      hide Sound, Apply;
      ApplyKeepsOpenCall(Record(before + events[..n]), events[n], run);
    }
  }

  /** A callback changes only the step its start opened: with any events of other runs in between,
      the step is still the one the start appended when the end arrives, and the end completes that
      very step and leaves every other one as it is. */
  lemma EndCompletesItsOwnStep(before: seq<Event>, start: Event, between: seq<Event>, end: Event)
    requires start.Started? && (end.Ended? || end.Erred?) && end.run == start.run
    requires forall i :: 0 <= i < |between| ==> !Mentions(between[i], start.run)
    ensures
      var idx := |Record(before).steps|;
      var open, done := Record(before + [start] + between), Record(before + [start] + between + [end]);
      && |done.steps| == |open.steps| && idx < |open.steps|
      && open.steps[idx] == Step(idx, start.node, LLM, Prompt(start.prompt), Nothing, StartDetail(start.model))
      && (forall i :: 0 <= i < |done.steps| && i != idx ==> done.steps[i] == open.steps[i])
      && done.steps[idx] == (if end.Ended? then Completed(open.steps[idx], end.reply, end.at - start.at)
                             else Failed(open.steps[idx], end.message, end.at - start.at))
      && start.run !in done.open
  {
    var idx, begun := |Record(before).steps|, before + [start];
    assert begun[..|before|] == before;
    OpenCallStays(begun, between, start.run);
    assert (begun + between + [end])[..|begun + between|] == begun + between;
  }

  /** What the end of a call leaves in its step, field by field: an answer its content, tool calls, token
      counts and model, an error its text, and both the time since the start. */
  lemma WhatAnEndWrites(before: seq<Event>, start: Event, between: seq<Event>, end: Event)
    requires start.Started? && (end.Ended? || end.Erred?) && end.run == start.run
    requires forall i :: 0 <= i < |between| ==> !Mentions(between[i], start.run)
    ensures
      var idx := |Record(before).steps|;
      var done := Record(before + [start] + between + [end]);
      && idx < |done.steps|
      && var s := done.steps[idx];
         && s.step == idx && s.node == start.node && s.kind == LLM && s.input == Prompt(start.prompt)
         && s.detail.parent == None && s.detail.duration == Some(end.at - start.at)
         && s.detail.error == (if end.Erred? then Some(end.message) else None)
         && (end.Ended? && end.reply.Some? ==>
               var m := end.reply.value;
               && s.output == Content(m.text, m.toolCalls)
               && s.detail.inputTokens == m.inputTokens && s.detail.outputTokens == m.outputTokens
               && s.detail.model == if m.model == None || m.model == Some("") then start.model else m.model)
         && (end.Erred? || end.reply.None? ==>
               && s.output == Nothing && s.detail.model == start.model
               && s.detail.inputTokens == None && s.detail.outputTokens == None)
  {
    EndCompletesItsOwnStep(before, start, between, end);
    hide Record;
  }

  class TraceRecorder {
    var steps: seq<Step>
    var open: map<int, (nat, int)>

    function Model(): Recorder
      reads this
    {
      Recorder(steps, open)
    }

    constructor ()
      ensures Model() == FRESH
    {
      steps, open := [], map[];
    }

    method Add(node: Node, kind: Kind, input: Payload, output: Payload, detail: Detail) returns (idx: nat)
      modifies this`steps
      ensures Model() == Apply(old(Model()), Added(node, kind, input, output, detail))
      ensures idx == |old(steps)| && steps[idx].step == idx
    {
      steps := steps + [Step(|steps|, node, kind, input, output, detail)];
      idx := |steps| - 1;
    }

    method OnChatModelStart(run: int, node: Node, prompt: string, model: Option<string>, at: int)
      modifies this
      ensures Model() == Apply(old(Model()), Started(run, node, prompt, model, at))
    {
      var idx := Add(node, LLM, Prompt(prompt), Nothing, StartDetail(model));
      open := open[run := (idx, at)];
    }

    /** An end without an open start is ignored. */
    method OnLlmEnd(run: int, reply: Option<Reply>, at: int)
      requires Sound(Model())
      modifies this
      ensures Model() == Apply(old(Model()), Ended(run, reply, at))
      ensures Sound(Model())
    {
      ApplyKeepsSound(Model(), Ended(run, reply, at));
      if run !in open {
        return;
      }
      hide Sound;
      var (idx, t0) := open[run];
      open := open - {run};
      var step := steps[idx];
      step := step.(detail := step.detail.(duration := Some(at - t0)));
      if reply.Some? {
        step := step.(output := Content(reply.value.text, reply.value.toolCalls));
        var detail := step.detail.(inputTokens := reply.value.inputTokens);
        detail := detail.(outputTokens := reply.value.outputTokens);
        if reply.value.model.Some? && reply.value.model.value != "" {
          detail := detail.(model := reply.value.model);
        }
        step := step.(detail := detail);
      }
      steps := steps[idx := step];
    }

    method OnLlmError(run: int, message: string, at: int)
      requires Sound(Model())
      modifies this
      ensures Model() == Apply(old(Model()), Erred(run, message, at))
      ensures Sound(Model())
    {
      ApplyKeepsSound(Model(), Erred(run, message, at));
      if run in open {
        var (idx, t0) := open[run];
        open := open - {run};
        steps := steps[idx := Failed(steps[idx], message, at - t0)];
      }
    }
  }
}
