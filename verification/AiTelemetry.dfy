/** The span lifecycle of the AI SDK integration: telemetry events of concurrent
    operations, each opening and ending spans under one map of operations. */
module AiTelemetry {
  import opened Wrappers

  /** What a span was opened for. */
  datatype Kind = Root | Step(number: int) | Model | Tool(id: string)

  /** `parent` is absent when the span hangs under the host's ambient context only. */
  datatype SpanRec = SpanRec(call: string, parent: Option<nat>, kind: Kind)

  /** One operation: its root, its open steps, the context new work hangs under, its
      open model calls (a stack) and its open tools. Spans are named by number. */
  datatype Op = Op(root: nat, steps: map<int, nat>, current: Option<nat>, models: seq<nat>, tools: map<string, nat>)

  /** `ends` counts how often each span was ended. */
  datatype State = State(ops: map<string, Op>, spans: seq<SpanRec>, ends: multiset<nat>)

  datatype Event =
    | Start(call: string, generation: bool, ambient: Option<nat>)
    | StepStart(call: string, number: Option<int>)
    | ModelStart(call: string)
    | ModelEnd(call: string)
    | ToolStart(call: string, tool: string)
    | ToolEnd(call: string, tool: string)
    | StepEnd(call: string, number: Option<int>)
    | End(call: string)

  function ParentOf(op: Op): nat {
    if op.current.Some? then op.current.value else op.root
  }

  function Opened(s: State, call: string, op: Op, parent: Option<nat>, kind: Kind): State {
    State(s.ops[call := op], s.spans + [SpanRec(call, parent, kind)], s.ends)
  }

  function Closed(s: State, call: string, op: Op, span: nat): State {
    State(s.ops[call := op], s.spans, s.ends + multiset{span})
  }

  function Next(s: State, e: Event): State {
    var id := |s.spans|;
    match e
    case Start(call, generation, ambient) =>
      if !generation then s else Opened(s, call, Op(id, map[], None, [], map[]), ambient, Root)
    case StepStart(call, number) =>
      if call !in s.ops || number.None? then s
      else
        var op := s.ops[call];
        Opened(s, call, op.(steps := op.steps[number.value := id], current := Some(id)), Some(op.root), Step(number.value))
    case ModelStart(call) =>
      if call !in s.ops then s
      else
        var op := s.ops[call];
        Opened(s, call, op.(models := op.models + [id]), Some(ParentOf(op)), Model)
    case ModelEnd(call) =>
      if call !in s.ops || s.ops[call].models == [] then s
      else
        var op := s.ops[call];
        var n := |op.models| - 1;
        Closed(s, call, op.(models := op.models[..n]), op.models[n])
    case ToolStart(call, tool) =>
      if call !in s.ops || tool == "" then s
      else
        var op := s.ops[call];
        Opened(s, call, op.(tools := op.tools[tool := id]), Some(ParentOf(op)), Tool(tool))
    case ToolEnd(call, tool) =>
      if call !in s.ops || tool == "" || tool !in s.ops[call].tools then s
      else
        var op := s.ops[call];
        Closed(s, call, op.(tools := op.tools - {tool}), op.tools[tool])
    case StepEnd(call, number) =>
      if call !in s.ops || number.None? || number.value !in s.ops[call].steps then s
      else
        var op := s.ops[call];
        var span := op.steps[number.value];
        Closed(s, call, op.(steps := op.steps - {number.value}, current := if op.current == Some(span) then None else op.current), span)
    case End(call) =>
      if call !in s.ops then s
      else State(s.ops - {call}, s.spans, s.ends + HeldSpans(s.ops[call]))
  }

  function StepSpans(steps: map<int, nat>): set<nat> {
    set n: int | n in steps :: steps[n]
  }

  function ToolSpans(tools: map<string, nat>): set<nat> {
    set t: string | t in tools :: tools[t]
  }

  /** Every span an operation still holds, its root included. */
  function HeldSpans(op: Op): multiset<nat> {
    multiset(op.models) + multiset(ToolSpans(op.tools)) + multiset(StepSpans(op.steps)) + multiset{op.root}
  }

  class Telemetry {
    var ops: map<string, Op>
    var spans: seq<SpanRec>
    /** The spans in the order they were ended. */
    ghost var log: seq<nat>

    constructor ()
      ensures View() == State(map[], [], multiset{}) && log == [] && Valid()
    {
      ops, spans, log := map[], [], [];
    }

    ghost function View(): State
      reads this
    {
      State(ops, spans, multiset(log))
    }

    /** Operations hold exactly the open spans, each in its own slot. */
    ghost predicate Valid()
      reads this
    {
      Inv(View())
    }

    method StartSpan(call: string, parent: Option<nat>, kind: Kind) returns (span: nat)
      modifies this`spans
      ensures span == old(|spans|) && spans == old(spans) + [SpanRec(call, parent, kind)]
    {
      span := |spans|;
      spans := spans + [SpanRec(call, parent, kind)];
    }

    method EndSpan(ghost span: nat)
      modifies this`log
      ensures log == old(log) + [span]
    {
      log := log + [span];
    }

    method OnStart(call: string, generation: bool, ambient: Option<nat>)
      modifies this
      ensures View() == Next(old(View()), Start(call, generation, ambient)) && log == old(log)
      ensures old(Valid() && NoRestart(View(), Start(call, generation, ambient))) ==> Valid()
    {
      StepKeepsValid(View(), Start(call, generation, ambient));
      if generation {
        var span := StartSpan(call, ambient, Root);
        ops := ops[call := Op(span, map[], None, [], map[])];
      }
    }

    method OnStepStart(call: string, number: Option<int>)
      modifies this
      ensures View() == Next(old(View()), StepStart(call, number)) && log == old(log)
      ensures old(Valid() && NoRestart(View(), StepStart(call, number))) ==> Valid()
    {
      StepKeepsValid(View(), StepStart(call, number));
      if call !in ops || number.None? {
        return;
      }
      var op := ops[call];
      var span := StartSpan(call, Some(op.root), Step(number.value));
      ops := ops[call := op.(steps := op.steps[number.value := span], current := Some(span))];
    }

    method OnLanguageModelCallStart(call: string)
      modifies this
      ensures View() == Next(old(View()), ModelStart(call)) && log == old(log)
      ensures old(Valid() && NoRestart(View(), ModelStart(call))) ==> Valid()
    {
      StepKeepsValid(View(), ModelStart(call));
      if call !in ops {
        return;
      }
      var op := ops[call];
      var span := StartSpan(call, Some(ParentOf(op)), Model);
      ops := ops[call := op.(models := op.models + [span])];
    }

    method OnLanguageModelCallEnd(call: string)
      modifies this
      ensures View() == Next(old(View()), ModelEnd(call))
      ensures old(Valid() && NoRestart(View(), ModelEnd(call))) ==> Valid()
    {
      StepKeepsValid(View(), ModelEnd(call));
      if call !in ops || ops[call].models == [] {
        return;
      }
      var op := ops[call];
      var n := |op.models| - 1;
      ops := ops[call := op.(models := op.models[..n])];
      EndSpan(op.models[n]);
    }

    method OnToolExecutionStart(call: string, tool: string)
      modifies this
      ensures View() == Next(old(View()), ToolStart(call, tool)) && log == old(log)
      ensures old(Valid() && NoRestart(View(), ToolStart(call, tool))) ==> Valid()
    {
      StepKeepsValid(View(), ToolStart(call, tool));
      if call !in ops || tool == "" {
        return;
      }
      var op := ops[call];
      var span := StartSpan(call, Some(ParentOf(op)), Tool(tool));
      ops := ops[call := op.(tools := op.tools[tool := span])];
    }

    method OnToolExecutionEnd(call: string, tool: string)
      modifies this
      ensures View() == Next(old(View()), ToolEnd(call, tool))
      ensures old(Valid() && NoRestart(View(), ToolEnd(call, tool))) ==> Valid()
    {
      StepKeepsValid(View(), ToolEnd(call, tool));
      if call !in ops || tool == "" || tool !in ops[call].tools {
        return;
      }
      var op := ops[call];
      EndSpan(op.tools[tool]);
      ops := ops[call := op.(tools := op.tools - {tool})];
    }

    method OnStepEnd(call: string, number: Option<int>)
      modifies this
      ensures View() == Next(old(View()), StepEnd(call, number))
      ensures old(Valid() && NoRestart(View(), StepEnd(call, number))) ==> Valid()
    {
      StepKeepsValid(View(), StepEnd(call, number));
      if call !in ops || number.None? || number.value !in ops[call].steps {
        return;
      }
      var op := ops[call];
      var span := op.steps[number.value];
      EndSpan(span);
      var steps := op.steps - {number.value};
      ops := ops[call := op.(steps := steps, current := if op.current == Some(span) then None else op.current)];
    }

    /** Close whatever is still open, the root last. */
    method OnEnd(call: string)
      modifies this
      ensures View() == Next(old(View()), End(call))
      ensures old(Valid() && NoRestart(View(), End(call))) ==> Valid()
      ensures call in old(ops) ==> log != [] && log[|log| - 1] == old(ops)[call].root
    {
      StepKeepsValid(View(), End(call));
      if call !in ops {
        return;
      }
      var op := ops[call];
      EndHeld(op);
      ops := ops - {call};
    }

    method EndHeld(op: Op)
      modifies this`log
      ensures multiset(log) == multiset(old(log)) + HeldSpans(op)
      ensures log != [] && log[|log| - 1] == op.root
    {
      EndStack(op.models);
      EndEach(ToolSpans(op.tools));
      EndEach(StepSpans(op.steps));
      EndSpan(op.root);
    }

    method EndStack(models: seq<nat>)
      modifies this`log
      ensures multiset(log) == multiset(old(log)) + multiset(models)
    {
      for i := 0 to |models|
        invariant multiset(log) == multiset(old(log)) + multiset(models[..i])
      {
        assert models[..i + 1] == models[..i] + [models[i]];
        EndSpan(models[i]);
      }
      assert models[..|models|] == models;
    }

    method EndEach(left: set<nat>)
      modifies this`log
      ensures multiset(log) == multiset(old(log)) + multiset(left)
    {
      var todo := left;
      while todo != {}
        invariant todo <= left && multiset(log) == multiset(old(log)) + multiset(left - todo)
        decreases todo
      {
        var span :| span in todo;
        EndSpan(span);
        todo := todo - {span};
        assert left - todo == (left - (todo + {span})) + {span};
      }
      assert left - {} == left;
    }
  }

  // ---------------------------------------------------------------------
  // Every run without restarts
  // ---------------------------------------------------------------------

  predicate IsOpen(s: State, i: nat) {
    i < |s.spans| && i !in s.ends
  }

  /** Span `i` sits in the slot of the operation that its kind names. */
  predicate Held(op: Op, i: nat, kind: Kind) {
    match kind
    case Root => op.root == i
    case Step(n) => n in op.steps && op.steps[n] == i
    case Model => i in op.models
    case Tool(t) => t in op.tools && op.tools[t] == i
  }

  ghost predicate OpOk(s: State, call: string)
    requires call in s.ops
  {
    var op := s.ops[call];
    && IsSpan(s, op.root, call, Root)
    && (forall n :: n in op.steps ==> IsSpan(s, op.steps[n], call, Step(n)))
    && (forall t :: t in op.tools ==> IsSpan(s, op.tools[t], call, Tool(t)))
    && (forall k :: 0 <= k < |op.models| ==> IsSpan(s, op.models[k], call, Model))
    && (forall j, k :: 0 <= j < k < |op.models| ==> op.models[j] < op.models[k])
    && (op.current.Some? ==> exists n :: n in op.steps && op.steps[n] == op.current.value)
  }

  predicate IsSpan(s: State, i: nat, call: string, kind: Kind) {
    IsOpen(s, i) && s.spans[i].call == call && s.spans[i].kind == kind
  }

  /** Operations hold exactly the open spans, and no span was ended twice. */
  ghost predicate Inv(s: State) {
    && (forall call :: call in s.ops ==> OpOk(s, call))
    && (forall i: nat :: IsOpen(s, i) ==> s.spans[i].call in s.ops && Held(s.ops[s.spans[i].call], i, s.spans[i].kind))
    && (forall i: nat :: s.ends[i] <= 1)
    && (forall i :: i in s.ends ==> i < |s.spans|)
  }

  /** The event does not start again what is still open. */
  predicate NoRestart(s: State, e: Event) {
    match e
    case Start(call, generation, _) => generation ==> call !in s.ops
    case StepStart(call, number) => call in s.ops && number.Some? ==> number.value !in s.ops[call].steps
    case ToolStart(call, tool) => call in s.ops ==> tool !in s.ops[call].tools
    case _ => true
  }

  /** An operation whose spans are as they were is as it was. */
  lemma OpUnaffected(s: State, t: State, c: string)
    requires c in s.ops && c in t.ops && t.ops[c] == s.ops[c] && OpOk(s, c)
    requires forall i: nat :: IsOpen(s, i) && s.spans[i].call == c ==> IsOpen(t, i) && t.spans[i] == s.spans[i]
    ensures OpOk(t, c)
  {
  }

  /** The operation of the event itself stays well-formed. */
  ghost predicate OwnOk(s: State, e: Event) {
    e.call in Next(s, e).ops ==> OpOk(Next(s, e), e.call)
  }

  /** An open span stays in its slot, and a new one is put in its own. */
  ghost predicate SlotOk(s: State, e: Event, i: nat) {
    var t := Next(s, e);
    IsOpen(t, i) && t.spans[i].call == e.call ==> e.call in t.ops && Held(t.ops[e.call], i, t.spans[i].kind)
  }

  ghost predicate SlotsOk(s: State, call: string) {
    forall i: nat :: IsOpen(s, i) && s.spans[i].call == call ==> call in s.ops && Held(s.ops[call], i, s.spans[i].kind)
  }

  lemma StartOk(s: State, e: Event, i: nat)
    requires e.Start? && NoRestart(s, e) && SlotsOk(s, e.call) && (e.call in s.ops ==> OpOk(s, e.call))
    requires forall j :: j in s.ends ==> j < |s.spans|
    ensures OwnOk(s, e) && SlotOk(s, e, i)
  {
  }

  lemma StepStartOk(s: State, e: Event, i: nat)
    requires e.StepStart? && NoRestart(s, e) && SlotsOk(s, e.call) && (e.call in s.ops ==> OpOk(s, e.call))
    requires forall j :: j in s.ends ==> j < |s.spans|
    ensures OwnOk(s, e) && SlotOk(s, e, i)
  {
    if e.call in s.ops && e.number.Some? {
      assert Next(s, e).ops[e.call].steps[e.number.value] == |s.spans|;
    }
  }

  lemma ModelStartOk(s: State, e: Event, i: nat)
    requires e.ModelStart? && SlotsOk(s, e.call) && (e.call in s.ops ==> OpOk(s, e.call))
    requires forall j :: j in s.ends ==> j < |s.spans|
    ensures OwnOk(s, e) && SlotOk(s, e, i)
  {
  }

  lemma ToolStartOwn(s: State, e: Event)
    requires e.ToolStart? && (e.call in s.ops ==> OpOk(s, e.call))
    requires forall j :: j in s.ends ==> j < |s.spans|
    ensures OwnOk(s, e)
  {
  }

  lemma ToolStartSlot(s: State, e: Event, i: nat)
    requires e.ToolStart? && NoRestart(s, e) && SlotsOk(s, e.call)
    ensures SlotOk(s, e, i)
  {
  }

  lemma ModelEndOwn(s: State, e: Event)
    requires e.ModelEnd? && (e.call in s.ops ==> OpOk(s, e.call))
    ensures OwnOk(s, e)
  {
  }

  lemma ModelEndSlot(s: State, e: Event, i: nat)
    requires e.ModelEnd? && SlotsOk(s, e.call)
    ensures SlotOk(s, e, i)
  {
    if e.call in s.ops && i in s.ops[e.call].models && s.ops[e.call].models != [] {
      var models := s.ops[e.call].models;
      var k :| 0 <= k < |models| && models[k] == i;
      assert k < |models| - 1 ==> models[..|models| - 1][k] == i;
    }
  }

  lemma ToolEndOk(s: State, e: Event, i: nat)
    requires e.ToolEnd? && SlotsOk(s, e.call) && (e.call in s.ops ==> OpOk(s, e.call))
    ensures OwnOk(s, e) && SlotOk(s, e, i)
  {
  }

  lemma StepEndOk(s: State, e: Event, i: nat)
    requires e.StepEnd? && SlotsOk(s, e.call) && (e.call in s.ops ==> OpOk(s, e.call))
    ensures OwnOk(s, e) && SlotOk(s, e, i)
  {
    if Next(s, e) != s {
      assert IsSpan(s, s.ops[e.call].steps[e.number.value], e.call, Step(e.number.value));
    }
    if Next(s, e) != s && Next(s, e).ops[e.call].current.Some? {
      var n :| n in s.ops[e.call].steps && s.ops[e.call].steps[n] == s.ops[e.call].current.value;
      assert n in Next(s, e).ops[e.call].steps;
    }
  }

  lemma OwnStep(s: State, e: Event, i: nat)
    requires Inv(s) && NoRestart(s, e) && !e.End?
    ensures OwnOk(s, e) && SlotOk(s, e, i)
  {
    match e
    case Start(_, _, _) => StartOk(s, e, i);
    case StepStart(_, _) => StepStartOk(s, e, i);
    case ModelStart(_) => ModelStartOk(s, e, i);
    case ModelEnd(_) => ModelEndOwn(s, e); ModelEndSlot(s, e, i);
    case ToolStart(_, _) => ToolStartOwn(s, e); ToolStartSlot(s, e, i);
    case ToolEnd(_, _) => ToolEndOk(s, e, i);
    case StepEnd(_, _) => StepEndOk(s, e, i);
  }

  /** The span that a closing event ends. */
  function Ended(s: State, e: Event): Option<nat> {
    if e.call !in s.ops then None
    else
      var op := s.ops[e.call];
      match e
      case ModelEnd(_) => if op.models == [] then None else Some(op.models[|op.models| - 1])
      case ToolEnd(_, tool) => if tool == "" || tool !in op.tools then None else Some(op.tools[tool])
      case StepEnd(_, number) => if number.None? || number.value !in op.steps then None else Some(op.steps[number.value])
      case _ => None
  }

  lemma EndedIsOwn(s: State, e: Event)
    requires (e.call in s.ops ==> OpOk(s, e.call)) && Ended(s, e).Some?
    ensures IsOpen(s, Ended(s, e).value) && s.spans[Ended(s, e).value].call == e.call
  {
    var op := s.ops[e.call];
    match e
    case ToolEnd(_, tool) => assert IsSpan(s, op.tools[tool], e.call, Tool(tool));
    case StepEnd(_, number) => assert IsSpan(s, op.steps[number.value], e.call, Step(number.value));
    case _ =>
  }

  lemma StepChanges(s: State, e: Event)
    requires !e.End?
    ensures var t := Next(s, e);
            && s.spans <= t.spans && (forall i :: |s.spans| <= i < |t.spans| ==> t.spans[i].call == e.call)
            && t.ends == s.ends + (if Ended(s, e).Some? then multiset{Ended(s, e).value} else multiset{})
  {
  }

  lemma StepLeavesOps(s: State, e: Event, c: string)
    requires c != e.call
    ensures c in Next(s, e).ops <==> c in s.ops
    ensures c in s.ops ==> Next(s, e).ops[c] == s.ops[c]
  {
  }

  /** What a step does to the spans of other calls: nothing. */
  lemma OthersUntouched(s: State, e: Event, i: nat)
    requires Inv(s) && !e.End?
    ensures var t := Next(s, e);
            && s.spans <= t.spans
            && (i < |t.spans| && t.spans[i].call != e.call ==> i < |s.spans| && t.ends[i] == s.ends[i])
            && t.ends[i] <= 1 && (i in t.ends ==> i < |t.spans|)
  {
    StepChanges(s, e);
    if Ended(s, e).Some? {
      EndedIsOwn(s, e);
    }
  }

  lemma {:induction false} IncreasingOnce(models: seq<nat>, i: nat)
    requires forall j, k :: 0 <= j < k < |models| ==> models[j] < models[k]
    ensures multiset(models)[i] == if i in models then 1 else 0
  {
    if models != [] {
      IncreasingOnce(models[..|models| - 1], i);
      assert models == models[..|models| - 1] + [models[|models| - 1]];
    }
  }

  predicate Mine(s: State, call: string, i: nat) {
    IsOpen(s, i) && s.spans[i].call == call
  }

  lemma InSlots(s: State, call: string, i: nat)
    requires Inv(s) && call in s.ops
    ensures i in s.ops[call].models <==> Mine(s, call, i) && s.spans[i].kind.Model?
    ensures i in ToolSpans(s.ops[call].tools) <==> Mine(s, call, i) && s.spans[i].kind.Tool?
    ensures i in StepSpans(s.ops[call].steps) <==> Mine(s, call, i) && s.spans[i].kind.Step?
    ensures i == s.ops[call].root <==> Mine(s, call, i) && s.spans[i].kind.Root?
  {
    var op := s.ops[call];
    assert OpOk(s, call);
    if i in op.models {
      var k :| 0 <= k < |op.models| && op.models[k] == i;
    }
    if Mine(s, call, i) {
      assert Held(op, i, s.spans[i].kind);
      assert s.spans[i].kind.Step? ==> op.steps[s.spans[i].kind.number] in StepSpans(op.steps);
      assert s.spans[i].kind.Tool? ==> op.tools[s.spans[i].kind.id] in ToolSpans(op.tools);
    }
  }

  /** An operation holds each of its spans once, in one slot. */
  lemma HeldOnce(s: State, call: string, i: nat)
    requires Inv(s) && call in s.ops
    ensures HeldSpans(s.ops[call])[i] == if Mine(s, call, i) then 1 else 0
  {
    InSlots(s, call, i);
    assert OpOk(s, call);
    IncreasingOnce(s.ops[call].models, i);
  }

  lemma EndCloses(s: State, call: string, i: nat)
    requires Inv(s) && call in s.ops
    ensures var t := Next(s, End(call));
            && (IsOpen(t, i) <==> IsOpen(s, i) && s.spans[i].call != call)
            && t.ends[i] == s.ends[i] + (if Mine(s, call, i) then 1 else 0)
            && t.ends[i] <= 1 && (i in t.ends ==> i < |t.spans|)
  {
    HeldOnce(s, call, i);
  }

  lemma EndKeepsInv(s: State, call: string)
    requires Inv(s) && call in s.ops
    ensures Inv(Next(s, End(call)))
  {
    var t := Next(s, End(call));
    forall c | c in t.ops ensures OpOk(t, c) {
      forall i: nat | IsOpen(s, i) && s.spans[i].call == c ensures IsOpen(t, i) {
        EndCloses(s, call, i);
      }
      OpUnaffected(s, t, c);
    }
    forall i: nat
      ensures IsOpen(t, i) ==> t.spans[i].call in t.ops && Held(t.ops[t.spans[i].call], i, t.spans[i].kind)
      ensures t.ends[i] <= 1 && (i in t.ends ==> i < |t.spans|)
    {
      EndCloses(s, call, i);
    }
  }

  lemma OtherStepKeepsInv(s: State, e: Event)
    requires Inv(s) && NoRestart(s, e) && !e.End?
    ensures Inv(Next(s, e))
  {
    var t := Next(s, e);
    forall i: nat
      ensures IsOpen(t, i) ==> t.spans[i].call in t.ops && Held(t.ops[t.spans[i].call], i, t.spans[i].kind)
      ensures t.ends[i] <= 1 && (i in t.ends ==> i < |t.spans|)
    {
      OwnStep(s, e, i);
      OthersUntouched(s, e, i);
      if IsOpen(t, i) && t.spans[i].call != e.call {
        assert IsOpen(s, i);
        StepLeavesOps(s, e, s.spans[i].call);
      }
    }
    forall c | c in t.ops ensures OpOk(t, c) {
      OwnStep(s, e, 0);
      if c != e.call {
        StepLeavesOps(s, e, c);
        forall i: nat | IsOpen(s, i) && s.spans[i].call == c ensures IsOpen(t, i) && t.spans[i] == s.spans[i] {
          OthersUntouched(s, e, i);
        }
        OpUnaffected(s, t, c);
      }
    }
  }

  lemma StepKeepsInv(s: State, e: Event)
    requires Inv(s) && NoRestart(s, e)
    ensures Inv(Next(s, e))
  {
    if e.End? {
      if e.call in s.ops {
        EndKeepsInv(s, e.call);
      }
    } else {
      OtherStepKeepsInv(s, e);
    }
  }

  lemma StepKeepsValid(s: State, e: Event)
    ensures Inv(s) && NoRestart(s, e) ==> Inv(Next(s, e))
  {
    if Inv(s) && NoRestart(s, e) {
      StepKeepsInv(s, e);
    }
  }

  function Run(s: State, es: seq<Event>): State
    decreases |es|
  {
    if es == [] then s else Run(Next(s, es[0]), es[1..])
  }

  ghost predicate NoRestarts(s: State, es: seq<Event>)
    decreases |es|
  {
    es == [] || (NoRestart(s, es[0]) && NoRestarts(Next(s, es[0]), es[1..]))
  }

  const Empty := State(map[], [], multiset{})

  lemma {:induction false} RunKeepsInv(s: State, es: seq<Event>)
    requires Inv(s) && NoRestarts(s, es)
    ensures Inv(Run(s, es))
    decreases |es|
  {
    if es != [] {
      StepKeepsInv(s, es[0]);
      RunKeepsInv(Next(s, es[0]), es[1..]);
    }
  }

  /** In every run that restarts nothing still open, every span but a root is
      started under a span of its own operation that has not ended. */
  lemma StartsUnderOpenParent(es: seq<Event>, e: Event)
    requires NoRestarts(Empty, es) && !e.Start?
    ensures var s, t := Run(Empty, es), Next(Run(Empty, es), e);
            |t.spans| > |s.spans| ==>
              var rec := t.spans[|s.spans|];
              && t.spans == s.spans + [rec] && rec.call == e.call
              && rec.parent.Some? && IsOpen(s, rec.parent.value) && s.spans[rec.parent.value].call == e.call
              && (s.spans[rec.parent.value].kind.Root? || s.spans[rec.parent.value].kind.Step?)
  {
    RunKeepsInv(Empty, es);
    if |Next(Run(Empty, es), e).spans| > |Run(Empty, es).spans| {
      StartsUnderOwn(Run(Empty, es), e);
    }
  }

  lemma StartsUnderOwn(s: State, e: Event)
    requires (e.call in s.ops ==> OpOk(s, e.call)) && !e.Start? && |Next(s, e).spans| > |s.spans|
    ensures var t := Next(s, e);
            var rec := t.spans[|s.spans|];
            && t.spans == s.spans + [rec] && rec.call == e.call
            && rec.parent.Some? && IsOpen(s, rec.parent.value) && s.spans[rec.parent.value].call == e.call
            && (s.spans[rec.parent.value].kind.Root? || s.spans[rec.parent.value].kind.Step?)
  {
  }

  /** When `onEnd` of an operation returns, every span ever opened for its call has
      been ended exactly once. */
  lemma EndedOnceAtEnd(es: seq<Event>, call: string, i: nat)
    requires NoRestarts(Empty, es) && call in Run(Empty, es).ops
    requires i < |Run(Empty, es).spans| && Run(Empty, es).spans[i].call == call
    ensures Next(Run(Empty, es), End(call)).ends[i] == 1
  {
    RunKeepsInv(Empty, es);
    EndCloses(Run(Empty, es), call, i);
  }

  /** Events of one call never affect another's spans or operation. */
  lemma CallsAreIsolated(es: seq<Event>, e: Event, call: string, i: nat)
    requires NoRestarts(Empty, es) && call != e.call
    ensures var s, t := Run(Empty, es), Next(Run(Empty, es), e);
            && (call in t.ops <==> call in s.ops) && (call in s.ops ==> t.ops[call] == s.ops[call])
            && s.spans <= t.spans
            && (i < |t.spans| && t.spans[i].call == call ==> i < |s.spans| && t.ends[i] == s.ends[i])
  {
    RunKeepsInv(Empty, es);
    StepIsIsolated(Run(Empty, es), e, call, i);
  }

  lemma StepIsIsolated(s: State, e: Event, call: string, i: nat)
    requires Inv(s) && call != e.call
    ensures var t := Next(s, e);
            && (call in t.ops <==> call in s.ops) && (call in s.ops ==> t.ops[call] == s.ops[call])
            && s.spans <= t.spans
            && (i < |t.spans| && t.spans[i].call == call ==> i < |s.spans| && t.ends[i] == s.ends[i])
  {
    if e.End? {
      EndIsIsolated(s, e.call, call, i);
    } else {
      OthersUntouched(s, e, i);
      StepLeavesOps(s, e, call);
    }
  }

  lemma EndIsIsolated(s: State, ending: string, call: string, i: nat)
    requires Inv(s) && call != ending
    ensures var t := Next(s, End(ending));
            && (call in t.ops <==> call in s.ops) && (call in s.ops ==> t.ops[call] == s.ops[call])
            && t.spans == s.spans && (i < |s.spans| && s.spans[i].call == call ==> t.ends[i] == s.ends[i])
  {
    if ending in s.ops {
      EndCloses(s, ending, i);
    }
  }

  // ---------------------------------------------------------------------
  // Restarts leak
  // ---------------------------------------------------------------------

  /** The operation holds the span in no slot. */
  ghost predicate Free(op: Op, i: nat) {
    && op.root != i && i !in op.models
    && (forall n :: n in op.steps ==> op.steps[n] != i)
    && (forall t :: t in op.tools ==> op.tools[t] != i)
  }

  /** No operation holds the span any more. */
  ghost predicate Lost(s: State, i: nat) {
    i < |s.spans| && forall call :: call in s.ops ==> Free(s.ops[call], i)
  }

  /** The span that a restarting event finds in its slot. */
  function Replaced(s: State, e: Event): nat
    requires !NoRestart(s, e)
  {
    match e
    case Start(call, _, _) => s.ops[call].root
    case StepStart(call, number) => s.ops[call].steps[number.value]
    case ToolStart(call, tool) => s.ops[call].tools[tool]
  }

  lemma OtherCallsAreFree(s: State, call: string, i: nat)
    requires Inv(s) && call in s.ops && IsOpen(s, i) && s.spans[i].call != call
    ensures Free(s.ops[call], i)
  {
    InSlots(s, call, i);
    forall n | n in s.ops[call].steps ensures s.ops[call].steps[n] != i {
      assert s.ops[call].steps[n] in StepSpans(s.ops[call].steps);
    }
    forall t | t in s.ops[call].tools ensures s.ops[call].tools[t] != i {
      assert s.ops[call].tools[t] in ToolSpans(s.ops[call].tools);
    }
  }

  /** Restarting a step number or a tool id that is still open, or an open call id,
      loses the open span that was there. (An empty tool id never opens a span.) */
  lemma RestartLoses(s: State, e: Event)
    requires Inv(s) && !NoRestart(s, e) && !(e.ToolStart? && e.tool == "")
    ensures IsOpen(s, Replaced(s, e)) && Lost(Next(s, e), Replaced(s, e))
  {
    assert OpOk(s, e.call);
    var t, i := Next(s, e), Replaced(s, e);
    ReplacedIsFree(s, e);
    forall call | call in t.ops ensures Free(t.ops[call], i) {
      if call != e.call {
        StepLeavesOps(s, e, call);
        OtherCallsAreFree(s, call, i);
      }
    }
  }

  lemma ReplacedIsFree(s: State, e: Event)
    requires Inv(s) && !NoRestart(s, e) && !(e.ToolStart? && e.tool == "")
    ensures e.call in Next(s, e).ops && Free(Next(s, e).ops[e.call], Replaced(s, e))
  {
    assert OpOk(s, e.call);
    InSlots(s, e.call, Replaced(s, e));
  }

  lemma FreeIsNotHeld(op: Op, i: nat)
    requires Free(op, i)
    ensures HeldSpans(op)[i] == 0
  {
  }

  lemma EndedIsNotFree(s: State, e: Event, i: nat)
    requires Lost(s, i)
    ensures Ended(s, e) != Some(i)
  {
    if e.call in s.ops {
      var op := s.ops[e.call];
      assert Free(op, i);
      match e
      case ModelEnd(_) => assert op.models != [] ==> op.models[|op.models| - 1] in op.models;
      case ToolEnd(_, tool) => assert tool in op.tools ==> op.tools[tool] != i;
      case StepEnd(_, number) =>
        if number.Some? {
          var n: int := number.value;
          assert n in op.steps ==> op.steps[n] != i;
        }
      case _ =>
    }
  }

  lemma LostStays(s: State, e: Event, i: nat)
    requires Lost(s, i)
    ensures Lost(Next(s, e), i) && Next(s, e).ends[i] == s.ends[i]
  {
    var t := Next(s, e);
    if e.End? {
      if e.call in s.ops {
        FreeIsNotHeld(s.ops[e.call], i);
      }
    } else {
      StepChanges(s, e);
      EndedIsNotFree(s, e, i);
      forall call | call in t.ops ensures Free(t.ops[call], i) {
        if call != e.call {
          StepLeavesOps(s, e, call);
        } else {
          StaysFree(s, e, i);
        }
      }
    }
  }

  lemma StaysFree(s: State, e: Event, i: nat)
    requires Lost(s, i) && !e.End? && e.call in Next(s, e).ops
    ensures Free(Next(s, e).ops[e.call], i)
  {
    if e.call in s.ops {
      assert Free(s.ops[e.call], i);
    }
  }

  /** A lost span is never ended, whatever events follow: to restart nothing that is
      open is not only enough for every span to be ended, it is needed. */
  lemma {:induction false} LostStaysOpen(s: State, es: seq<Event>, i: nat)
    requires Lost(s, i)
    ensures Run(s, es).ends[i] == s.ends[i]
    decreases |es|
  {
    if es != [] {
      LostStays(s, es[0], i);
      LostStaysOpen(Next(s, es[0]), es[1..], i);
    }
  }

  /** In one statement: after a restart in any run, the replaced span stays open for
      ever, `onEnd` included. */
  lemma RestartLeaksForever(es: seq<Event>, e: Event, later: seq<Event>)
    requires NoRestarts(Empty, es) && !NoRestart(Run(Empty, es), e) && !(e.ToolStart? && e.tool == "")
    ensures Run(Next(Run(Empty, es), e), later).ends[Replaced(Run(Empty, es), e)] == 0
  {
    var s := Run(Empty, es);
    RunKeepsInv(Empty, es);
    RestartLoses(s, e);
    assert Next(s, e).ends == s.ends;
    LostStaysOpen(Next(s, e), later, Replaced(s, e));
  }

  // ---------------------------------------------------------------------
  // What new work hangs under
  // ---------------------------------------------------------------------

  /** The event opens a step of the call. */
  predicate OpensStep(e: Event, call: string) {
    e.StepStart? && e.call == call && e.number.Some?
  }

  /** The event begins the call anew, or ends it. */
  predicate Renews(e: Event, call: string) {
    e.call == call && (e.End? || (e.Start? && e.generation))
  }

  /** Of these events, the one that opened the step that the call is in: the last that
      opened a step of it, unless that step has been ended since. */
  function StepInForce(es: seq<Event>, call: string): (i: Option<nat>)
    ensures i.Some? ==> i.value < |es| && OpensStep(es[i.value], call)
  {
    if es == [] then None
    else
      var n := |es| - 1;
      var last, before := es[n], StepInForce(es[..n], call);
      if OpensStep(last, call) then Some(n)
      else if last.StepEnd? && last.call == call && before.Some? && es[before.value].number == last.number then None
      else before
  }

  /** The call is open under span `root`, and in the step of number and span `step`. */
  ghost predicate Tracks(s: State, call: string, root: nat, step: Option<(int, nat)>) {
    && call in s.ops && s.ops[call].root == root
    && (forall n :: n in s.ops[call].steps ==> s.ops[call].steps[n] < |s.spans|)
    && (forall m, n :: m in s.ops[call].steps && n in s.ops[call].steps && m != n ==>
          s.ops[call].steps[m] != s.ops[call].steps[n])
    && match step
       case None => s.ops[call].current == None
       case Some((n, k)) =>
         s.ops[call].current == Some(k) && n in s.ops[call].steps && s.ops[call].steps[n] == k
  }

  function StepNext(step: Option<(int, nat)>, call: string, spans: nat, e: Event): Option<(int, nat)> {
    if OpensStep(e, call) then Some((e.number.value, spans))
    else if e.StepEnd? && e.call == call && step.Some? && e.number == Some(step.value.0) then None
    else step
  }

  lemma TracksNext(s: State, call: string, root: nat, step: Option<(int, nat)>, e: Event)
    requires Tracks(s, call, root, step) && !Renews(e, call)
    ensures Tracks(Next(s, e), call, root, StepNext(step, call, |s.spans|, e))
  {
    if e.call != call {
      StepLeavesOps(s, e, call);
      assert |s.spans| <= |Next(s, e).spans|;
    } else if OpensStep(e, call) {
      TracksOpened(s, call, root, step, e);
    } else if e.StepEnd? {
      TracksEnded(s, call, root, step, e);
    }
  }

  lemma TracksOpened(s: State, call: string, root: nat, step: Option<(int, nat)>, e: Event)
    requires Tracks(s, call, root, step) && OpensStep(e, call)
    ensures Tracks(Next(s, e), call, root, Some((e.number.value, |s.spans|)))
  {
  }

  lemma TracksEnded(s: State, call: string, root: nat, step: Option<(int, nat)>, e: Event)
    requires Tracks(s, call, root, step) && e.StepEnd? && e.call == call
    ensures Tracks(Next(s, e), call, root, StepNext(step, call, |s.spans|, e))
  {
    var op := s.ops[call];
    if e.number.Some? && e.number.value in op.steps {
      var m, after := e.number.value, Next(s, e).ops[call];
      assert after.steps == op.steps - {m} && after.root == op.root;
      assert forall x :: x in after.steps ==> x in op.steps && x != m && after.steps[x] == op.steps[x];
      if step.Some? {
        var (n, k) := step.value;
        assert m != n ==> op.steps[m] != k && n in after.steps;
        assert after.current == if m == n then None else Some(k);
      } else {
        assert after.current == None;
      }
    }
  }

  lemma {:induction false} RunAppends(s: State, es: seq<Event>, e: Event)
    ensures Run(s, es + [e]) == Next(Run(s, es), e)
    decreases |es|
  {
    if es == [] {
      assert ([] + [e])[1..] == [];
    } else {
      assert (es + [e])[1..] == es[1..] + [e];
      RunAppends(Next(s, es[0]), es[1..], e);
    }
  }

  /** The number and the span of the step in force. */
  function StepOf(s: State, es: seq<Event>, call: string): Option<(int, nat)> {
    match StepInForce(es, call)
    case None => None
    case Some(i) => Some((es[i].number.value, |Run(s, es[..i]).spans|))
  }

  lemma StepOfNext(s: State, es: seq<Event>, call: string, e: Event)
    ensures StepOf(s, es + [e], call) == StepNext(StepOf(s, es, call), call, |Run(s, es).spans|, e)
  {
    assert (es + [e])[..|es|] == es;
    var i := StepInForce(es, call);
    if i.Some? {
      assert (es + [e])[..i.value] == es[..i.value] && (es + [e])[i.value] == es[i.value];
    }
  }

  lemma {:induction false} TracksRun(s: State, call: string, root: nat, es: seq<Event>)
    requires Tracks(s, call, root, None) && forall i :: 0 <= i < |es| ==> !Renews(es[i], call)
    ensures Tracks(Run(s, es), call, root, StepOf(s, es, call))
    decreases |es|
  {
    if es != [] {
      var front, last := es[..|es| - 1], es[|es| - 1];
      assert es == front + [last];
      TracksRun(s, call, root, front);
      RunAppends(s, front, last);
      StepOfNext(s, front, call, last);
      TracksNext(Run(s, front), call, root, StepOf(s, front, call), last);
    }
  }

  lemma HangsNext(s: State, call: string, root: nat, step: Option<(int, nat)>, e: Event)
    requires Tracks(s, call, root, step) && e.call == call
    requires e.ModelStart? || (e.ToolStart? && e.tool != "") || OpensStep(e, call)
    ensures var t := Next(s, e);
            |t.spans| == |s.spans| + 1 && t.spans[..|s.spans|] == s.spans && t.spans[|s.spans|].call == call &&
            t.spans[|s.spans|].parent == Some(if OpensStep(e, call) || step.None? then root else step.value.1)
  {
  }

  /** From the event that began a call on, and as long as it is not begun anew or ended: a
      model call or a tool hangs under the span of the step that the call is in, or, when
      it is in none, under the span that the beginning opened; and so does every step. */
  lemma HangsUnderItsStep(s0: State, call: string, ambient: Option<nat>, es: seq<Event>, e: Event)
    requires forall i :: 0 <= i < |es| ==> !Renews(es[i], call)
    requires e.call == call && (e.ModelStart? || (e.ToolStart? && e.tool != "") || OpensStep(e, call))
    ensures var begun := Next(s0, Start(call, true, ambient));
            var (s, t) := (Run(begun, es), Next(Run(begun, es), e));
            && |t.spans| == |s.spans| + 1 && t.spans[|s.spans|].call == call
            && t.spans[|s.spans|].parent ==
                 (match StepInForce(es, call)
                  case Some(i) => Some(if OpensStep(e, call) then |s0.spans| else |Run(begun, es[..i]).spans|)
                  case None => Some(|s0.spans|))
  {
    var begun := Next(s0, Start(call, true, ambient));
    TracksRun(begun, call, |s0.spans|, es);
    HangsNext(Run(begun, es), call, |s0.spans|, StepOf(begun, es, call), e);
  }

  /** The span that the beginning opened is the call's root, under the ambient context. */
  lemma BeginsUnderAmbient(s0: State, call: string, ambient: Option<nat>)
    ensures var t := Next(s0, Start(call, true, ambient));
            t.spans == s0.spans + [SpanRec(call, ambient, Root)] && t.ends == s0.ends
  {
  }

  /** Nothing else begins anything: an operation that generates nothing, a step without a
      number, a tool without an id, or work for a call that is not open. */
  lemma NothingBegins(s: State, e: Event)
    requires (e.Start? && !e.generation) || (e.StepStart? && e.number.None?) || (e.ToolStart? && e.tool == "") ||
             (!e.Start? && e.call !in s.ops)
    ensures Next(s, e) == s
  {
  }

  // ---------------------------------------------------------------------
  // What an end closes
  // ---------------------------------------------------------------------

  ghost predicate OpenOf(s: State, i: nat, call: string, kind: Kind) {
    IsOpen(s, i) && s.spans[i].call == call && s.spans[i].kind == kind
  }

  /** The end of a model call closes the latest one that is open. */
  lemma ModelEndClosesLatest(s: State, call: string, i: nat)
    requires Inv(s) && OpenOf(s, i, call, Model) && forall j: nat :: OpenOf(s, j, call, Model) ==> j <= i
    ensures Next(s, ModelEnd(call)).ends == s.ends + multiset{i}
  {
    assert OpOk(s, call) && Held(s.ops[call], i, Model);
    var models := s.ops[call].models;
    var k :| 0 <= k < |models| && models[k] == i;
    assert IsSpan(s, models[|models| - 1], call, Model);
    assert OpenOf(s, models[|models| - 1], call, Model);
  }

  /** The end of a tool, or of a step, closes the open span of that tool or step. */
  lemma NamedEndCloses(s: State, call: string, i: nat, e: Event)
    requires Inv(s) && e.call == call
    requires (e.ToolEnd? && e.tool != "" && OpenOf(s, i, call, Tool(e.tool))) ||
             (e.StepEnd? && e.number.Some? && OpenOf(s, i, call, Step(e.number.value)))
    ensures Next(s, e).ends == s.ends + multiset{i}
  {
    var op := s.ops[call];
    assert Held(op, i, s.spans[i].kind);
    if e.ToolEnd? {
      assert e.tool in op.tools && op.tools[e.tool] == i;
    } else {
      assert e.number.value in op.steps && op.steps[e.number.value] == i;
    }
  }

  /** With nothing of the kind open, an end closes nothing. */
  lemma EndClosesNothing(s: State, e: Event)
    requires Inv(s)
    requires (e.ModelEnd? && forall i: nat :: !OpenOf(s, i, e.call, Model)) ||
             (e.ToolEnd? && (e.tool == "" || forall i: nat :: !OpenOf(s, i, e.call, Tool(e.tool)))) ||
             (e.StepEnd? && (e.number.None? || forall i: nat :: !OpenOf(s, i, e.call, Step(e.number.value))))
    ensures Next(s, e) == s
  {
    if e.call in s.ops {
      var op := s.ops[e.call];
      assert OpOk(s, e.call);
      if e.ModelEnd? && op.models != [] {
        assert OpenOf(s, op.models[|op.models| - 1], e.call, Model);
      }
      if e.ToolEnd? && e.tool in op.tools {
        assert IsSpan(s, op.tools[e.tool], e.call, Tool(e.tool));
        assert e.tool == "" || OpenOf(s, op.tools[e.tool], e.call, Tool(e.tool));
      }
      if e.StepEnd? && e.number.Some? && e.number.value in op.steps {
        assert IsSpan(s, op.steps[e.number.value], e.call, Step(e.number.value));
        assert OpenOf(s, op.steps[e.number.value], e.call, Step(e.number.value));
      }
    }
  }
}
