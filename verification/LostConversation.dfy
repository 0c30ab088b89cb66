/** The one way in which a reliable Session loses its conversation is really taken: for any two changes a Controller may
    type on one connection there is a run without any failure that ends in it. */
module LostConversation {
  import opened Wrappers
  import opened Lines
  import opened NetworkProfile
  import opened ProfileWire
  import opened ControllerCommands
  import opened TypedCommands
  import opened ControlPlane
  import opened ControlPlaneBatches
  import opened ActionExecutor
  import opened HelperConversations
  import opened ProfileProtocol
  import opened ProfileAgreement
  import opened ProfileLoss
  import L = SessionLifecycle

  /** A run of reliable steps from the start leads to a state. */
  predicate Reaches(f: FloatText, steps: seq<Step>, n: Net) {
    CanRun(f, NET_START, steps) && RunOf(f, NET_START, steps) == n && forall s :: s in steps ==> Reliable(s)
  }

  lemma {:induction false} RunOneMore(f: FloatText, n: Net, steps: seq<Step>, step: Step)
    requires CanRun(f, n, steps) && Enabled(f, RunOf(f, n, steps), step)
    ensures CanRun(f, n, steps + [step]) && RunOf(f, n, steps + [step]) == Next(f, RunOf(f, n, steps), step)
    decreases |steps|
  {
    hide Enabled, Next;
    if steps == [] {
      assert (steps + [step])[1..] == [];
      assert CanRun(f, Next(f, n, step), []);
    } else {
      RunOneMore(f, Next(f, n, steps[0]), steps[1..], step);
      assert (steps + [step])[1..] == steps[1..] + [step];
    }
  }

  lemma ReachOneMore(f: FloatText, steps: seq<Step>, n: Net, step: Step)
    requires Reaches(f, steps, n) && Enabled(f, n, step) && Reliable(step)
    ensures Reaches(f, steps + [step], Next(f, n, step))
  {
    hide Enabled, Next, CanRun, RunOf, Reliable;
    RunOneMore(f, NET_START, steps, step);
  }

  /** A line the parser reads as a change. */
  predicate TypesChange(f: FloatText, line: string, change: Change) {
    ParseCommand(f, line) == Parsed(Edit(change))
  }

  lemma TypedOnOneLine(f: FloatText, line: string, change: Change)
    requires TypesChange(f, line, change)
    ensures OneLine(line)
  {
    assert Printable(line);
    hide ParseCommand;
  }

  lemma FirstIsDispatched(f: FloatText, p: Plane, line: string, change: Change)
    requires TypesChange(f, line, change) && !p.stopping && p.inFlight.None?
    ensures ReadLine(f, p, line, [])
            == (p.(inFlight := Some(InFlight(change, Some(p.generation), true))), [Dispatch(change)])
  {
    hide ParseCommand;
    assert [] + [Dispatch(change)] == [Dispatch(change)];
  }

  lemma SecondIsQueued(f: FloatText, p: Plane, line: string, change: Change, actions: seq<Action>)
    requires TypesChange(f, line, change) && !p.stopping && p.inFlight.Some? && p.queue == []
    ensures ReadLine(f, p, line, actions) == (p.(queue := [Queued(Edit(change), p.generation)]), actions)
  {
    hide ParseCommand;
    assert [] + [Queued(Edit(change), p.generation)] == [Queued(Edit(change), p.generation)];
  }

  /** Two changes in one read: the first is dispatched, the second queued. */
  lemma TwoChangesRead(f: FloatText, p: Plane, first: string, second: string, c1: Change, c2: Change)
    requires TypesChange(f, first, c1) && TypesChange(f, second, c2)
    requires p.attached && p.buffer == "" && p.queue == [] && p.inFlight.None?
    requires !p.stopping && !p.terminal && !p.failed
    ensures HandleBytes(f, p, first + "\n" + (second + "\n"))
            == (p.(inFlight := Some(InFlight(c1, Some(p.generation), true)),
                   queue := [Queued(Edit(c2), p.generation)]), [Dispatch(c1)])
  {
    var bytes := first + "\n" + (second + "\n");
    TypedOnOneLine(f, first, c1);
    TypedOnOneLine(f, second, c2);
    TakeFirst(first, second + "\n");
    TakeFirst(second, "");
    hide ReadLine, TakeNextLine, OneLine, TypesChange;
    assert second + "\n" + "" == second + "\n";
    assert p.buffer + bytes == bytes;
    var p1 := p.(buffer := second + "\n", inFlight := Some(InFlight(c1, Some(p.generation), true)));
    FirstIsDispatched(f, p.(buffer := second + "\n"), first, c1);
    var p2 := p1.(buffer := "", queue := [Queued(Edit(c2), p.generation)]);
    SecondIsQueued(f, p1.(buffer := ""), second, c2, [Dispatch(c1)]);
    NothingTaken();
    assert ReadCommands(f, p2, [Dispatch(c1)]) == (p2, [Dispatch(c1)]);
    assert ReadCommands(f, p1, [Dispatch(c1)]) == (p2, [Dispatch(c1)]);
    assert ReadCommands(f, p.(buffer := bytes), []) == (p2, [Dispatch(c1)]);
  }

  lemma NothingTaken()
    ensures TakeNextLine("").None?
  {
  }

  lemma TakeFirst(line: string, rest: string)
    requires OneLine(line)
    ensures TakeNextLine(line + "\n" + rest) == Some((line, rest))
  {
    FirstNewlineAfter(line, rest);
    var s := line + "\n" + rest;
    assert s[..|line|] == line && s[|line| + 1..] == rest;
  }

  // ----- The run -----

  /** An active Session with a Controller, and nothing going on. */
  predicate Attending(c: Core) {
    && c.plane == PLANE_START.(generation := 1, attached := true)
    && c.created && c.client && !c.finished && c.inbox == [] && c.pending == [] && !c.life.over && !c.lost
    && c.supervisor == Supervisor(Active, None)
    && c.stage.Running? && c.runtime == RUNTIME_START && c.confirmed == DEFAULT_PROFILE
  }

  lemma SessionStarts(f: FloatText) returns (steps: seq<Step>, n: Net)
    ensures Reaches(f, steps, n) && Attending(n.core) && n.down == [] && n.up == []
  {
    var activating, handling, accepting := HelperActivates(1), HandleHelperEvent(true, []), AcceptClient([true]);
    var c1, c2, c3 := FirstSteps(f);
    var c4 := ActivationTaken(f, c3);
    var n1 := Net(c1, [], [ActiveMessage(1)]);
    ControllerAttaches(f, c4);
    assert Reaches(f, [], NET_START);
    hide CanRun, RunOf, Next, Enabled, Reaches, Attending;
    ReachOneMore(f, [], NET_START, activating);
    steps := [] + [activating];
    ReachOneMore(f, steps, n1, SupervisorReads);
    steps := steps + [SupervisorReads];
    ReachOneMore(f, steps, Net(c2, [], []), handling);
    steps := steps + [handling];
    ReachOneMore(f, steps, Net(c3, [], []), LifecycleTakes(true));
    steps := steps + [LifecycleTakes(true)];
    n := Next(f, Net(c4, [], []), accepting);
    ReachOneMore(f, steps, Net(c4, [], []), accepting);
    steps := steps + [accepting];
  }

  lemma FirstSteps(f: FloatText) returns (c1: Core, c2: Core, c3: Core)
    ensures Enabled(f, NET_START, HelperActivates(1))
    ensures Next(f, NET_START, HelperActivates(1)) == Net(c1, [], [ActiveMessage(1)])
    ensures Enabled(f, Net(c1, [], [ActiveMessage(1)]), SupervisorReads)
    ensures Next(f, Net(c1, [], [ActiveMessage(1)]), SupervisorReads) == Net(c2, [], [])
    ensures Enabled(f, Net(c2, [], []), HandleHelperEvent(true, []))
    ensures Next(f, Net(c2, [], []), HandleHelperEvent(true, [])) == Net(c3, [], [])
    ensures Activating(c3)
  {
    hide Handle;
    c1 := CORE_START.(stage := Running);
    c2 := c1.(supervisor := Supervisor(Active, None), inbox := [Activated(1)]);
    c3 := c2.(inbox := [], created := true, pending := [L.Activated], accepting := true);
    assert [] + [L.Activated] == [L.Activated];
  }

  /** The activation was handled, and the lifecycle is about to be told. */
  predicate Activating(c: Core) {
    && c.plane == PLANE_START && c.created && c.accepting && !c.client && !c.finished && c.inbox == []
    && c.pending == [L.Activated] && c.life == L.LIFE_START && !c.lost && c.supervisor == Supervisor(Active, None)
    && c.stage.Running? && c.runtime == RUNTIME_START && c.confirmed == DEFAULT_PROFILE
  }

  /** Waiting hands out what is pending before it looks at any descriptor. */
  lemma ActivationTaken(f: FloatText, c: Core) returns (after: Core)
    requires Activating(c)
    ensures Enabled(f, Net(c, [], []), LifecycleTakes(true))
    ensures Next(f, Net(c, [], []), LifecycleTakes(true)) == Net(after, [], [])
    ensures after == c.(pending := [], life := c.life.(phase := L.Active, activated := true))
  {
    hide Handle;
    after := c.(pending := [], life := c.life.(phase := L.Active, activated := true));
    assert [L.Activated][1..] == [];
  }

  lemma ControllerAttaches(f: FloatText, c: Core)
    requires c.plane == PLANE_START && c.created && c.accepting && !c.client && !c.finished && c.inbox == []
    requires c.pending == [] && !c.life.over && !c.lost && c.supervisor == Supervisor(Active, None)
    requires c.stage.Running? && c.runtime == RUNTIME_START && c.confirmed == DEFAULT_PROFILE
    ensures Enabled(f, Net(c, [], []), AcceptClient([true]))
    ensures var n := Next(f, Net(c, [], []), AcceptClient([true]));
            Attending(n.core) && n.down == [] && n.up == []
  {
    var plane := PLANE_START.(generation := 1, attached := true);
    assert Handle(f, c.plane, Attached) == (plane, [Send(AttachedReply)]);
    var e := Exec(plane, true, c.supervisor, [], [], [], false);
    assert Execute(f, [Send(AttachedReply)], [true], e) == e.(said := [AttachedReply]) by {
      assert [Send(AttachedReply)][1..] == [] && [true][1..] == [];
      assert Act(f, e, Send(AttachedReply), true) == e.(said := [] + [AttachedReply]);
    }
  }

  /** One change is underway, another one waits behind it. */
  predicate Waiting(c: Core, c1: Change, c2: Change) {
    && c.plane.inFlight.Some? && c.plane.inFlight.value.change == c1
    && c.plane.queue == [Queued(Edit(c2), 1)]
    && c.inbox == [] && c.pending == [] && !c.life.over && !c.lost
    && c.supervisor == Supervisor(Active, Some(c1))
    && c.stage.Running? && c.runtime == RUNTIME_START && c.confirmed == DEFAULT_PROFILE
  }

  /** What the control plane and its executor make of both lines. */
  lemma TypingPerforms(f: FloatText, c: Core, first: string, second: string, c1: Change, c2: Change)
    requires RoundsInRange(f) && Attending(c) && TypesChange(f, first, c1) && TypesChange(f, second, c2)
    ensures var event := BytesReceived(first + "\n" + (second + "\n"));
            && Writes(f, c, event, [true]) && Serialize(f, c1).Some?
            && Perform(f, c, event, [true])
               == (c.(plane := c.plane.(inFlight := Some(InFlight(c1, Some(1), true)), queue := [Queued(Edit(c2), 1)]),
                      supervisor := Supervisor(Active, Some(c1))),
                   [Serialize(f, c1).value])
  {
    var bytes := first + "\n" + (second + "\n");
    TwoChangesRead(f, c.plane, first, second, c1, c2);
    DispatchWorks(f, c, first, c1);
    hide HandleBytes, Begin, Execute, Serialize;
    assert Handle(f, c.plane, BytesReceived(bytes)) == HandleBytes(f, c.plane, bytes);
    hide Handle, TypesChange;
    assert c.pending + [] == c.pending;
  }

  lemma ChangesTyped(f: FloatText, c: Core, first: string, second: string, c1: Change, c2: Change)
    requires RoundsInRange(f) && Attending(c) && TypesChange(f, first, c1) && TypesChange(f, second, c2)
    ensures var step := ClientBytes(first + "\n" + (second + "\n"), [true]);
            && Enabled(f, Net(c, [], []), step)
            && Waiting(Next(f, Net(c, [], []), step).core, c1, c2)
            && Next(f, Net(c, [], []), step).down == [ChangeProfile(c1)] && Next(f, Net(c, [], []), step).up == []
  {
    TypingPerforms(f, c, first, second, c1, c2);
    hide Perform, Writes, Serialize, TypesChange, Enabled, Next, Waiting, Attending;
    ChangeSent(f, c, first + "\n" + (second + "\n"), c1, c2, Serialize(f, c1).value);
  }

  lemma ChangeSent(f: FloatText, c: Core, bytes: string, c1: Change, c2: Change, frame: string)
    requires Attending(c) && Writes(f, c, BytesReceived(bytes), [true])
    requires Perform(f, c, BytesReceived(bytes), [true])
             == (c.(plane := c.plane.(inFlight := Some(InFlight(c1, Some(1), true)), queue := [Queued(Edit(c2), 1)]),
                    supervisor := Supervisor(Active, Some(c1))), [frame])
    ensures var step := ClientBytes(bytes, [true]);
            && Enabled(f, Net(c, [], []), step)
            && Waiting(Next(f, Net(c, [], []), step).core, c1, c2)
            && Next(f, Net(c, [], []), step).down == [ChangeProfile(c1)] && Next(f, Net(c, [], []), step).up == []
  {
    hide Handle, Perform;
    assert [] + [ChangeProfile(c1)] + [] == [ChangeProfile(c1)];
  }

  lemma TypedCanBeSent(f: FloatText, line: string, change: Change)
    requires RoundsInRange(f) && TypesChange(f, line, change)
    ensures Serialize(f, change).Some?
  {
    ParsedChangesAreSendable(f, line);
    hide ParseCommand;
  }

  /** Executing the one dispatch on an idle conversation. */
  lemma DispatchWorks(f: FloatText, c: Core, line: string, change: Change)
    requires RoundsInRange(f) && TypesChange(f, line, change) && c.supervisor == Supervisor(Active, None)
    ensures Serialize(f, change).Some?
    ensures forall plane ::
      Execute(f, [Dispatch(change)], [true], Exec(plane, true, c.supervisor, [], [], [], false))
      == Exec(plane, true, Supervisor(Active, Some(change)), [], [Serialize(f, change).value], [], false)
  {
    TypedCanBeSent(f, line, change);
    hide ParseCommand, Serialize, Process, TypesChange;
    forall plane
      ensures Execute(f, [Dispatch(change)], [true], Exec(plane, true, c.supervisor, [], [], [], false))
              == Exec(plane, true, Supervisor(Active, Some(change)), [], [Serialize(f, change).value], [], false)
    {
      var e := Exec(plane, true, c.supervisor, [], [], [], false);
      assert [Dispatch(change)][1..] == [] && [true][1..] == [];
      assert Act(f, e, Dispatch(change), true)
             == e.(conversation := Supervisor(Active, Some(change)), frames := [] + [Serialize(f, change).value]);
    }
  }

  /** The helper answers and its Workload ends, and the Supervisor reads both before it handles either. */
  predicate BothRead(c: Core, c2: Change) {
    && c.plane.queue == [Queued(Edit(c2), 1)] && c.pending == [] && !c.life.over && !c.lost
    && |c.inbox| == 2 && c.inbox[0].ProfileResult? && Over(c.supervisor.phase)
  }

  lemma AnswerAndEndRead(f: FloatText, steps: seq<Step>, n: Net, c1: Change, c2: Change)
      returns (more: seq<Step>, t: Net)
    requires Reaches(f, steps, n) && Waiting(n.core, c1, c2) && n.down == [ChangeProfile(c1)] && n.up == []
    ensures Reaches(f, more, t) && BothRead(t.core, c2)
  {
    var s1, s2 := HelperReads(ShapingRestored), WorkloadEnds(false, 0);
    var completion := HelperAnswers(f, n, c1, c2);
    var n1 := Next(f, n, s1);
    EndsAfterAnswer(f, n1, completion, c1, c2);
    var n2 := Next(f, n1, s2);
    BothTaken(f, n2, completion, c1, c2);
    hide Next, Enabled, Reaches, BothRead, Waiting, Answering;
    ReachOneMore(f, steps, n, s1);
    ReachOneMore(f, steps + [s1], n1, s2);
    var n3 := Next(f, n2, SupervisorReads);
    ReachOneMore(f, steps + [s1] + [s2], n2, SupervisorReads);
    t := Next(f, n3, SupervisorReads);
    ReachOneMore(f, steps + [s1] + [s2] + [SupervisorReads], n3, SupervisorReads);
    more := steps + [s1] + [s2] + [SupervisorReads] + [SupervisorReads];
  }

  /** The Supervisor still waits for the answer. */
  predicate Answering(c: Core, c1: Change, c2: Change) {
    && c.plane.queue == [Queued(Edit(c2), 1)] && c.inbox == [] && c.pending == [] && !c.life.over && !c.lost
    && c.supervisor == Supervisor(Active, Some(c1))
  }

  lemma HelperAnswers(f: FloatText, n: Net, c1: Change, c2: Change) returns (completion: Completion)
    requires Waiting(n.core, c1, c2) && n.down == [ChangeProfile(c1)] && n.up == []
    ensures !completion.StateUnknown? && Enabled(f, n, HelperReads(ShapingRestored))
    ensures var t := Next(f, n, HelperReads(ShapingRestored));
            Answering(t.core, c1, c2) && t.core.stage.Running? && t.up == [ReplyMessage(completion)]
  {
    OneSideOnly(c1);
    hide AdapterApply;
    completion := AdapterApply(DEFAULT_PROFILE, c1, ShapingRestored).1;
    assert Next(f, n, HelperReads(ShapingRestored)).up == [] + [ReplyMessage(completion)];
  }

  lemma EndsAfterAnswer(f: FloatText, n: Net, completion: Completion, c1: Change, c2: Change)
    requires Answering(n.core, c1, c2) && n.core.stage.Running? && n.up == [ReplyMessage(completion)]
    ensures Enabled(f, n, WorkloadEnds(false, 0))
    ensures var t := Next(f, n, WorkloadEnds(false, 0));
            Answering(t.core, c1, c2) && t.up == [ReplyMessage(completion), ExitedMessage(0)]
  {
    assert [ReplyMessage(completion)] + [ExitedMessage(0)] == [ReplyMessage(completion), ExitedMessage(0)];
  }

  lemma BothTaken(f: FloatText, n: Net, completion: Completion, c1: Change, c2: Change)
    requires Answering(n.core, c1, c2) && !completion.StateUnknown?
    requires n.up == [ReplyMessage(completion), ExitedMessage(0)]
    ensures Enabled(f, n, SupervisorReads)
    ensures var t := Next(f, n, SupervisorReads);
            Enabled(f, t, SupervisorReads) && BothRead(Next(f, t, SupervisorReads).core, c2)
  {
    var t := Next(f, n, SupervisorReads);
    assert t.core.inbox == [] + [ProfileResult(completion.Applied?, c1)] && t.up == [ExitedMessage(0)];
  }

  /** A single change never leaves the profile state unknown when the kernel was put back. */
  lemma OneSideOnly(change: Change)
    ensures !AdapterApply(DEFAULT_PROFILE, change, ShapingRestored).1.StateUnknown?
  {
  }

  // ----- There are such lines -----

  /** Putting a setting back is such a line, whatever the number format. */
  lemma ResetIsTyped(f: FloatText) returns (line: string)
    requires RoundsInRange(f)
    ensures TypesChange(f, line, Reset(Outbound, Delay))
  {
    var t, gaps := TypedReset(Outbound, Delay), ["", " ", " ", ""];
    line := Spaced(TypedWords(t), gaps);
    SizeOfThree(TypedWords(t), gaps);
    hide Spaced, ParseCommand;
    assert forall i :: 0 < i < 3 ==> gaps[i] == " ";
    WhateverTheLayout(f, t, gaps);
  }

  lemma SizeOfThree(words: seq<string>, gaps: seq<string>)
    requires |words| == 3 && |gaps| == 4
    ensures |Spaced(words, gaps)|
            == |words[0]| + |words[1]| + |words[2]| + |gaps[0]| + |gaps[1]| + |gaps[2]| + |gaps[3]|
  {
    assert words[1..][1..][1..] == [] && gaps[1..][1..][1..] == [gaps[3]];
    assert words[1..][1..] == [words[2]] && gaps[1..][1..] == [gaps[2], gaps[3]];
    assert words[1..] == [words[1], words[2]] && gaps[1..] == [gaps[1], gaps[2], gaps[3]];
    assert Spaced([], [gaps[3]]) == gaps[3];
    assert |Spaced([words[2]], [gaps[2], gaps[3]])| == |gaps[2]| + |words[2]| + |gaps[3]|;
  }

  /** For any two changes typed in one go there is a run in which nothing fails and the conversation is lost. */
  lemma LossIsReachable(f: FloatText, first: string, second: string, c1: Change, c2: Change)
      returns (steps: seq<Step>)
    requires RoundsInRange(f) && TypesChange(f, first, c1) && TypesChange(f, second, c2)
    ensures CanRun(f, NET_START, steps) && (forall s :: s in steps ==> Reliable(s))
    ensures RunOf(f, NET_START, steps).core.lost
  {
    hide CanRun, RunOf, Next, Enabled, TypesChange;
    var starting, n := SessionStarts(f);
    var typing := ClientBytes(first + "\n" + (second + "\n"), [true]);
    assert n == Net(n.core, [], []);
    ChangesTyped(f, n.core, first, second, c1, c2);
    ReachOneMore(f, starting, n, typing);
    var reading, t := AnswerAndEndRead(f, starting + [typing], Next(f, n, typing), c1, c2);
    InitiallyOk(f);
    RunKeeps(f, NET_START, reading);
    var handling := ResultStep(f, t);
    LostExactlyWhen(f, t, handling);
    ReachOneMore(f, reading, t, handling);
    steps := reading + [handling];
  }

  /** Handling the first event, with every write succeeding. */
  lemma ResultStep(f: FloatText, n: Net) returns (step: Step)
    requires !n.core.life.over && n.core.inbox != [] && EventOf(n.core.inbox[0]).Some?
    ensures Enabled(f, n, step) && Reliable(step) && step.HandleHelperEvent?
  {
    hide Handle;
    var actions := Handle(f, n.core.plane, EventOf(n.core.inbox[0]).value).1;
    step := HandleHelperEvent(true, seq(|actions|, i => true));
  }

  /** So the agreement of the two sides cannot be had without the exception for a lost conversation. */
  lemma ReliableRunsMayLose(f: FloatText)
    requires RoundsInRange(f)
    ensures exists steps ::
      CanRun(f, NET_START, steps) && (forall s :: s in steps ==> Reliable(s)) && RunOf(f, NET_START, steps).core.lost
  {
    var line := ResetIsTyped(f);
    hide CanRun, RunOf, TypesChange, Reliable;
    var steps := LossIsReachable(f, line, line, Reset(Outbound, Delay), Reset(Outbound, Delay));
  }
}
