/** The control plane as its user sees it, without buffers of actions, generations or queues of tagged commands: a desk
    that takes one line after the other. Every event of the control plane does what the desk does. */
module CommandDesk {
  import opened Wrappers
  import opened Lines
  import opened NetworkProfile
  import opened ProfileWire
  import opened ControllerCommands
  import opened ControlPlane
  import opened ControlPlaneBatches
  import opened SequentialCommands

  // ----- The desk -----

  /** `open`: a client is there. `flying`: the change being carried out, `recent` when the last event took it up, `owed`
      when the client waits for its result; `waiting`: the commands behind it. */
  datatype Desk = Desk(
    open: bool, flying: Option<Change>, recent: bool, owed: bool, waiting: seq<Command>,
    profile: Profile, shaped: bool, stopping: bool, over: bool, failed: bool)

  /** The desk and the line the client has not finished. */
  datatype Front = Front(desk: Desk, unread: string)

  const DESK_START := Desk(false, None, false, false, [], DEFAULT_PROFILE, false, false, false, false)

  function Say(b: Batch, reply: Reply): Batch {
    b.(replies := b.replies + [reply])
  }

  /** The client is gone: whatever it asked for or waited for is dropped, but a change goes on. */
  function Close(d: Desk): Desk {
    d.(open := false, waiting := [], owed := false)
  }

  /** Saying something last. */
  function SayGoodbye(d: Desk, b: Batch, reply: Reply): (Desk, Batch) {
    (Close(d), Say(b, reply).(disconnect := true))
  }

  /** A stop is carried out at once: it overtakes what is waiting, takes back a change that was not handed on yet, and is
      requested from the lifecycle only the first time. */
  function TakeStop(d: Desk, b: Batch): (Desk, Batch) {
    (d.(stopping := true, waiting := [], owed := false, recent := false, flying := if d.recent then None else d.flying),
     Say(b.(stop := b.stop || !d.stopping, dispatch := None), StoppingReply))
  }

  /** A command that has to wait, unless there are too many. */
  function Wait(d: Desk, b: Batch, command: Command): (Desk, Batch) {
    if |d.waiting| < MAXIMUM_QUEUE then (d.(waiting := d.waiting + [command]), b) else SayGoodbye(d, b, TooManyReply)
  }

  /** A command that is served now. */
  function Serve(d: Desk, b: Batch, command: Command): (Desk, Batch) {
    match command
    case Help => (d, Say(b, HelpReply))
    case Status => (d, Say(b, StatusReply(d.profile, d.stopping, d.shaped)))
    case Detach => SayGoodbye(d, b, DetachedReply)
    case Edit(change) =>
      if d.stopping then (d, Say(b, SessionStoppingReply))
      else (d.(flying := Some(change), recent := true, owed := true), b.(dispatch := Some(change)))
    case Stop => TakeStop(d, b)
  }

  /** One line, as it was read: an error is answered at once, whatever is waiting. */
  function Take(d: Desk, b: Batch, read: ParseResult): (Desk, Batch) {
    match read
    case Ignored => (d, b)
    case Wrong(CommandTooLong) => SayGoodbye(d, b, ErrorReply(CommandTooLong))
    case Wrong(error) => (d, Say(b, ErrorReply(error)))
    case Parsed(command) =>
      if d.flying.Some? && !d.stopping && !command.Stop? then Wait(d, b, command) else Serve(d, b, command)
  }

  /** Lines are taken as long as the client is there. */
  function TakeLines(f: FloatText, d: Desk, b: Batch, lines: seq<string>): (Desk, Batch)
    decreases |lines|
  {
    if !d.open || lines == [] then (d, b)
    else
      var (next, said) := Take(d, b, ParseCommand(f, lines[0]));
      TakeLines(f, next, said, lines[1..])
  }

  /** What waits is served until a change is taken up. */
  function ServeWaiting(d: Desk, b: Batch): (Desk, Batch)
    decreases |d.waiting|
  {
    if !d.open || d.flying.Some? || d.waiting == [] then (d, b)
    else
      var (next, said) := Serve(d.(waiting := d.waiting[1..]), b, d.waiting[0]);
      ServeWaiting(next, said)
  }

  /** Bytes complete some lines; what is left of them must not be longer than a command. */
  function HearBytes(f: FloatText, d: Desk, text: string): (Front, Batch) {
    var (lines, rest) := Split(text);
    var (taken, said) := TakeLines(f, d, NO_ACTIONS, lines);
    if taken.open && |rest| > MAXIMUM_COMMAND_SIZE then
      (Front(Close(taken), ""), Take(taken, said, Wrong(CommandTooLong)).1)
    else (Front(taken, if taken.open then rest else ""), said)
  }

  /** The result of the change being carried out; any other result means that the Session is broken. */
  function HearResult(d: Desk, applied: bool, change: Change): (Desk, Batch) {
    if d.flying != Some(change) then
      if d.over || d.failed then (d, NO_ACTIONS)
      else (d.(failed := true, waiting := []), NO_ACTIONS.(fail := true))
    else
      var known := d.(flying := None, owed := false, shaped := d.shaped || applied,
                      profile := Outcome(d.profile, change, applied));
      var said := if d.owed then Say(NO_ACTIONS, if applied then ChangedReply else NotChangedReply) else NO_ACTIONS;
      if d.over || d.failed then (known, said) else ServeWaiting(known, said)
  }

  /** One event. */
  function Hear(f: FloatText, before: Front, event: Event): (Front, Batch) {
    var d := before.desk.(recent := false);
    match event
    case Attached => (Front(d.(open := true), ""), Say(NO_ACTIONS, AttachedReply))
    case BytesReceived(bytes) =>
      if !d.open || d.over || d.failed then (before.(desk := d), NO_ACTIONS) else HearBytes(f, d, before.unread + bytes)
    case Disconnected => (Front(Close(d), ""), NO_ACTIONS)
    case WriteFailed => (Front(Close(d.(flying := if before.desk.recent then None else d.flying)), ""), NO_ACTIONS)
    case ChangeResult(applied, change) =>
      var (next, said) := HearResult(d, applied, change);
      (Front(next, if said.disconnect then "" else before.unread), said)
    case ProfileStateUnknown =>
      if d.failed then (before.(desk := d), NO_ACTIONS)
      else (before.(desk := d.(failed := true, waiting := [], owed := false)), NO_ACTIONS.(fail := true))
    case SessionStopping => (before.(desk := d.(stopping := true, waiting := [], owed := false)), NO_ACTIONS)
    case WorkloadTerminal => (before.(desk := d.(over := true, waiting := [], owed := false)), NO_ACTIONS)
  }

  // ----- The control plane is such a desk -----

  function DeskOf(p: Plane): Desk {
    Desk(p.attached, if p.inFlight.Some? then Some(p.inFlight.value.change) else None,
         p.inFlight.Some? && p.inFlight.value.dispatchPending, p.inFlight.Some? && p.inFlight.value.replyGeneration.Some?,
         QueuedCommands(p.queue), p.confirmed, p.shaped, p.stopping, p.terminal, p.failed)
  }

  /** A plane and a batch under construction do what the desk does. */
  predicate Does(r: (Plane, seq<Action>), done: (Desk, Batch)) {
    DeskOf(r.0) == done.0 && r.1 == Actions(done.1) && Tracks(r.0, done.1)
  }

  lemma {:induction false} QueueLength(queue: seq<Queued>)
    ensures |QueuedCommands(queue)| == |queue|
  {
    if queue != [] {
      QueueLength(queue[1..]);
    }
  }

  lemma StopDoes(p: Plane, b: Batch)
    requires p.attached && Tracks(p, b)
    ensures Does(Process(p, Stop, Actions(b)), TakeStop(DeskOf(p), b))
  {
    var b' := StopShape(p, b);
  }

  lemma ServeDoes(p: Plane, b: Batch, command: Command)
    requires p.attached && Tracks(p, b) && (p.inFlight.None? || p.stopping)
    ensures Does(Process(p, command, Actions(b)), Serve(DeskOf(p), b, command))
  {
    match command
    case Stop => StopDoes(p, b);
    case Detach => DetachDoes(p, b);
    case Edit(change) => EditDoes(p, b, change);
    case _ => QuestionDoes(p, b, command);
  }

  /** A question is answered and changes nothing. */
  lemma QuestionDoes(p: Plane, b: Batch, command: Command)
    requires p.attached && Tracks(p, b) && (p.inFlight.None? || p.stopping) && (command.Help? || command.Status?)
    ensures Does(Process(p, command, Actions(b)), Serve(DeskOf(p), b, command))
  {
    hide Actions, QueuedCommands, InsertBeforeDispatch;
    SayLast(b, if command.Help? then HelpReply else StatusReply(p.confirmed, p.stopping, p.shaped));
  }

  lemma DetachDoes(p: Plane, b: Batch)
    requires p.attached && Tracks(p, b) && (p.inFlight.None? || p.stopping)
    ensures Does(Process(p, Detach, Actions(b)), Serve(DeskOf(p), b, Detach))
  {
    assert QueuedCommands([]) == [];
    hide Actions, QueuedCommands, InsertBeforeDispatch;
    SayLast(b, DetachedReply);
    DisconnectLast(Say(b, DetachedReply));
  }

  lemma EditDoes(p: Plane, b: Batch, change: Change)
    requires p.attached && Tracks(p, b) && (p.inFlight.None? || p.stopping)
    ensures Does(Process(p, Edit(change), Actions(b)), Serve(DeskOf(p), b, Edit(change)))
  {
    hide Actions, QueuedCommands, InsertBeforeDispatch;
    if p.stopping {
      SayLast(b, SessionStoppingReply);
    } else {
      DispatchLast(b, change);
    }
  }

  lemma WaitDoes(p: Plane, b: Batch, command: Command)
    requires p.attached && Tracks(p, b) && p.inFlight.Some? && !p.stopping && !command.Stop?
    ensures Does(Process(p, command, Actions(b)), Wait(DeskOf(p), b, command))
  {
    QueueLength(p.queue);
    QueuedOneMore(p.queue, Queued(command, p.generation));
    assert QueuedCommands([]) == [];
    hide Actions, QueuedCommands, InsertBeforeDispatch;
    if |p.queue| >= MAXIMUM_QUEUE {
      SayLast(b, TooManyReply);
      DisconnectLast(Say(b, TooManyReply));
    }
  }

  lemma LineDoes(f: FloatText, p: Plane, line: string, b: Batch)
    requires p.attached && Tracks(p, b)
    ensures Does(ReadLine(f, p, line, Actions(b)), Take(DeskOf(p), b, ParseCommand(f, line)))
  {
    match ParseCommand(f, line)
    case Ignored =>
    case Wrong(error) => RefuseDoes(p, error, b);
    case Parsed(command) =>
      if p.inFlight.Some? && !p.stopping && !command.Stop? {
        WaitDoes(p, b, command);
      } else if command.Stop? {
        StopDoes(p, b);
      } else {
        ServeDoes(p, b, command);
      }
  }

  lemma RefuseDoes(p: Plane, error: ParseError, b: Batch)
    requires p.attached && Tracks(p, b)
    ensures Does(Refuse(p, error, Actions(b)), Take(DeskOf(p), b, Wrong(error)))
  {
    SayLast(b, ErrorReply(error));
    if error.CommandTooLong? {
      DisconnectLast(Say(b, ErrorReply(error)));
    }
  }

  /** A line leaves what is unread, unless it ends the connection. */
  lemma LineBuffer(f: FloatText, p: Plane, line: string, actions: seq<Action>)
    requires p.attached
    ensures var read := ReadLine(f, p, line, actions).0;
            read.buffer == if read.attached then p.buffer else ""
  {
    hide ParseCommand;
  }

  /** The desk does not look at the buffer. */
  lemma BufferAside(p: Plane, b: Batch, buffer: string)
    ensures DeskOf(p.(buffer := buffer)) == DeskOf(p) && (Tracks(p, b) ==> Tracks(p.(buffer := buffer), b))
  {
  }

  /** What reading lines comes to. */
  predicate LinesDone(p: Plane, r: (Plane, seq<Action>), done: (Desk, Batch), rest: string) {
    Does(r, done) && (if p.attached then r.0.buffer == (if r.0.attached then rest else "") else r.0 == p)
  }

  lemma ReadFirst(f: FloatText, p: Plane, actions: seq<Action>)
    ensures match TakeNextLine(p.buffer)
            case Some((line, rest)) =>
              p.attached ==>
                var (read, done) := ReadLine(f, p.(buffer := rest), line, actions);
                ReadCommands(f, p, actions) == ReadCommands(f, read, done)
            case None => ReadCommands(f, p, actions) == (p, actions)
    ensures !p.attached ==> ReadCommands(f, p, actions) == (p, actions)
  {
    hide ParseCommand, ReadLine;
  }

  lemma TakeFirst(f: FloatText, d: Desk, b: Batch, line: string, lines: seq<string>)
    ensures TakeLines(f, d, b, []) == (d, b)
    ensures TakeLines(f, d, b, [line] + lines)
            == if d.open then
                 var (next, said) := Take(d, b, ParseCommand(f, line));
                 TakeLines(f, next, said, lines)
               else (d, b)
  {
    hide ParseCommand, Take;
    assert ([line] + lines)[1..] == lines;
  }

  /** Reading line after line out of the buffer is taking the lines of the buffer. */
  lemma {:induction false} LinesDo(f: FloatText, p: Plane, b: Batch)
    requires Tracks(p, b)
    ensures var (lines, rest) := Split(p.buffer);
            LinesDone(p, ReadCommands(f, p, Actions(b)), TakeLines(f, DeskOf(p), b, lines), rest)
    decreases |p.buffer|
  {
    hide ParseCommand, ReadLine, Take, Actions, Tracks, ReadCommands, Split, TakeLines, QueuedCommands;
    ReadFirst(f, p, Actions(b));
    SplitFirst(p.buffer);
    var (lines, partial) := Split(p.buffer);
    if p.attached && TakeNextLine(p.buffer).Some? {
      var (line, rest) := TakeNextLine(p.buffer).value;
      var next := p.(buffer := rest);
      assert lines == [line] + Split(rest).0;
      BufferAside(p, b, rest);
      LineDoes(f, next, line, b);
      LineBuffer(f, next, line, Actions(b));
      var (read, done) := ReadLine(f, next, line, Actions(b));
      var (d, said) := Take(DeskOf(next), b, ParseCommand(f, line));
      LinesDo(f, read, said);
      TakeFirst(f, DeskOf(next), b, line, Split(rest).0);
      ClosedTakesNothing(f, d, said, Split(rest).0);
      ReadFirst(f, read, done);
      hide DeskOf;
    } else {
      ClosedTakesNothing(f, DeskOf(p), b, lines);
      TakeFirst(f, DeskOf(p), b, "", []);
    }
  }

  lemma ClosedTakesNothing(f: FloatText, d: Desk, b: Batch, lines: seq<string>)
    ensures !d.open ==> TakeLines(f, d, b, lines) == (d, b)
  {
  }

  lemma {:induction false} WaitingDo(f: FloatText, p: Plane, b: Batch)
    requires Tracks(p, b) && Draining(f, p)
    ensures Does(DrainQueue(p, Actions(b)), ServeWaiting(DeskOf(p), b))
    decreases |p.queue|
  {
    if p.attached && p.inFlight.None? && p.queue != [] {
      hide Actions, Process, Serve, SendableCommand;
      var next := p.(queue := p.queue[1..]);
      ServeDoes(next, b, p.queue[0].command);
      ProcessKeeps(f, next, p.queue[0].command, Actions(b));
      QueueShrinks(next, p.queue[0].command, Actions(b));
      WaitingDo(f, Process(next, p.queue[0].command, Actions(b)).0, Serve(DeskOf(next), b, p.queue[0].command).1);
    }
  }

  lemma QueueShrinks(p: Plane, command: Command, actions: seq<Action>)
    requires p.inFlight.None?
    ensures |Process(p, command, actions).0.queue| <= |p.queue|
  {
  }

  lemma {:induction false} DrainBuffer(p: Plane, actions: seq<Action>)
    requires p.attached
    ensures var read := DrainQueue(p, actions).0;
            read.buffer == if read.attached then p.buffer else ""
    decreases |p.queue|
  {
    if p.inFlight.None? && p.queue != [] {
      var next := p.(queue := p.queue[1..]);
      if p.queue[0].generation != p.generation {
        DrainBuffer(next, actions);
      } else {
        QueueShrinks(next, p.queue[0].command, actions);
        ProcessBuffer(next, p.queue[0].command, actions);
        var (processed, done) := Process(next, p.queue[0].command, actions);
        if processed.attached {
          DrainBuffer(processed, done);
        }
      }
    }
  }

  lemma ProcessBuffer(p: Plane, command: Command, actions: seq<Action>)
    requires p.attached
    ensures var read := Process(p, command, actions).0;
            read.buffer == if read.attached then p.buffer else ""
  {
  }

  // ----- Every event -----

  function FrontOf(p: Plane): Front {
    Front(DeskOf(p), p.buffer)
  }

  /** A control plane event does what the desk does. */
  predicate Heard(r: (Plane, seq<Action>), done: (Front, Batch)) {
    FrontOf(r.0) == done.0 && r.1 == Actions(done.1)
  }

  lemma BytesHeard(f: FloatText, p: Plane, bytes: string)
    requires PendingDispatch(p) == None && p.attached && !p.terminal && !p.failed
    ensures Heard(HandleBytes(f, p, bytes), HearBytes(f, DeskOf(p), p.buffer + bytes))
  {
    hide ReadCommands, TakeLines, Split, Actions, Take, Refuse, QueuedCommands;
    var start := p.(buffer := p.buffer + bytes);
    BufferAside(p, NO_ACTIONS, p.buffer + bytes);
    NothingSaid();
    LinesDo(f, start, NO_ACTIONS);
    var (read, actions) := ReadCommands(f, start, []);
    var (taken, said) := TakeLines(f, DeskOf(start), NO_ACTIONS, Split(start.buffer).0);
    if read.attached && |read.buffer| > MAXIMUM_COMMAND_SIZE {
      RefuseDoes(read, CommandTooLong, said);
      TooLongCloses(read, actions, taken, said);
    }
  }

  lemma NothingSaid()
    ensures Actions(NO_ACTIONS) == []
  {
  }

  lemma TooLongCloses(p: Plane, actions: seq<Action>, d: Desk, b: Batch)
    ensures Refuse(p, CommandTooLong, actions).0.buffer == "" && Take(d, b, Wrong(CommandTooLong)).0 == Close(d)
  {
  }

  /** The plane after a result that is the one in flight, before the queue is looked at. */
  function Known(p: Plane, applied: bool, change: Change): Plane {
    p.(inFlight := None, confirmed := Outcome(p.confirmed, change, applied), shaped := p.shaped || applied)
  }

  lemma ResultKnown(f: FloatText, p: Plane, applied: bool, change: Change)
    requires Good(f, p) && p.inFlight.Some? && p.inFlight.value.change == change
    ensures var known, reply := Known(p, applied, change), Actions(NO_ACTIONS.(replies := ResultReply(p, applied)));
            && HandleResult(p, applied, change)
               == (if p.terminal || p.failed then (known, reply) else DrainQueue(known, reply))
            && (!p.terminal && !p.failed ==> Draining(f, known))
  {
    ConfirmKeeps(f, p.(inFlight := None), applied, change);
    OneReply(ResultReply(p, applied));
    assert Confirm(p.(inFlight := None), applied, change) == Some(Known(p, applied, change));
    hide DrainQueue, Actions;
  }

  lemma ResultHeard(f: FloatText, p: Plane, applied: bool, change: Change)
    requires Good(f, p) && PendingDispatch(p) == None
    ensures var (next, said) := HearResult(DeskOf(p), applied, change);
            Heard(HandleResult(p, applied, change), (Front(next, if said.disconnect then "" else p.buffer), said))
  {
    if p.inFlight.None? || p.inFlight.value.change != change {
      StrayResult(p, applied, change);
    } else {
      OwnResult(f, p, applied, change);
    }
  }

  lemma StrayResult(p: Plane, applied: bool, change: Change)
    requires PendingDispatch(p) == None && DeskOf(p).flying != Some(change)
    ensures var (next, said) := HearResult(DeskOf(p), applied, change);
            Heard(HandleResult(p, applied, change), (Front(next, if said.disconnect then "" else p.buffer), said))
  {
    NothingSaid();
    assert Actions(NO_ACTIONS.(fail := true)) == [FailSession] && QueuedCommands([]) == [];
    hide Actions, QueuedCommands, Confirm, DrainQueue, ServeWaiting, Outcome;
  }

  lemma OwnResult(f: FloatText, p: Plane, applied: bool, change: Change)
    requires Good(f, p) && PendingDispatch(p) == None && p.inFlight.Some? && p.inFlight.value.change == change
    ensures var (next, said) := HearResult(DeskOf(p), applied, change);
            Heard(HandleResult(p, applied, change), (Front(next, if said.disconnect then "" else p.buffer), said))
  {
    hide Good, Actions, Outcome, QueuedCommands, DrainQueue, ServeWaiting, HandleResult, Draining, HearResult;
    var b := NO_ACTIONS.(replies := ResultReply(p, applied));
    ResultKnown(f, p, applied, change);
    DeskKnows(f, p, applied, change);
    if !p.terminal && !p.failed {
      QueueServed(f, Known(p, applied, change), b);
    }
    hide ResultReply;
  }

  lemma DeskKnows(f: FloatText, p: Plane, applied: bool, change: Change)
    requires Good(f, p) && PendingDispatch(p) == None && p.inFlight.Some? && p.inFlight.value.change == change
    ensures var d, b := DeskOf(Known(p, applied, change)), NO_ACTIONS.(replies := ResultReply(p, applied));
            HearResult(DeskOf(p), applied, change) == if p.terminal || p.failed then (d, b) else ServeWaiting(d, b)
  {
    OwedResult(f, p, applied);
    hide Good, Actions, Outcome, QueuedCommands, ServeWaiting, ResultReply;
    assert forall reply: Reply :: [] + [reply] == [reply];
  }

  /** Who is owed the result, and what it says. */
  lemma OwedResult(f: FloatText, p: Plane, applied: bool)
    requires Good(f, p) && p.inFlight.Some?
    ensures ResultReply(p, applied)
            == if DeskOf(p).owed then [if applied then ChangedReply else NotChangedReply] else []
    ensures Actions(NO_ACTIONS.(replies := ResultReply(p, applied)))
            == if DeskOf(p).owed then [Send(if applied then ChangedReply else NotChangedReply)] else []
  {
    OneReply(ResultReply(p, applied));
  }

  lemma QueueServed(f: FloatText, p: Plane, b: Batch)
    requires Draining(f, p) && p.inFlight.None? && !b.stop && !b.disconnect && !b.fail && b.dispatch.None?
    ensures var (next, said) := ServeWaiting(DeskOf(p), b);
            Heard(DrainQueue(p, Actions(b)), (Front(next, if said.disconnect then "" else p.buffer), said))
  {
    if p.attached {
      WaitingDo(f, p, b);
      DrainBuffer(p, Actions(b));
    }
  }

  lemma ArrivalHeard(f: FloatText, p: Plane)
    requires Good(f, p) && !p.attached
    ensures Heard(Handle(f, p, Attached), Hear(f, FrontOf(p), Attached))
  {
    OneReply([AttachedReply]);
    assert [] + [AttachedReply] == [AttachedReply];
    hide Actions, QueuedCommands, HandleBytes, HandleResult, HearBytes, HearResult;
  }

  lemma DepartureHeard(f: FloatText, p: Plane, event: Event)
    requires event.Disconnected? || event.WriteFailed?
    ensures Heard(Handle(f, p, event), Hear(f, FrontOf(p), event))
  {
    NothingSaid();
    assert QueuedCommands([]) == [];
    hide Actions, QueuedCommands, HandleBytes, HandleResult, HearBytes, HearResult;
  }

  lemma SessionHeard(f: FloatText, p: Plane, event: Event)
    requires event.ProfileStateUnknown? || event.SessionStopping? || event.WorkloadTerminal?
    ensures Heard(Handle(f, p, event), Hear(f, FrontOf(p), event))
  {
    NothingSaid();
    assert Actions(NO_ACTIONS.(fail := true)) == [FailSession] && QueuedCommands([]) == [];
    hide Actions, QueuedCommands, HandleBytes, HandleResult, HearBytes, HearResult;
  }

  /** Every event, whatever the lines received say and however they were cut: the control plane does exactly what the
      desk does, with the same replies, the same stop, the same change handed on and the same end of the connection. */
  lemma EveryEventIsHeard(f: FloatText, p: Plane, event: Event)
    requires Good(f, p) && (event.Attached? ==> !p.attached)
    ensures Heard(Handle(f, p, event), Hear(f, FrontOf(p), event))
  {
    var start := p.(inFlight := NotPending(p.inFlight));
    assert DeskOf(start) == DeskOf(p).(recent := false);
    match event
    case BytesReceived(bytes) =>
      if p.attached && !p.terminal && !p.failed {
        BytesHeard(f, start, bytes);
      } else {
        NothingSaid();
      }
    case ChangeResult(applied, change) => ResultHeard(f, start, applied, change);
    case Attached => ArrivalHeard(f, p);
    case Disconnected => DepartureHeard(f, p, event);
    case WriteFailed => DepartureHeard(f, p, event);
    case _ => SessionHeard(f, p, event);
    hide HandleBytes, HandleResult, HearBytes, HearResult, Actions, QueuedCommands;
  }

  /** What a desk does over some events. */
  function Spoken(f: FloatText, front: Front, events: seq<Event>): seq<Action>
    decreases |events|
  {
    if events == [] then []
    else
      var (next, said) := Hear(f, front, events[0]);
      Actions(said) + Spoken(f, next, events[1..])
  }

  /** Over every run from the start the control plane emits exactly what the desk does. */
  lemma EveryRunIsHeard(f: FloatText, events: seq<Event>)
    requires RoundsInRange(f) && Orderly(f, PLANE_START, events)
    ensures Emitted(f, PLANE_START, events) == Spoken(f, Front(DESK_START, ""), events)
  {
    assert FrontOf(PLANE_START) == Front(DESK_START, "");
    RunIsHeard(f, PLANE_START, events);
  }

  lemma {:induction false} RunIsHeard(f: FloatText, p: Plane, events: seq<Event>)
    requires Good(f, p) && RoundsInRange(f) && Orderly(f, p, events)
    ensures Emitted(f, p, events) == Spoken(f, FrontOf(p), events)
    decreases |events|
  {
    if events != [] {
      hide Good, Handle, Hear, Actions, FrontOf;
      HandleKeepsGood(f, p, events[0]);
      EveryEventIsHeard(f, p, events[0]);
      RunIsHeard(f, Handle(f, p, events[0]).0, events[1..]);
    }
  }
}
