/** What every batch of control plane actions looks like, and what every event keeps. */
module ControlPlaneBatches {
  import opened Wrappers
  import opened Lines
  import opened NetworkProfile
  import opened ProfileWire
  import opened ControllerCommands
  import opened ControlPlane

  // ----- What holds between events -----

  predicate SendableCommand(f: FloatText, command: Command) {
    command.Edit? ==> Sendable(f, command.change)
  }

  /** A queue within its limit that is empty unless a change is in flight on this connection; queued commands and
      the reply right of the change in flight belong to the present connection; everything to be sent is legal. */
  predicate Good(f: FloatText, p: Plane) {
    && ValidProfile(p.confirmed)
    && |p.queue| <= MAXIMUM_QUEUE
    && (p.queue != [] ==> p.attached && p.inFlight.Some? && !p.stopping && !p.terminal && !p.failed)
    && (forall i :: 0 <= i < |p.queue| ==>
          && p.queue[i].generation == p.generation
          && !p.queue[i].command.Stop?
          && SendableCommand(f, p.queue[i].command))
    && (p.inFlight.Some? ==>
          && Sendable(f, p.inFlight.value.change)
          && (p.inFlight.value.replyGeneration.Some? ==>
                && p.attached && !p.stopping && !p.terminal
                && p.inFlight.value.replyGeneration.value == p.generation))
  }

  /** Between the commands of one event the queue may be nonempty while nothing is in flight. */
  predicate Draining(f: FloatText, p: Plane) {
    && (p.queue != [] ==> p.attached && !p.stopping && !p.terminal && !p.failed)
    && Good(f, p.(queue := []))
    && |p.queue| <= MAXIMUM_QUEUE
    && (forall i :: 0 <= i < |p.queue| ==>
          && p.queue[i].generation == p.generation
          && !p.queue[i].command.Stop?
          && SendableCommand(f, p.queue[i].command))
  }

  lemma ProcessKeeps(f: FloatText, p: Plane, command: Command, actions: seq<Action>)
    requires Draining(f, p) && p.attached && !p.terminal && !p.failed && SendableCommand(f, command)
    ensures var r := Process(p, command, actions).0;
            && Draining(f, r) && (Good(f, p) ==> Good(f, r)) && !r.terminal && !r.failed
            && (p.stopping ==> r.stopping) && (r.stopping && !p.stopping ==> command.Stop?)
            && r.confirmed == p.confirmed && r.generation == p.generation
  {
  }

  lemma {:induction false} DrainKeeps(f: FloatText, p: Plane, actions: seq<Action>)
    requires Draining(f, p) && !p.terminal && !p.failed
    ensures var r := DrainQueue(p, actions).0;
            Good(f, r) && r.confirmed == p.confirmed && r.stopping == p.stopping && !r.terminal && !r.failed
    decreases |p.queue|
  {
    if p.attached && p.inFlight.None? && p.queue != [] {
      var next := p.(queue := p.queue[1..]);
      ProcessKeeps(f, next, p.queue[0].command, actions);
      var (processed, done) := Process(next, p.queue[0].command, actions);
      DrainKeeps(f, processed, done);
    }
  }

  lemma LineKeeps(f: FloatText, p: Plane, line: string, actions: seq<Action>)
    requires Good(f, p) && p.attached && !p.terminal && !p.failed && RoundsInRange(f)
    ensures var r := ReadLine(f, p, line, actions).0;
            Good(f, r) && r.confirmed == p.confirmed && !r.terminal && !r.failed && (p.stopping ==> r.stopping)
  {
    ParsedChangesAreSendable(f, line);
    if ParseCommand(f, line).Parsed? {
      ProcessKeeps(f, p, ParseCommand(f, line).command, actions);
    }
  }

  lemma {:induction false} ReadKeeps(f: FloatText, p: Plane, actions: seq<Action>)
    requires Good(f, p) && !p.terminal && !p.failed && RoundsInRange(f)
    ensures var r := ReadCommands(f, p, actions).0;
            Good(f, r) && r.confirmed == p.confirmed && !r.terminal && !r.failed && (p.stopping ==> r.stopping)
    decreases |p.buffer|
  {
    if p.attached && TakeNextLine(p.buffer).Some? {
      var (line, rest) := TakeNextLine(p.buffer).value;
      LineKeeps(f, p.(buffer := rest), line, actions);
      var (read, done) := ReadLine(f, p.(buffer := rest), line, actions);
      ReadKeeps(f, read, done);
    }
  }

  lemma ConfirmKeeps(f: FloatText, p: Plane, applied: bool, change: Change)
    requires ValidProfile(p.confirmed) && Sendable(f, change)
    ensures Confirm(p, applied, change).Some?
    ensures ValidProfile(Confirm(p, applied, change).value.confirmed)
  {
    AcceptedIffValid(p.confirmed, change);
  }

  lemma BytesKeepGood(f: FloatText, p: Plane, bytes: string)
    requires Good(f, p) && RoundsInRange(f)
    ensures var r := HandleBytes(f, p, bytes).0;
            && Good(f, r) && r.confirmed == p.confirmed
            && (p.stopping ==> r.stopping) && r.terminal == p.terminal && r.failed == p.failed
  {
    if p.attached && !p.terminal && !p.failed {
      ReadKeeps(f, p.(buffer := p.buffer + bytes), []);
    }
  }

  lemma ResultKeepsGood(f: FloatText, p: Plane, applied: bool, change: Change)
    requires Good(f, p)
    ensures var r := HandleResult(p, applied, change).0;
            && Good(f, r) && r.stopping == p.stopping && r.terminal == p.terminal && (p.failed ==> r.failed)
  {
    if p.inFlight.Some? && p.inFlight.value.change == change {
      var idle := p.(inFlight := None);
      ConfirmKeeps(f, idle, applied, change);
      if !p.terminal && !p.failed {
        DrainKeeps(f, Confirm(idle, applied, change).value, HandleResult(p.(queue := []), applied, change).1);
      }
    }
  }

  lemma OthersKeepGood(f: FloatText, p: Plane, event: Event)
    requires Good(f, p) && (event.Attached? ==> !p.attached) && !event.BytesReceived? && !event.ChangeResult?
    ensures Good(f, Handle(f, p, event).0)
  {
  }

  /** Every event keeps the invariant, and the three terminal flags only rise. A Controller attaches only when none is
      attached. */
  lemma HandleKeepsGood(f: FloatText, p: Plane, event: Event)
    requires Good(f, p) && RoundsInRange(f) && (event.Attached? ==> !p.attached)
    ensures var r := Handle(f, p, event).0;
            && Good(f, r)
            && (p.stopping ==> r.stopping) && (p.terminal ==> r.terminal) && (p.failed ==> r.failed)
            && (!event.ChangeResult? ==> r.confirmed == p.confirmed)
  {
    var start := p.(inFlight := NotPending(p.inFlight));
    if event.BytesReceived? {
      BytesKeepGood(f, start, event.bytes);
    } else if event.ChangeResult? {
      ResultKeepsGood(f, start, event.applied, event.change);
    } else {
      OthersKeepGood(f, p, event);
    }
  }

  // ----- The shape of a batch -----

  /** A batch as a value: an optional lifecycle stop first, then the replies, an optional disconnect, and an optional
      dispatch last; or the failure of the Session. */
  datatype Batch = Batch(stop: bool, replies: seq<Reply>, disconnect: bool, fail: bool, dispatch: Option<Change>)

  const NO_ACTIONS := Batch(false, [], false, false, None)

  function Sends(replies: seq<Reply>): seq<Action> {
    if replies == [] then [] else Sends(replies[..|replies| - 1]) + [Send(replies[|replies| - 1])]
  }

  function BeforeDispatch(b: Batch): seq<Action> {
    (if b.stop then [RequestStop] else []) + Sends(b.replies)
    + (if b.disconnect then [Disconnect] else []) + (if b.fail then [FailSession] else [])
  }

  function Actions(b: Batch): seq<Action> {
    BeforeDispatch(b) + (if b.dispatch.Some? then [Dispatch(b.dispatch.value)] else [])
  }

  predicate NoDispatch(actions: seq<Action>) {
    forall i :: 0 <= i < |actions| ==> !actions[i].Dispatch?
  }

  lemma {:induction false} SendsDispatchNothing(replies: seq<Reply>)
    ensures NoDispatch(Sends(replies))
  {
    if replies != [] {
      SendsDispatchNothing(replies[..|replies| - 1]);
    }
  }

  lemma BeforeDispatchHasNone(b: Batch)
    ensures NoDispatch(BeforeDispatch(b))
  {
    SendsDispatchNothing(b.replies);
  }

  lemma {:induction false} InsertAtEnd(front: seq<Action>, back: seq<Action>, a: Action)
    requires NoDispatch(front) && (back == [] || back[0].Dispatch?)
    ensures InsertBeforeDispatch(front + back, a) == front + [a] + back
  {
    if front == [] {
      assert front + back == back;
    } else {
      InsertAtEnd(front[1..], back, a);
      assert (front + back)[1..] == front[1..] + back;
      assert front == [front[0]] + front[1..];
    }
  }

  lemma {:induction false} RemoveAtEnd(front: seq<Action>, change: Change)
    requires NoDispatch(front)
    ensures WithoutDispatch(front) == front
    ensures WithoutDispatch(front + [Dispatch(change)]) == front
  {
    if front == [] {
      assert front + [Dispatch(change)] == [Dispatch(change)];
      assert WithoutDispatch([Dispatch(change)][1..]) == [];
    } else {
      RemoveAtEnd(front[1..], change);
      assert (front + [Dispatch(change)])[1..] == front[1..] + [Dispatch(change)];
      assert front == [front[0]] + front[1..];
    }
  }

  function Last(b: Batch): seq<Action> {
    if b.dispatch.Some? then [Dispatch(b.dispatch.value)] else []
  }

  lemma OpenBatch(b: Batch)
    requires !b.disconnect && !b.fail
    ensures BeforeDispatch(b) == (if b.stop then [RequestStop] else []) + Sends(b.replies)
    ensures BeforeDispatch(b.(disconnect := true)) == BeforeDispatch(b) + [Disconnect]
  {
  }

  lemma SayLast(b: Batch, reply: Reply)
    requires !b.disconnect && !b.fail
    ensures InsertBeforeDispatch(Actions(b), Send(reply)) == Actions(b.(replies := b.replies + [reply]))
  {
    BeforeDispatchHasNone(b);
    InsertAtEnd(BeforeDispatch(b), Last(b), Send(reply));
    OpenBatch(b);
    OpenBatch(b.(replies := b.replies + [reply]));
    assert (b.replies + [reply])[..|b.replies|] == b.replies;
    assert Sends(b.replies + [reply]) == Sends(b.replies) + [Send(reply)];
  }

  lemma DisconnectLast(b: Batch)
    requires !b.disconnect && !b.fail
    ensures InsertBeforeDispatch(Actions(b), Disconnect) == Actions(b.(disconnect := true))
  {
    BeforeDispatchHasNone(b);
    InsertAtEnd(BeforeDispatch(b), Last(b), Disconnect);
    OpenBatch(b);
  }

  lemma DispatchLast(b: Batch, change: Change)
    requires b.dispatch.None?
    ensures Actions(b) + [Dispatch(change)] == Actions(b.(dispatch := Some(change)))
  {
  }

  lemma StopFirst(b: Batch)
    requires !b.stop
    ensures [RequestStop] + Actions(b) == Actions(b.(stop := true))
  {
  }

  lemma Undispatched(b: Batch)
    ensures WithoutDispatch(Actions(b)) == Actions(b.(dispatch := None))
  {
    BeforeDispatchHasNone(b);
    if b.dispatch.Some? {
      RemoveAtEnd(BeforeDispatch(b), b.dispatch.value);
    } else {
      RemoveAtEnd(BeforeDispatch(b), SetDelay(Outbound, 0));
      assert Actions(b) == BeforeDispatch(b);
    }
    assert Actions(b.(dispatch := None)) == BeforeDispatch(b);
  }

  /** The change whose dispatch has not been carried out yet. */
  function PendingDispatch(p: Plane): Option<Change> {
    if p.inFlight.Some? && p.inFlight.value.dispatchPending then Some(p.inFlight.value.change) else None
  }

  /** A batch under construction agrees with the state: its dispatch is the pending one and never accompanies a stop,
      and it says nothing after it disconnected. */
  predicate Tracks(p: Plane, b: Batch) {
    && !b.fail
    && b.dispatch == PendingDispatch(p)
    && b.disconnect == !p.attached
    && (b.stop ==> p.stopping)
    && (p.stopping ==> b.dispatch.None?)
  }

  lemma StopShape(p: Plane, b: Batch) returns (b': Batch)
    requires p.attached && Tracks(p, b)
    ensures EnterStopping(p, Actions(b)).1 == Actions(b')
    ensures Tracks(EnterStopping(p, Actions(b)).0, b')
    ensures b' == Batch(b.stop || !p.stopping, b.replies + [StoppingReply], false, false, None)
  {
    var requested := if p.stopping then b else b.(stop := true);
    if !p.stopping {
      StopFirst(b);
    }
    Undispatched(requested);
    var undispatched := requested.(dispatch := None);
    SayLast(undispatched, StoppingReply);
    b' := undispatched.(replies := b.replies + [StoppingReply]);
  }

  /** What one command adds to a batch. */
  function Answer(p: Plane, command: Command): Option<Reply>
    requires !command.Stop?
  {
    if command.Edit? && p.stopping then Some(SessionStoppingReply)
    else if p.inFlight.Some? && !p.stopping then
      if |p.queue| >= MAXIMUM_QUEUE then Some(TooManyReply) else None
    else match command
      case Help => Some(HelpReply)
      case Status => Some(StatusReply(p.confirmed, p.stopping, p.shaped))
      case Edit(_) => None
      case Detach => Some(DetachedReply)
  }

  /** Whether a command that is not a stop ends the connection. */
  predicate Ends(p: Plane, command: Command)
    requires !command.Stop?
  {
    Answer(p, command) == Some(TooManyReply) || Answer(p, command) == Some(DetachedReply)
  }

  /** Whether a command starts a change at once. */
  predicate Starts(p: Plane, command: Command) {
    command.Edit? && !p.stopping && p.inFlight.None?
  }

  function Said(actions: seq<Action>, answer: Option<Reply>, ends: bool): seq<Action> {
    var said := if answer.Some? then InsertBeforeDispatch(actions, Send(answer.value)) else actions;
    if ends then InsertBeforeDispatch(said, Disconnect) else said
  }

  /** `process_command` apart from the stop: an answer, perhaps an end, perhaps a dispatch. */
  lemma ProcessSays(p: Plane, command: Command, actions: seq<Action>)
    requires !command.Stop?
    ensures Process(p, command, actions).1
            == Said(actions, Answer(p, command), Ends(p, command))
               + if Starts(p, command) then [Dispatch(command.change)] else []
    ensures Process(p, command, actions).0.attached == (p.attached && !Ends(p, command))
    ensures PendingDispatch(Process(p, command, actions).0)
            == if Starts(p, command) then Some(command.change) else PendingDispatch(p)
    ensures p.stopping ==> Process(p, command, actions).0.stopping
    ensures Starts(p, command) ==> Answer(p, command).None? && PendingDispatch(p).None?
  {
    var said := Said(actions, Answer(p, command), Ends(p, command));
    assert said + [] == said;
  }

  lemma ProcessShape(p: Plane, command: Command, b: Batch) returns (b': Batch)
    requires p.attached && Tracks(p, b)
    ensures Process(p, command, Actions(b)).1 == Actions(b')
    ensures Tracks(Process(p, command, Actions(b)).0, b')
    ensures b'.stop == (b.stop || (command.Stop? && !p.stopping))
    ensures b'.replies == b.replies + if command.Stop? then [StoppingReply]
                                      else if Answer(p, command).Some? then [Answer(p, command).value] else []
  {
    if command.Stop? {
      b' := StopShape(p, b);
      return;
    }
    ProcessSays(p, command, Actions(b));
    b' := SaidShape(b, Answer(p, command), Ends(p, command));
    if Starts(p, command) {
      DispatchLast(b', command.change);
      b' := b'.(dispatch := Some(command.change));
    } else {
      assert Actions(b') + [] == Actions(b');
    }
  }

  lemma SaidShape(b: Batch, answer: Option<Reply>, ends: bool) returns (b': Batch)
    requires !b.disconnect && !b.fail
    ensures Said(Actions(b), answer, ends) == Actions(b')
    ensures b' == b.(replies := b.replies + (if answer.Some? then [answer.value] else []), disconnect := ends)
  {
    b' := b;
    if answer.Some? {
      SayLast(b, answer.value);
      b' := b.(replies := b.replies + [answer.value]);
    }
    if ends {
      DisconnectLast(b');
      b' := b'.(disconnect := true);
    }
    assert b.replies + [] == b.replies;
  }

  lemma RefuseShape(p: Plane, error: ParseError, b: Batch) returns (b': Batch)
    requires p.attached && Tracks(p, b)
    ensures Refuse(p, error, Actions(b)).1 == Actions(b') && Tracks(Refuse(p, error, Actions(b)).0, b')
    ensures b'.stop == b.stop && b'.replies == b.replies + [ErrorReply(error)]
  {
    SayLast(b, ErrorReply(error));
    b' := b.(replies := b.replies + [ErrorReply(error)]);
    if error.CommandTooLong? {
      DisconnectLast(b');
      b' := b'.(disconnect := true);
    }
  }

  lemma {:induction false} DrainShape(p: Plane, b: Batch) returns (b': Batch)
    requires Tracks(p, b)
    ensures DrainQueue(p, Actions(b)).1 == Actions(b')
    ensures Tracks(DrainQueue(p, Actions(b)).0, b')
    ensures b'.stop ==> b.stop || !p.stopping
    decreases |p.queue|
  {
    b' := b;
    if p.attached && p.inFlight.None? && p.queue != [] {
      var next := p.(queue := p.queue[1..]);
      if p.queue[0].generation != p.generation {
        b' := DrainShape(next, b);
      } else {
        var b1 := ProcessShape(next, p.queue[0].command, b);
        b' := DrainShape(Process(next, p.queue[0].command, Actions(b)).0, b1);
      }
    }
  }

  lemma LineShape(f: FloatText, p: Plane, line: string, b: Batch) returns (b': Batch)
    requires p.attached && Tracks(p, b)
    ensures ReadLine(f, p, line, Actions(b)).1 == Actions(b') && Tracks(ReadLine(f, p, line, Actions(b)).0, b')
    ensures b'.stop ==> b.stop || !p.stopping
    ensures p.stopping ==> ReadLine(f, p, line, Actions(b)).0.stopping
  {
    match ParseCommand(f, line)
    case Ignored => b' := b;
    case Wrong(error) => b' := RefuseShape(p, error, b);
    case Parsed(command) => b' := ProcessShape(p, command, b);
  }

  lemma {:induction false} ReadShape(f: FloatText, p: Plane, b: Batch) returns (b': Batch)
    requires Tracks(p, b)
    ensures ReadCommands(f, p, Actions(b)).1 == Actions(b') && Tracks(ReadCommands(f, p, Actions(b)).0, b')
    ensures b'.stop ==> b.stop || !p.stopping
    decreases |p.buffer|
  {
    b' := b;
    if p.attached && TakeNextLine(p.buffer).Some? {
      var (line, rest) := TakeNextLine(p.buffer).value;
      var next := p.(buffer := rest);
      var b1 := LineShape(f, next, line, b);
      var (read, done) := ReadLine(f, next, line, Actions(b));
      b' := ReadShape(f, read, b1);
    }
  }

  /** Every batch has the shape above: at most one dispatch and it is last, a lifecycle stop is first, nothing is said
      after a disconnect, a Session failure stands alone. A dispatch is exactly the change now pending execution; a
      stop or a failure is emitted only by the event that enters that state. */
  lemma BatchShape(f: FloatText, p: Plane, event: Event) returns (b: Batch)
    requires Good(f, p)
    ensures Handle(f, p, event).1 == Actions(b)
    ensures !event.WriteFailed? ==> b.dispatch == PendingDispatch(Handle(f, p, event).0)
    ensures b.fail ==> b == NO_ACTIONS.(fail := true)
    ensures b.stop ==> !p.stopping && Handle(f, p, event).0.stopping
    ensures b.dispatch.Some? ==> !Handle(f, p, event).0.stopping
    ensures b.fail ==> !p.failed && Handle(f, p, event).0.failed
    ensures !event.Disconnected? && !event.WriteFailed? ==>
              Handle(f, p, event).0.attached == ((p.attached || event.Attached?) && !b.disconnect)
    ensures b.replies != [] ==> p.attached || event.Attached?
  {
    var start := p.(inFlight := NotPending(p.inFlight));
    b := NO_ACTIONS;
    assert Actions(NO_ACTIONS) == [];
    assert Actions(NO_ACTIONS.(fail := true)) == [FailSession];
    match event
    case Attached =>
      b := NO_ACTIONS.(replies := [AttachedReply]);
      assert Sends([AttachedReply]) == [Send(AttachedReply)];
    case ProfileStateUnknown =>
      if !p.failed {
        b := NO_ACTIONS.(fail := true);
      }
    case BytesReceived(bytes) =>
      b := BytesShape(f, start, bytes);
    case ChangeResult(applied, change) =>
      b := ResultShape(f, start, applied, change);
    case _ =>
  }

  lemma BytesShape(f: FloatText, p: Plane, bytes: string) returns (b: Batch)
    requires PendingDispatch(p) == None
    ensures HandleBytes(f, p, bytes).1 == Actions(b) && b.dispatch == PendingDispatch(HandleBytes(f, p, bytes).0)
    ensures !b.fail
    ensures b.stop ==> !p.stopping && HandleBytes(f, p, bytes).0.stopping
    ensures b.dispatch.Some? ==> !HandleBytes(f, p, bytes).0.stopping
    ensures HandleBytes(f, p, bytes).0.attached == (p.attached && !b.disconnect)
    ensures b.replies != [] ==> p.attached
  {
    b := NO_ACTIONS;
    assert Actions(NO_ACTIONS) == [];
    if p.attached && !p.terminal && !p.failed {
      var start := p.(buffer := p.buffer + bytes);
      b := ReadShape(f, start, NO_ACTIONS);
      var read := ReadCommands(f, start, []).0;
      if read.attached && |read.buffer| > MAXIMUM_COMMAND_SIZE {
        b := RefuseShape(read, CommandTooLong, b);
      }
    }
  }

  /** The reply a result is owed. */
  function ResultReply(p: Plane, applied: bool): seq<Reply> {
    if !p.terminal && !p.stopping && p.attached && p.inFlight.Some?
       && p.inFlight.value.replyGeneration == Some(p.generation)
    then [if applied then ChangedReply else NotChangedReply] else []
  }

  lemma OneReply(replies: seq<Reply>)
    requires |replies| <= 1
    ensures Actions(NO_ACTIONS.(replies := replies)) == if replies == [] then [] else [Send(replies[0])]
  {
    if replies != [] {
      assert Sends(replies[..0]) == [];
    }
  }

  lemma ResultShape(f: FloatText, p: Plane, applied: bool, change: Change) returns (b: Batch)
    requires PendingDispatch(p) == None && ValidProfile(p.confirmed)
    requires p.inFlight.Some? ==> Sendable(f, p.inFlight.value.change)
    ensures HandleResult(p, applied, change).1 == Actions(b)
    ensures b.dispatch == PendingDispatch(HandleResult(p, applied, change).0)
    ensures b.fail ==> b == NO_ACTIONS.(fail := true) && !p.failed && HandleResult(p, applied, change).0.failed
    ensures b.stop ==> !p.stopping && HandleResult(p, applied, change).0.stopping
    ensures b.dispatch.Some? ==> !HandleResult(p, applied, change).0.stopping
    ensures HandleResult(p, applied, change).0.attached == (p.attached && !b.disconnect)
    ensures b.replies != [] ==> p.attached
  {
    if p.inFlight.None? || p.inFlight.value.change != change {
      assert Actions(NO_ACTIONS) == [] && Actions(NO_ACTIONS.(fail := true)) == [FailSession];
      return NO_ACTIONS.(fail := !p.terminal && !p.failed);
    }
    var idle := p.(inFlight := None);
    ConfirmKeeps(f, idle, applied, change);
    var updated := Confirm(idle, applied, change).value;
    OneReply(ResultReply(p, applied));
    b := NO_ACTIONS.(replies := ResultReply(p, applied));
    if !p.terminal && !p.failed && p.attached {
      b := DrainShape(updated, b);
    }
  }

  // ----- The change in flight -----

  /** What reading and draining commands does to a plane: a change already dispatched stays in flight, and one that
      takes the empty place is a dispatch of this batch. */
  predicate Kept(p: Plane, r: Plane) {
    && r.terminal == p.terminal && r.failed == p.failed
    && if p.inFlight.Some? && !p.inFlight.value.dispatchPending then
         r.inFlight.Some? && !r.inFlight.value.dispatchPending && r.inFlight.value.change == p.inFlight.value.change
       else r.inFlight.Some? ==> r.inFlight.value.dispatchPending
  }

  lemma ProcessKept(p: Plane, command: Command, actions: seq<Action>)
    ensures Kept(p, Process(p, command, actions).0)
  {
  }

  lemma {:induction false} DrainKept(p: Plane, actions: seq<Action>)
    ensures Kept(p, DrainQueue(p, actions).0)
    decreases |p.queue|
  {
    if p.attached && p.inFlight.None? && p.queue != [] {
      var next := p.(queue := p.queue[1..]);
      if p.queue[0].generation != p.generation {
        DrainKept(next, actions);
      } else {
        var (processed, done) := Process(next, p.queue[0].command, actions);
        ProcessKept(next, p.queue[0].command, actions);
        DrainKept(processed, done);
      }
    }
  }

  lemma LineKept(f: FloatText, p: Plane, line: string, actions: seq<Action>)
    ensures Kept(p, ReadLine(f, p, line, actions).0)
  {
    match ParseCommand(f, line)
    case Ignored =>
    case Wrong(error) =>
    case Parsed(command) => ProcessKept(p, command, actions);
  }

  lemma {:induction false} ReadKept(f: FloatText, p: Plane, actions: seq<Action>)
    ensures Kept(p, ReadCommands(f, p, actions).0)
    decreases |p.buffer|
  {
    if p.attached && TakeNextLine(p.buffer).Some? {
      var (line, rest) := TakeNextLine(p.buffer).value;
      var (read, done) := ReadLine(f, p.(buffer := rest), line, actions);
      LineKept(f, p.(buffer := rest), line, actions);
      ReadKept(f, read, done);
    }
  }

  lemma BytesKept(f: FloatText, p: Plane, bytes: string)
    ensures Kept(p, HandleBytes(f, p, bytes).0)
    ensures PendingDispatch(p).None? && (p.terminal || p.failed) ==> PendingDispatch(HandleBytes(f, p, bytes).0).None?
  {
    ReadKept(f, p.(buffer := p.buffer + bytes), []);
  }

  lemma ResultKept(f: FloatText, p: Plane, applied: bool, change: Change)
    requires Good(f, p) && p.inFlight.Some? && p.inFlight.value.change == change
    ensures var r := HandleResult(p, applied, change).0;
            && (r.inFlight.Some? ==> r.inFlight.value.dispatchPending && !p.terminal && !p.failed)
            && r.terminal == p.terminal && r.failed == p.failed
            && Confirm(p, applied, change).Some? && r.confirmed == Confirm(p, applied, change).value.confirmed
  {
    var idle := p.(inFlight := None);
    ConfirmKeeps(f, idle, applied, change);
    if !p.terminal && !p.failed {
      var updated, reply := Confirm(idle, applied, change).value, HandleResult(p.(queue := []), applied, change).1;
      DrainKept(updated, reply);
      DrainKeeps(f, updated, reply);
    }
  }

  /** One change in flight at a time: a change that was dispatched stays in flight until its own result, and another
      one enters only when none is left, by a dispatch of this very batch, and only while the Session is neither
      stopping nor terminal nor failed. */
  predicate FollowsFlight(p: Plane, event: Event, r: Plane) {
    && (PendingDispatch(r).Some? ==> !r.stopping && !r.terminal && !r.failed)
    && r.failed == (p.failed || event.ProfileStateUnknown?)
    && (if p.inFlight.Some? && !event.ChangeResult? then
          && r.inFlight.Some? && !r.inFlight.value.dispatchPending
          && r.inFlight.value.change == p.inFlight.value.change
        else r.inFlight.Some? ==> r.inFlight.value.dispatchPending)
    && (event.ChangeResult? ==>
          && Confirm(p, event.applied, event.change).Some?
          && r.confirmed == Confirm(p, event.applied, event.change).value.confirmed)
  }

  lemma OneInFlight(f: FloatText, p: Plane, event: Event)
    requires Good(f, p) && !event.WriteFailed?
    requires event.ChangeResult? ==> p.inFlight.Some? && p.inFlight.value.change == event.change
    ensures FollowsFlight(p, event, Handle(f, p, event).0)
  {
    var b := BatchShape(f, p, event);
    var start := p.(inFlight := NotPending(p.inFlight));
    if event.BytesReceived? {
      BytesKept(f, start, event.bytes);
    } else if event.ChangeResult? {
      ResultKept(f, start, event.applied, event.change);
    }
  }

  // ----- Whole runs -----

  /** A sequence of events in which a Controller attaches only when none is attached. */
  predicate Orderly(f: FloatText, p: Plane, events: seq<Event>)
    decreases |events|
  {
    events == []
    || ((events[0].Attached? ==> !p.attached) && Orderly(f, Handle(f, p, events[0]).0, events[1..]))
  }

  function Emitted(f: FloatText, p: Plane, events: seq<Event>): seq<Action>
    decreases |events|
  {
    if events == [] then [] else Handle(f, p, events[0]).1 + Emitted(f, Handle(f, p, events[0]).0, events[1..])
  }

  function Occurrences(actions: seq<Action>, action: Action): nat {
    if actions == [] then 0 else (if actions[0] == action then 1 else 0) + Occurrences(actions[1..], action)
  }

  lemma {:induction false} OccurrencesOfBoth(a: seq<Action>, b: seq<Action>, action: Action)
    ensures Occurrences(a + b, action) == Occurrences(a, action) + Occurrences(b, action)
  {
    if a == [] {
      assert a + b == b;
    } else {
      OccurrencesOfBoth(a[1..], b, action);
      assert (a + b)[1..] == a[1..] + b;
    }
  }

  lemma {:induction false} SendsOnlySend(replies: seq<Reply>, action: Action)
    requires !action.Send?
    ensures Occurrences(Sends(replies), action) == 0
  {
    if replies != [] {
      SendsOnlySend(replies[..|replies| - 1], action);
      OccurrencesOfBoth(Sends(replies[..|replies| - 1]), [Send(replies[|replies| - 1])], action);
    }
  }

  lemma BatchOccurrences(b: Batch, action: Action)
    requires action.RequestStop? || action.FailSession?
    ensures Occurrences(Actions(b), action)
            == if (action.RequestStop? && b.stop) || (action.FailSession? && b.fail) then 1 else 0
  {
    var stop := if b.stop then [RequestStop] else [];
    var disconnect := if b.disconnect then [Disconnect] else [];
    var fail := if b.fail then [FailSession] else [];
    SendsOnlySend(b.replies, action);
    OccurrencesOfBoth(stop, Sends(b.replies), action);
    OccurrencesOfBoth(stop + Sends(b.replies), disconnect, action);
    OccurrencesOfBoth(stop + Sends(b.replies) + disconnect, fail, action);
    OccurrencesOfBoth(BeforeDispatch(b), Last(b), action);
  }

  /** Over any run the lifecycle stop and the failure of the Session are each emitted at most once. */
  lemma {:induction false} EmittedOnce(f: FloatText, p: Plane, events: seq<Event>)
    requires Good(f, p) && RoundsInRange(f) && Orderly(f, p, events)
    ensures Occurrences(Emitted(f, p, events), RequestStop) <= if p.stopping then 0 else 1
    ensures Occurrences(Emitted(f, p, events), FailSession) <= if p.failed then 0 else 1
    decreases |events|
  {
    if events != [] {
      var b := BatchShape(f, p, events[0]);
      HandleKeepsGood(f, p, events[0]);
      var (next, actions) := Handle(f, p, events[0]);
      EmittedOnce(f, next, events[1..]);
      BatchOccurrences(b, RequestStop);
      BatchOccurrences(b, FailSession);
      OccurrencesOfBoth(actions, Emitted(f, next, events[1..]), RequestStop);
      OccurrencesOfBoth(actions, Emitted(f, next, events[1..]), FailSession);
    }
  }
}
