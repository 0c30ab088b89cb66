/** One connection of a Controller, answered as if every command were finished before the next one is looked at. */
module SequentialCommands {
  import opened Wrappers
  import opened Lines
  import opened NetworkProfile
  import opened ProfileWire
  import opened ControllerCommands
  import opened ControlPlane
  import opened ControlPlaneBatches

  // ----- The interpreter -----

  /** What a connection waits for in turn: the result of a change somebody else asked for, or its own commands. */
  datatype Item = Foreign(change: Change) | Asked(command: Command)

  /** The replies, the profile and whether it was ever shaped, the item whose result is awaited, the commands not
      looked at yet, the outcomes not used, and whether the connection was closed. */
  datatype Answers = Answers(replies: seq<Reply>, profile: Profile, shaped: bool, waiting: Option<Item>,
                             rest: seq<Command>, unused: seq<bool>, closed: bool)
  {
    function Said(earlier: seq<Reply>): Answers {
      this.(replies := earlier + replies)
    }
  }

  function Commands(items: seq<Item>): seq<Command>
    requires forall i :: 0 <= i < |items| ==> items[i].Asked?
  {
    if items == [] then [] else [items[0].command] + Commands(items[1..])
  }

  /** The profile after a change with a given outcome. */
  function Outcome(profile: Profile, change: Change, applied: bool): Profile {
    if applied && Apply(profile, change).Accepted? then Apply(profile, change).profile else profile
  }

  /** Whether the interpreter can finish an item and go on: a change needs an outcome, a detach is the end. */
  predicate Finishes(item: Item, outcomes: seq<bool>) {
    match item
    case Foreign(_) => outcomes != []
    case Asked(Edit(_)) => outcomes != []
    case Asked(Detach) => false
    case Asked(_) => true
  }

  predicate IsChange(item: Item) {
    item.Foreign? || item.command.Edit?
  }

  function ChangeOf(item: Item): Change
    requires IsChange(item)
  {
    if item.Foreign? then item.change else item.command.change
  }

  /** The reply to a finished item; nobody is told about a foreign change. */
  function ReplyTo(profile: Profile, shaped: bool, item: Item, outcomes: seq<bool>): seq<Reply>
    requires Finishes(item, outcomes)
  {
    match item
    case Foreign(_) => []
    case Asked(Help) => [HelpReply]
    case Asked(Status) => [StatusReply(profile, false, shaped)]
    case Asked(Edit(_)) => [if outcomes[0] then ChangedReply else NotChangedReply]
    case Asked(_) => []
  }

  /** One item after the other. */
  function Interpret(profile: Profile, shaped: bool, items: seq<Item>, outcomes: seq<bool>): Answers
    requires forall i :: 0 < i < |items| ==> items[i].Asked?
    decreases |items|
  {
    if items == [] then Answers([], profile, shaped, None, [], outcomes, false)
    else if Finishes(items[0], outcomes) then
      (if IsChange(items[0]) then
         Interpret(Outcome(profile, ChangeOf(items[0]), outcomes[0]), shaped || outcomes[0], items[1..], outcomes[1..])
       else Interpret(profile, shaped, items[1..], outcomes))
      .Said(ReplyTo(profile, shaped, items[0], outcomes))
    else if IsChange(items[0]) then
      Answers([], profile, shaped, Some(items[0]), Commands(items[1..]), [], false)
    else Answers([DetachedReply], profile, shaped, None, [], outcomes, true)
  }

  lemma {:induction false} CommandsOfBoth(a: seq<Item>, b: seq<Item>)
    requires forall i :: 0 <= i < |a| ==> a[i].Asked?
    requires forall i :: 0 <= i < |b| ==> b[i].Asked?
    ensures Commands(a + b) == Commands(a) + Commands(b)
  {
    if a == [] {
      assert a + b == b;
    } else {
      CommandsOfBoth(a[1..], b);
      assert (a + b)[1..] == a[1..] + b;
    }
  }

  /** How the answers go on with one more command. */
  function Ask(a: Answers, command: Command): Answers {
    if a.closed then a
    else if a.waiting.Some? then a.(rest := a.rest + [command])
    else Interpret(a.profile, a.shaped, [Asked(command)], []).Said(a.replies)
  }

  lemma SaidTwice(a: Answers, first: seq<Reply>, second: seq<Reply>)
    ensures a.Said(second).Said(first) == a.Said(first + second)
  {
    assert first + (second + a.replies) == (first + second) + a.replies;
  }

  lemma SaidNothing(a: Answers)
    ensures a.Said([]) == a
  {
    assert [] + a.replies == a.replies;
  }

  lemma {:induction false} OneMoreCommand(
      profile: Profile, shaped: bool, items: seq<Item>, outcomes: seq<bool>, command: Command)
    requires forall i :: 0 < i < |items| ==> items[i].Asked?
    requires Interpret(profile, shaped, items, outcomes).unused == []
    ensures Interpret(profile, shaped, items + [Asked(command)], outcomes)
            == Ask(Interpret(profile, shaped, items, outcomes), command)
    decreases |items|
  {
    var more := items + [Asked(command)];
    if items == [] {
      SaidNothing(Interpret(profile, shaped, [Asked(command)], []));
      assert more == [Asked(command)];
    } else {
      var rest, item := items[1..], items[0];
      assert more[1..] == rest + [Asked(command)] && more[0] == item;
      if Finishes(item, outcomes) {
        var profile1 := if IsChange(item) then Outcome(profile, ChangeOf(item), outcomes[0]) else profile;
        var shaped1 := if IsChange(item) then shaped || outcomes[0] else shaped;
        var outcomes1 := if IsChange(item) then outcomes[1..] else outcomes;
        OneMoreCommand(profile1, shaped1, rest, outcomes1, command);
        AskAfter(Interpret(profile1, shaped1, rest, outcomes1), command, ReplyTo(profile, shaped, item, outcomes));
      } else if IsChange(item) {
        CommandsOfBoth(rest, [Asked(command)]);
        assert Commands([Asked(command)]) == [command];
      }
    }
  }

  lemma AskAfter(a: Answers, command: Command, said: seq<Reply>)
    ensures Ask(a, command).Said(said) == Ask(a.Said(said), command)
  {
    SaidTwice(Interpret(a.profile, a.shaped, [Asked(command)], []), said, a.replies);
  }

  /** How the answers go on when the awaited outcome arrives: the change of this connection is answered, that of
      another one is not, and then the commands that had to wait. */
  function Resolve(a: Answers, applied: bool): Answers
    requires a.waiting.Some? && IsChange(a.waiting.value)
  {
    Interpret(Outcome(a.profile, ChangeOf(a.waiting.value), applied), a.shaped || applied, AskedItems(a.rest), [])
      .Said(a.replies + ReplyTo(a.profile, a.shaped, a.waiting.value, [applied]))
  }

  function AskedItems(commands: seq<Command>): (items: seq<Item>)
    ensures forall i :: 0 <= i < |items| ==> items[i].Asked?
  {
    if commands == [] then [] else [Asked(commands[0])] + AskedItems(commands[1..])
  }

  lemma {:induction false} AskedItemsBack(items: seq<Item>)
    requires forall i :: 0 <= i < |items| ==> items[i].Asked?
    ensures AskedItems(Commands(items)) == items
  {
    if items != [] {
      AskedItemsBack(items[1..]);
      assert Commands(items)[1..] == Commands(items[1..]);
    }
  }

  lemma FirstOutcome(profile: Profile, shaped: bool, items: seq<Item>, applied: bool)
    requires items != [] && (forall i :: 0 < i < |items| ==> items[i].Asked?) && IsChange(items[0])
    ensures Interpret(profile, shaped, items, [] + [applied])
            == Resolve(Interpret(profile, shaped, items, []), applied)
  {
    AskedItemsBack(items[1..]);
    assert ([] + [applied])[1..] == [];
    var said := ReplyTo(profile, shaped, items[0], [applied]);
    assert [] + said == said;
  }

  lemma {:induction false} OneMoreOutcome(
      profile: Profile, shaped: bool, items: seq<Item>, outcomes: seq<bool>, applied: bool)
    requires forall i :: 0 < i < |items| ==> items[i].Asked?
    requires Interpret(profile, shaped, items, outcomes).waiting.Some?
    ensures IsChange(Interpret(profile, shaped, items, outcomes).waiting.value)
    ensures Interpret(profile, shaped, items, outcomes + [applied])
            == Resolve(Interpret(profile, shaped, items, outcomes), applied)
    decreases |items|
  {
    var rest, item := items[1..], items[0];
    if !Finishes(item, outcomes) {
      FirstOutcome(profile, shaped, items, applied);
    } else {
      var profile1 := if IsChange(item) then Outcome(profile, ChangeOf(item), outcomes[0]) else profile;
      var shaped1 := if IsChange(item) then shaped || outcomes[0] else shaped;
      var outcomes1 := if IsChange(item) then outcomes[1..] else outcomes;
      assert IsChange(item) ==> (outcomes + [applied])[1..] == outcomes1 + [applied];
      OneMoreOutcome(profile1, shaped1, rest, outcomes1, applied);
      ResolveAfter(Interpret(profile1, shaped1, rest, outcomes1), applied, ReplyTo(profile, shaped, item, outcomes));
    }
  }

  lemma ResolveAfter(a: Answers, applied: bool, said: seq<Reply>)
    requires a.waiting.Some? && IsChange(a.waiting.value)
    ensures Resolve(a, applied).Said(said) == Resolve(a.Said(said), applied)
  {
    var own := ReplyTo(a.profile, a.shaped, a.waiting.value, [applied]);
    var b := Interpret(Outcome(a.profile, ChangeOf(a.waiting.value), applied), a.shaped || applied, AskedItems(a.rest), []);
    SaidTwice(b, said, a.replies + own);
    assert said + (a.replies + own) == (said + a.replies) + own;
  }

  // ----- The control plane answers like the interpreter -----

  /** The change in flight, foreign if the Controller that asked for it is gone. */
  function ItemInFlight(p: Plane): Option<Item> {
    if p.inFlight.None? then None
    else if p.inFlight.value.replyGeneration.None? then Some(Foreign(p.inFlight.value.change))
    else Some(Asked(Edit(p.inFlight.value.change)))
  }

  function QueuedCommands(queue: seq<Queued>): seq<Command> {
    if queue == [] then [] else [queue[0].command] + QueuedCommands(queue[1..])
  }

  /** Commands wait only behind a change. */
  predicate Proper(a: Answers) {
    a.waiting.None? ==> a.rest == []
  }

  /** The plane is where the interpreter is: it waits for the same change with the same commands behind it. */
  predicate Matches(p: Plane, a: Answers) {
    && p.confirmed == a.profile && p.shaped == a.shaped
    && ItemInFlight(p) == a.waiting && QueuedCommands(p.queue) == a.rest
    && p.attached == !a.closed && a.unused == [] && Proper(a)
    && !p.stopping && !p.terminal && !p.failed
  }

  lemma {:induction false} QueuedOneMore(queue: seq<Queued>, last: Queued)
    ensures QueuedCommands(queue + [last]) == QueuedCommands(queue) + [last.command] && |QueuedCommands(queue)| == |queue|
  {
    if queue == [] {
      assert (queue + [last])[1..] == [];
    } else {
      QueuedOneMore(queue[1..], last);
      assert (queue + [last])[1..] == queue[1..] + [last];
    }
  }

  /** What the interpreter does with a single command when nothing is awaited. */
  lemma AskedAlone(profile: Profile, shaped: bool, command: Command)
    ensures Interpret(profile, shaped, [Asked(command)], [])
            == match command
               case Help => Answers([HelpReply], profile, shaped, None, [], [], false)
               case Status => Answers([StatusReply(profile, false, shaped)], profile, shaped, None, [], [], false)
               case Edit(_) => Answers([], profile, shaped, Some(Asked(command)), [], [], false)
               case Detach => Answers([DetachedReply], profile, shaped, None, [], [], true)
               case Stop => Answers([], profile, shaped, None, [], [], false)
  {
    assert [Asked(command)][1..] == [];
  }

  /** What a command that is not a stop makes the plane say. */
  function Told(p: Plane, command: Command): seq<Reply>
    requires !command.Stop?
  {
    if Answer(p, command).Some? then [Answer(p, command).value] else []
  }

  /** One command that is not a stop, on a plane that has room to queue it. */
  lemma ProcessAnswers(p: Plane, command: Command, a: Answers, actions: seq<Action>)
    requires Matches(p, a) && p.attached && !command.Stop? && (p.inFlight.None? ==> p.queue == [])
    requires p.inFlight.Some? ==> |p.queue| < MAXIMUM_QUEUE
    ensures Matches(Process(p, command, actions).0, Ask(a, command))
    ensures Ask(a, command).replies == a.replies + Told(p, command)
  {
    QueuedOneMore(p.queue, Queued(command, p.generation));
    AskedAlone(a.profile, a.shaped, command);
    assert a.replies + [] == a.replies;
  }

  lemma {:induction false} CommandsBack(commands: seq<Command>)
    ensures Commands(AskedItems(commands)) == commands
  {
    if commands != [] {
      CommandsBack(commands[1..]);
      assert AskedItems(commands)[1..] == AskedItems(commands[1..]);
    }
  }

  /** What the interpreter makes of a queue when nothing is awaited, one command at a time. */
  lemma InterpretQueue(profile: Profile, shaped: bool, first: Command, rest: seq<Command>)
    requires !first.Stop?
    ensures var tail := Interpret(profile, shaped, AskedItems(rest), []);
            Interpret(profile, shaped, AskedItems([first] + rest), [])
            == match first
               case Help => tail.Said([HelpReply])
               case Status => tail.Said([StatusReply(profile, false, shaped)])
               case Edit(_) => Answers([], profile, shaped, Some(Asked(first)), rest, [], false)
               case Detach => Answers([DetachedReply], profile, shaped, None, [], [], true)
  {
    assert ([first] + rest)[1..] == rest;
    assert AskedItems([first] + rest)[1..] == AskedItems(rest);
    CommandsBack(rest);
  }

  lemma DrainStep(p: Plane, actions: seq<Action>)
    requires p.attached && p.inFlight.None? && p.queue != [] && p.queue[0].generation == p.generation
    ensures var (processed, done) := Process(p.(queue := p.queue[1..]), p.queue[0].command, actions);
            DrainQueue(p, actions) == DrainQueue(processed, done)
  {
  }

  lemma TalkLeaves(p: Plane, command: Command, actions: seq<Action>)
    requires p.inFlight.None? && (command.Help? || command.Status?)
    ensures Process(p, command, actions).0 == p
  {
  }

  /** A queued command after which the interpreter waits or stops. */
  lemma LastMatches(p: Plane, command: Command, actions: seq<Action>)
    requires p.inFlight.None? && p.attached && !p.stopping && !p.terminal && !p.failed
    requires command.Edit? || command.Detach?
    ensures var a := Interpret(p.confirmed, p.shaped, AskedItems([command] + QueuedCommands(p.queue)), []);
            && Matches(Process(p, command, actions).0, a)
            && a.replies == Told(p, command)
            && DrainQueue(Process(p, command, actions).0, Process(p, command, actions).1) == Process(p, command, actions)
  {
    InterpretQueue(p.confirmed, p.shaped, command, QueuedCommands(p.queue));
    DrainStops(Process(p, command, actions).0, Process(p, command, actions).1);
  }

  predicate DrainsLike(p: Plane, b: Batch, b': Batch) {
    var a := Interpret(p.confirmed, p.shaped, AskedItems(QueuedCommands(p.queue)), []);
    && DrainQueue(p, Actions(b)).1 == Actions(b') && Tracks(DrainQueue(p, Actions(b)).0, b')
    && Matches(DrainQueue(p, Actions(b)).0, a) && b'.replies == b.replies + a.replies
  }

  lemma DrainTalk(p: Plane, b: Batch, b1: Batch, b': Batch)
    requires p.queue != [] && p.attached && p.inFlight.None? && !p.stopping && p.queue[0].generation == p.generation
    requires p.queue[0].command.Help? || p.queue[0].command.Status?
    requires Process(p.(queue := p.queue[1..]), p.queue[0].command, Actions(b)).1 == Actions(b1)
    requires b1.replies == b.replies + Told(p.(queue := p.queue[1..]), p.queue[0].command)
    requires DrainsLike(p.(queue := p.queue[1..]), b1, b')
    ensures DrainsLike(p, b, b')
  {
    var next, command := p.(queue := p.queue[1..]), p.queue[0].command;
    DrainStep(p, Actions(b));
    TalkLeaves(next, command, Actions(b));
    InterpretQueue(p.confirmed, p.shaped, command, QueuedCommands(next.queue));
    var a := Interpret(p.confirmed, p.shaped, AskedItems(QueuedCommands(next.queue)), []);
    assert b.replies + (Told(next, command) + a.replies) == (b.replies + Told(next, command)) + a.replies;
  }

  /** Draining the queue says what the interpreter says to the queued commands, and stops where it stops. */
  lemma {:induction false} DrainAnswers(f: FloatText, p: Plane, b: Batch) returns (b': Batch)
    requires Draining(f, p) && p.inFlight.None? && p.attached && !p.stopping && !p.terminal && !p.failed && Tracks(p, b)
    ensures DrainsLike(p, b, b')
    decreases |p.queue|
  {
    b' := b;
    if p.queue == [] {
      assert b.replies + [] == b.replies;
    } else {
      var next, command := p.(queue := p.queue[1..]), p.queue[0].command;
      assert !command.Stop? && p.queue[0].generation == p.generation;
      b' := ProcessShape(next, command, b);
      if command.Help? || command.Status? {
        var b1 := b';
        TalkLeaves(next, command, Actions(b));
        b' := DrainAnswers(f, next, b1);
        DrainTalk(p, b, b1, b');
      } else {
        DrainStep(p, Actions(b));
        LastMatches(next, command, Actions(b));
      }
    }
  }

  lemma DrainStops(p: Plane, actions: seq<Action>)
    requires !p.attached || p.inFlight.Some?
    ensures DrainQueue(p, actions) == (p, actions)
  {
  }

  function OutcomeReply(applied: bool): Reply {
    if applied then ChangedReply else NotChangedReply
  }

  /** The plane once a result is confirmed and before the queue is drained. */
  lemma ResultConfirmed(f: FloatText, p: Plane, applied: bool) returns (updated: Plane)
    requires Good(f, p) && p.attached && p.inFlight.Some? && !p.stopping && !p.terminal && !p.failed
    ensures var foreign, change := p.inFlight.value.replyGeneration.None?, p.inFlight.value.change;
            && updated == p.(inFlight := None, confirmed := Outcome(p.confirmed, change, applied),
                             shaped := p.shaped || applied)
            && HandleResult(p, applied, change)
               == DrainQueue(updated, if foreign then [] else [Send(OutcomeReply(applied))])
            && Draining(f, updated)
  {
    var idle := p.(inFlight := None);
    ConfirmKeeps(f, idle, applied, p.inFlight.value.change);
    updated := Confirm(idle, applied, p.inFlight.value.change).value;
  }

  function OwedReply(p: Plane, applied: bool): seq<Reply>
    requires p.inFlight.Some?
  {
    if p.inFlight.value.replyGeneration.None? then [] else [OutcomeReply(applied)]
  }

  /** A result, for a change of this connection or of an earlier one. */
  lemma ResultAnswers(f: FloatText, p: Plane, a: Answers, applied: bool) returns (b: Batch)
    requires Good(f, p) && Matches(p, a) && p.attached && p.inFlight.Some?
    ensures var r := HandleResult(p, applied, p.inFlight.value.change);
            && r.1 == Actions(b) && Matches(r.0, Resolve(a, applied))
            && Resolve(a, applied).replies == a.replies + b.replies
  {
    var updated := ResultConfirmed(f, p, applied);
    OneReply(OwedReply(p, applied));
    b := DrainAnswers(f, updated, NO_ACTIONS.(replies := OwedReply(p, applied)));
    ResolveMatches(a, applied, updated, OwedReply(p, applied), b);
  }

  lemma ResolveMatches(a: Answers, applied: bool, updated: Plane, owed: seq<Reply>, b: Batch)
    requires a.waiting.Some? && IsChange(a.waiting.value) && QueuedCommands(updated.queue) == a.rest
    requires updated.confirmed == Outcome(a.profile, ChangeOf(a.waiting.value), applied)
    requires updated.shaped == (a.shaped || applied) && owed == ReplyTo(a.profile, a.shaped, a.waiting.value, [applied])
    requires DrainsLike(updated, NO_ACTIONS.(replies := owed), b)
    ensures Matches(DrainQueue(updated, Actions(NO_ACTIONS.(replies := owed))).0, Resolve(a, applied))
    ensures Resolve(a, applied).replies == a.replies + b.replies
  {
    var rest := Interpret(updated.confirmed, updated.shaped, AskedItems(a.rest), []);
    assert (a.replies + owed) + rest.replies == a.replies + (owed + rest.replies);
  }

  // ----- Lines -----

  /** A line the connection is about: nothing, or a command that is not a stop. */
  predicate Clean(f: FloatText, line: string) {
    ParseCommand(f, line).Ignored? || (ParseCommand(f, line).Parsed? && !ParseCommand(f, line).command.Stop?)
  }

  predicate AllClean(f: FloatText, lines: seq<string>) {
    forall i :: 0 <= i < |lines| ==> Clean(f, lines[i])
  }

  /** The commands in some lines. */
  function CommandsIn(f: FloatText, lines: seq<string>): seq<Command>
    requires AllClean(f, lines)
  {
    if lines == [] then []
    else
      assert Clean(f, lines[0]);
      (if ParseCommand(f, lines[0]).Ignored? then [] else [ParseCommand(f, lines[0]).command])
      + CommandsIn(f, lines[1..])
  }

  function AskAll(a: Answers, commands: seq<Command>): Answers
    decreases |commands|
  {
    if commands == [] then a else AskAll(Ask(a, commands[0]), commands[1..])
  }

  lemma {:induction false} AskAllGrows(a: Answers, commands: seq<Command>)
    requires Proper(a)
    ensures a.replies <= AskAll(a, commands).replies && |a.rest| <= |AskAll(a, commands).rest|
    ensures a.closed ==> AskAll(a, commands) == a
    decreases |commands|
  {
    if commands != [] {
      AskGrows(a, commands[0]);
      AskAllGrows(Ask(a, commands[0]), commands[1..]);
    }
  }

  lemma AskGrows(a: Answers, command: Command)
    requires Proper(a)
    ensures Proper(Ask(a, command)) && a.replies <= Ask(a, command).replies && |a.rest| <= |Ask(a, command).rest|
  {
    AskedAlone(a.profile, a.shaped, command);
  }

  /** A batch says what the answers say beyond what they said before. */
  predicate Says(b: Batch, b': Batch, a: Answers, a': Answers) {
    a.replies <= a'.replies && b'.replies == b.replies + a'.replies[|a.replies|..]
  }

  lemma SaysInTwo(b: Batch, b1: Batch, b2: Batch, a: Answers, a1: Answers, a2: Answers)
    requires Says(b, b1, a, a1) && Says(b1, b2, a1, a2)
    ensures Says(b, b2, a, a2)
  {
    var m, n := |a.replies|, |a1.replies|;
    assert a2.replies[m..] == a1.replies[m..] + a2.replies[n..];
    assert b2.replies == b.replies + (a1.replies[m..] + a2.replies[n..]);
  }

  /** One clean line: the plane does what the interpreter does with the command in it. */
  lemma LineAnswers(f: FloatText, p: Plane, line: string, a: Answers, b: Batch) returns (b': Batch)
    requires Matches(p, a) && p.attached && Tracks(p, b) && Clean(f, line)
    requires |AskAll(a, CommandsIn(f, [line])).rest| <= MAXIMUM_QUEUE
    ensures var a' := AskAll(a, CommandsIn(f, [line]));
            && ReadLine(f, p, line, Actions(b)).1 == Actions(b') && Tracks(ReadLine(f, p, line, Actions(b)).0, b')
            && Matches(ReadLine(f, p, line, Actions(b)).0, a') && Says(b, b', a, a')
  {
    assert [line][1..] == [];
    b' := b;
    if ParseCommand(f, line).Parsed? {
      var command := ParseCommand(f, line).command;
      assert CommandsIn(f, [line]) == [command] && [command][1..] == [];
      assert AskAll(a, [command]) == Ask(a, command);
      QueuedLength(p.queue);
      b' := ProcessShape(p, command, b);
      ProcessAnswers(p, command, a, Actions(b));
    } else {
      assert b.replies + [] == b.replies && CommandsIn(f, [line]) == [];
    }
  }

  lemma {:induction false} QueuedLength(queue: seq<Queued>)
    ensures |QueuedCommands(queue)| == |queue|
  {
    if queue != [] {
      QueuedLength(queue[1..]);
    }
  }

  lemma {:induction false} AskAllOfBoth(a: Answers, first: seq<Command>, second: seq<Command>)
    ensures AskAll(a, first + second) == AskAll(AskAll(a, first), second)
    decreases |first|
  {
    if first == [] {
      assert first + second == second;
    } else {
      AskAllOfBoth(Ask(a, first[0]), first[1..], second);
      assert (first + second)[1..] == first[1..] + second;
    }
  }

  lemma CommandsInFirst(f: FloatText, lines: seq<string>, a: Answers)
    requires lines != [] && AllClean(f, lines)
    ensures AllClean(f, [lines[0]]) && AllClean(f, lines[1..])
    ensures AskAll(a, CommandsIn(f, lines)) == AskAll(AskAll(a, CommandsIn(f, [lines[0]])), CommandsIn(f, lines[1..]))
  {
    assert [lines[0]][1..] == [];
    assert CommandsIn(f, [lines[0]]) + [] == CommandsIn(f, [lines[0]]);
    AskAllOfBoth(a, CommandsIn(f, [lines[0]]), CommandsIn(f, lines[1..]));
  }

  /** What is left in the buffer of a plane that read everything. */
  predicate LeftOver(p: Plane, partial: string) {
    p.attached ==> p.buffer == partial
  }

  /** What reading everything that is complete has to do. */
  predicate ReadsLike(f: FloatText, p: Plane, text: string, a: Answers, b: Batch, b': Batch)
    requires AllClean(f, Split(text).0)
  {
    var r, a' := ReadCommands(f, p, Actions(b)), AskAll(a, CommandsIn(f, Split(text).0));
    && r.1 == Actions(b') && Tracks(r.0, b') && Matches(r.0, a') && Says(b, b', a, a')
    && LeftOver(r.0, Split(text).1)
  }

  lemma ReadStep(f: FloatText, p: Plane, actions: seq<Action>, line: string, rest: string)
    requires p.attached && TakeNextLine(p.buffer) == Some((line, rest))
    ensures var (read, done) := ReadLine(f, p.(buffer := rest), line, actions);
            ReadCommands(f, p, actions) == ReadCommands(f, read, done)
    ensures var (lines, partial) := Split(p.buffer);
            lines != [] && lines[0] == line && lines[1..] == Split(rest).0 && partial == Split(rest).1
  {
  }

  lemma ReadComposes(f: FloatText, p: Plane, line: string, rest: string, a: Answers, b: Batch,
                     read: Plane, a1: Answers, b1: Batch, b': Batch)
    requires p.attached && TakeNextLine(p.buffer) == Some((line, rest)) && AllClean(f, Split(p.buffer).0)
    requires Clean(f, line) && AllClean(f, Split(rest).0)
    requires (read, Actions(b1)) == ReadLine(f, p.(buffer := rest), line, Actions(b))
    requires a1 == AskAll(a, CommandsIn(f, [line])) && Says(b, b1, a, a1) && ReadsLike(f, read, rest, a1, b1, b')
    ensures ReadsLike(f, p, p.buffer, a, b, b')
  {
    var lines := Split(p.buffer).0;
    ReadStep(f, p, Actions(b), line, rest);
    CommandsInFirst(f, lines, a);
    SaysInTwo(b, b1, b', a, a1, AskAll(a1, CommandsIn(f, lines[1..])));
  }

  lemma ReadNothing(f: FloatText, p: Plane, a: Answers, b: Batch)
    requires Matches(p, a) && Tracks(p, b) && AllClean(f, Split(p.buffer).0)
    requires !p.attached || TakeNextLine(p.buffer).None?
    ensures ReadsLike(f, p, p.buffer, a, b, b)
  {
    AskAllGrows(a, CommandsIn(f, Split(p.buffer).0));
    assert b.replies + [] == b.replies;
  }

  lemma ReadAnswers(f: FloatText, p: Plane, a: Answers, b: Batch) returns (b': Batch)
    requires Matches(p, a) && Tracks(p, b) && AllClean(f, Split(p.buffer).0)
    requires |AskAll(a, CommandsIn(f, Split(p.buffer).0)).rest| <= MAXIMUM_QUEUE
    ensures ReadsLike(f, p, p.buffer, a, b, b')
    decreases |p.buffer|, 1
  {
    if p.attached && TakeNextLine(p.buffer).Some? {
      b' := ReadLines(f, p, TakeNextLine(p.buffer).value.0, TakeNextLine(p.buffer).value.1, a, b);
    } else {
      ReadNothing(f, p, a, b);
      b' := b;
    }
  }

  /** Reading the first line, with what is needed to go on. */
  lemma FirstLine(f: FloatText, p: Plane, line: string, rest: string, a: Answers, b: Batch)
      returns (read: Plane, a1: Answers, b1: Batch)
    requires Matches(p, a) && Tracks(p, b) && AllClean(f, Split(p.buffer).0)
    requires |AskAll(a, CommandsIn(f, Split(p.buffer).0)).rest| <= MAXIMUM_QUEUE
    requires p.attached && TakeNextLine(p.buffer) == Some((line, rest))
    ensures (read, Actions(b1)) == ReadLine(f, p.(buffer := rest), line, Actions(b))
    ensures Clean(f, line) && a1 == AskAll(a, CommandsIn(f, [line])) && Says(b, b1, a, a1)
    ensures Matches(read, a1) && Tracks(read, b1) && (read.attached ==> read.buffer == rest)
    ensures |rest| < |p.buffer| && AllClean(f, Split(rest).0)
    ensures |AskAll(a1, CommandsIn(f, Split(rest).0)).rest| <= MAXIMUM_QUEUE
  {
    hide ParseCommand, TakeNextLine, FirstNewline;
    ReadStep(f, p, Actions(b), line, rest);
    RoomForLine(f, p, a);
    a1 := AskAll(a, CommandsIn(f, [line]));
    b1 := LineAnswers(f, p.(buffer := rest), line, a, b);
    read := ReadLine(f, p.(buffer := rest), line, Actions(b)).0;
    AttachedKeepsBuffer(f, p.(buffer := rest), line, Actions(b));
  }

  lemma AttachedKeepsBuffer(f: FloatText, p: Plane, line: string, actions: seq<Action>)
    requires p.attached
    ensures var read := ReadLine(f, p, line, actions).0;
            read.attached ==> read.buffer == p.buffer
  {
  }

  lemma ReadLines(f: FloatText, p: Plane, line: string, rest: string, a: Answers, b: Batch) returns (b': Batch)
    requires Matches(p, a) && Tracks(p, b) && AllClean(f, Split(p.buffer).0)
    requires |AskAll(a, CommandsIn(f, Split(p.buffer).0)).rest| <= MAXIMUM_QUEUE
    requires p.attached && TakeNextLine(p.buffer) == Some((line, rest))
    ensures ReadsLike(f, p, p.buffer, a, b, b')
    decreases |p.buffer|, 0
  {
    var read, a1, b1 := FirstLine(f, p, line, rest, a, b);
    b' := ReadRest(f, read, rest, a1, b1);
    ReadComposes(f, p, line, rest, a, b, read, a1, b1, b');
  }

  lemma RoomForLine(f: FloatText, p: Plane, a: Answers)
    requires Proper(a) && AllClean(f, Split(p.buffer).0) && Split(p.buffer).0 != []
    requires |AskAll(a, CommandsIn(f, Split(p.buffer).0)).rest| <= MAXIMUM_QUEUE
    ensures var lines := Split(p.buffer).0;
            && Clean(f, lines[0]) && AllClean(f, lines[1..])
            && var a1 := AskAll(a, CommandsIn(f, [lines[0]]));
               |a1.rest| <= MAXIMUM_QUEUE && |AskAll(a1, CommandsIn(f, lines[1..])).rest| <= MAXIMUM_QUEUE
  {
    var lines := Split(p.buffer).0;
    CommandsInFirst(f, lines, a);
    AskAllProper(a, CommandsIn(f, [lines[0]]));
    AskAllGrows(AskAll(a, CommandsIn(f, [lines[0]])), CommandsIn(f, lines[1..]));
  }

  lemma AskAllProper(a: Answers, commands: seq<Command>)
    requires Proper(a)
    ensures Proper(AskAll(a, commands))
    decreases |commands|
  {
    if commands != [] {
      AskGrows(a, commands[0]);
      AskAllProper(Ask(a, commands[0]), commands[1..]);
    }
  }

  /** The lines after the first, unless it closed the connection. */
  lemma ReadRest(f: FloatText, read: Plane, rest: string, a: Answers, b: Batch) returns (b': Batch)
    requires Matches(read, a) && Tracks(read, b) && (read.attached ==> read.buffer == rest)
    requires AllClean(f, Split(rest).0) && |AskAll(a, CommandsIn(f, Split(rest).0)).rest| <= MAXIMUM_QUEUE
    ensures ReadsLike(f, read, rest, a, b, b')
    decreases |rest|, 2
  {
    if read.attached {
      b' := ReadAnswers(f, read, a, b);
    } else {
      AskAllGrows(a, CommandsIn(f, Split(rest).0));
      b' := b;
      assert b.replies + [] == b.replies;
    }
  }

  // ----- A whole connection -----

  lemma {:induction false} AskAllIsInterpret(
      profile: Profile, shaped: bool, items: seq<Item>, outcomes: seq<bool>, commands: seq<Command>)
    requires forall i :: 0 < i < |items| ==> items[i].Asked?
    requires Interpret(profile, shaped, items, outcomes).unused == []
    ensures Interpret(profile, shaped, items + AskedItems(commands), outcomes)
            == AskAll(Interpret(profile, shaped, items, outcomes), commands)
    ensures AskAll(Interpret(profile, shaped, items, outcomes), commands).unused == []
    decreases |commands|
  {
    if commands == [] {
      assert items + [] == items;
    } else {
      var a := Interpret(profile, shaped, items, outcomes);
      OneMoreCommand(profile, shaped, items, outcomes, commands[0]);
      AskedAlone(a.profile, a.shaped, commands[0]);
      AskAllIsInterpret(profile, shaped, items + [Asked(commands[0])], outcomes, commands[1..]);
      assert items + AskedItems(commands) == (items + [Asked(commands[0])]) + AskedItems(commands[1..]);
    }
  }

  /** What a connection has asked for and been told so far. */
  datatype Connection = Connection(profile: Profile, shaped: bool, items: seq<Item>, outcomes: seq<bool>) {
    predicate Proper() {
      && (forall i :: 0 < i < |items| ==> items[i].Asked?)
      && Interpret(profile, shaped, items, outcomes).unused == []
    }

    function Answered(): Answers
      requires forall i :: 0 < i < |items| ==> items[i].Asked?
    {
      Interpret(profile, shaped, items, outcomes)
    }
  }

  /** An event of a connection without errors: complete lines that are clean with room to queue them, or the result of
      the change in flight. */
  predicate Regular(f: FloatText, p: Plane, c: Connection, event: Event) {
    && c.Proper()
    && match event
       case BytesReceived(bytes) =>
         var (lines, partial) := Split(p.buffer + bytes);
         && AllClean(f, lines) && |partial| <= MAXIMUM_COMMAND_SIZE
         && |AskAll(c.Answered(), CommandsIn(f, lines)).rest| <= MAXIMUM_QUEUE
       case ChangeResult(_, change) => p.attached && p.inFlight.Some? && p.inFlight.value.change == change
       case _ => false
  }

  /** The connection after an event. */
  function Heard(f: FloatText, p: Plane, c: Connection, event: Event): Connection
    requires Regular(f, p, c, event)
  {
    if event.BytesReceived? then
      c.(items := c.items + AskedItems(CommandsIn(f, Split(p.buffer + event.bytes).0)))
    else c.(outcomes := c.outcomes + [event.applied])
  }

  predicate Follows(p: Plane, c: Connection) {
    c.Proper() && Matches(p, c.Answered())
  }

  lemma BytesFollow(f: FloatText, p: Plane, c: Connection, bytes: string) returns (b: Batch)
    requires Good(f, p) && Follows(p, c) && Regular(f, p, c, BytesReceived(bytes))
    ensures var (r, actions) := Handle(f, p, BytesReceived(bytes));
            var d := Heard(f, p, c, BytesReceived(bytes));
            && actions == Actions(b) && Follows(r, d)
            && d.Answered().replies == c.Answered().replies + b.replies
  {
    hide AskedItems, Split, AllLines;
    var start := p.(inFlight := NotPending(p.inFlight), buffer := p.buffer + bytes);
    var commands := CommandsIn(f, Split(p.buffer + bytes).0);
    AskAllIsInterpret(c.profile, c.shaped, c.items, c.outcomes, commands);
    b := BytesAnswer(f, start, bytes, c.Answered(), commands);
  }

  lemma BytesAnswer(f: FloatText, start: Plane, bytes: string, a: Answers, commands: seq<Command>) returns (b: Batch)
    requires Matches(start, a) && PendingDispatch(start).None?
    requires AllClean(f, Split(start.buffer).0) && commands == CommandsIn(f, Split(start.buffer).0)
    requires |Split(start.buffer).1| <= MAXIMUM_COMMAND_SIZE && |AskAll(a, commands).rest| <= MAXIMUM_QUEUE
    ensures AskAll(a, commands).replies == a.replies + b.replies
    ensures var (read, actions) := ReadCommands(f, start, []);
            if start.attached then
              && actions == Actions(b) && Matches(read, AskAll(a, commands))
              && !(read.attached && |read.buffer| > MAXIMUM_COMMAND_SIZE)
            else b == NO_ACTIONS && AskAll(a, commands) == a
  {
    hide FirstNewline, ReadLine, PendingDispatch;
    AskAllGrows(a, commands);
    assert Actions(NO_ACTIONS) == [];
    if start.attached {
      b := ReadAnswers(f, start, a, NO_ACTIONS);
    } else {
      b := NO_ACTIONS;
      assert a.replies + [] == a.replies;
    }
  }

  lemma ResultFollows(f: FloatText, p: Plane, c: Connection, applied: bool) returns (b: Batch)
    requires Good(f, p) && Follows(p, c) && p.attached && p.inFlight.Some?
    ensures var event := ChangeResult(applied, p.inFlight.value.change);
            var (r, actions) := Handle(f, p, event);
            && actions == Actions(b) && Follows(r, Heard(f, p, c, event))
            && Heard(f, p, c, event).Answered().replies == c.Answered().replies + b.replies
  {
    var start := p.(inFlight := NotPending(p.inFlight));
    OneMoreOutcome(c.profile, c.shaped, c.items, c.outcomes, applied);
    b := ResultAnswers(f, start, c.Answered(), applied);
  }

  /** The replies among some actions. */
  function Replies(actions: seq<Action>): seq<Reply> {
    if actions == [] then [] else (if actions[0].Send? then [actions[0].reply] else []) + Replies(actions[1..])
  }

  lemma {:induction false} RepliesOfBoth(a: seq<Action>, b: seq<Action>)
    ensures Replies(a + b) == Replies(a) + Replies(b)
  {
    if a == [] {
      assert a + b == b;
    } else {
      RepliesOfBoth(a[1..], b);
      assert (a + b)[1..] == a[1..] + b;
    }
  }

  lemma {:induction false} RepliesOfSends(replies: seq<Reply>)
    ensures Replies(Sends(replies)) == replies
  {
    if replies != [] {
      var last := replies[|replies| - 1];
      RepliesOfSends(replies[..|replies| - 1]);
      RepliesOfBoth(Sends(replies[..|replies| - 1]), [Send(last)]);
      assert [Send(last)][1..] == [];
      assert replies[..|replies| - 1] + [last] == replies;
    }
  }

  lemma RepliesOfBatch(b: Batch)
    ensures Replies(Actions(b)) == b.replies
  {
    hide Replies, Sends;
    var stop := if b.stop then [RequestStop] else [];
    var disconnect := if b.disconnect then [Disconnect] else [];
    var fail := if b.fail then [FailSession] else [];
    RepliesOfSends(b.replies);
    RepliesOfBoth(stop, Sends(b.replies));
    RepliesOfBoth(stop + Sends(b.replies), disconnect);
    RepliesOfBoth(stop + Sends(b.replies) + disconnect, fail);
    RepliesOfBoth(BeforeDispatch(b), Last(b));
    assert forall a :: a in [stop, disconnect, fail, Last(b)] ==> Replies(a) == [] by {
      SilentActions(stop);
      SilentActions(disconnect);
      SilentActions(fail);
      SilentActions(Last(b));
    }
    assert b.replies + [] == b.replies && [] + b.replies == b.replies;
  }

  lemma SilentActions(actions: seq<Action>)
    requires |actions| <= 1 && (actions != [] ==> !actions[0].Send?)
    ensures Replies(actions) == []
  {
  }

  /** Events of one connection, each regular where it happens. */
  predicate RegularRun(f: FloatText, p: Plane, c: Connection, events: seq<Event>)
    decreases |events|
  {
    events == []
    || (Regular(f, p, c, events[0])
        && RegularRun(f, Handle(f, p, events[0]).0, Heard(f, p, c, events[0]), events[1..]))
  }

  function ConnectionAfter(f: FloatText, p: Plane, c: Connection, events: seq<Event>): Connection
    requires RegularRun(f, p, c, events)
    decreases |events|
  {
    if events == [] then c
    else ConnectionAfter(f, Handle(f, p, events[0]).0, Heard(f, p, c, events[0]), events[1..])
  }

  function PlaneAfter(f: FloatText, p: Plane, events: seq<Event>): Plane
    decreases |events|
  {
    if events == [] then p else PlaneAfter(f, Handle(f, p, events[0]).0, events[1..])
  }

  lemma EventFollows(f: FloatText, p: Plane, c: Connection, event: Event)
    requires Good(f, p) && Follows(p, c) && Regular(f, p, c, event) && RoundsInRange(f)
    ensures var (r, actions) := Handle(f, p, event);
            var d := Heard(f, p, c, event);
            && Good(f, r) && Follows(r, d) && d.Answered().replies == c.Answered().replies + Replies(actions)
  {
    HandleKeepsGood(f, p, event);
    var b: Batch;
    if event.BytesReceived? {
      b := BytesFollow(f, p, c, event.bytes);
    } else {
      b := ResultFollows(f, p, c, event.applied);
    }
    RepliesOfBatch(b);
  }

  /** The connection agrees with the plane, and between two points of a run it says what is emitted. */
  ghost predicate Conforms(f: FloatText, r: Plane, d: Connection, before: seq<Reply>, said: seq<Reply>) {
    Good(f, r) && Follows(r, d) && d.Answered().replies == before + said
  }

  lemma ConformsOn(f: FloatText, r: Plane, d: Connection, before: seq<Reply>, said: seq<Reply>, later: seq<Reply>)
    requires Conforms(f, r, d, before + said, later)
    ensures Conforms(f, r, d, before, said + later)
  {
    assert before + (said + later) == (before + said) + later;
  }

  lemma {:induction false} RunConforms(f: FloatText, p: Plane, c: Connection, events: seq<Event>)
    requires Good(f, p) && Follows(p, c) && RegularRun(f, p, c, events) && RoundsInRange(f)
    ensures Conforms(f, PlaneAfter(f, p, events), ConnectionAfter(f, p, c, events), c.Answered().replies,
                     Replies(Emitted(f, p, events)))
    decreases |events|
  {
    if events == [] {
      assert c.Answered().replies + [] == c.Answered().replies;
    } else {
      OneEventOn(f, p, c, events);
    }
  }

  lemma OneEventOn(f: FloatText, p: Plane, c: Connection, events: seq<Event>)
    requires Good(f, p) && Follows(p, c) && RegularRun(f, p, c, events) && RoundsInRange(f) && events != []
    ensures Conforms(f, PlaneAfter(f, p, events), ConnectionAfter(f, p, c, events), c.Answered().replies,
                     Replies(Emitted(f, p, events)))
    decreases |events|, 0
  {
    EventFollows(f, p, c, events[0]);
    var (next, actions) := Handle(f, p, events[0]);
    var d, rest := Heard(f, p, c, events[0]), events[1..];
    RunConforms(f, next, d, rest);
    RepliesOfBoth(actions, Emitted(f, next, rest));
    ConformsOn(f, PlaneAfter(f, next, rest), ConnectionAfter(f, next, d, rest), c.Answered().replies,
               Replies(actions), Replies(Emitted(f, next, rest)));
  }

  /** On one connection without errors, overflow and stop, for every fragmentation of the commands and every
      interleaving with the results: the replies are those of the interpreter on the commands and outcomes so far, in
      the order of arrival; the confirmed profile is the interpreter's, the fold of all confirmed changes; what is in
      flight is what the interpreter waits for and the queue is what it has not looked at. */
  lemma AnsweredInOrder(f: FloatText, p: Plane, c: Connection, events: seq<Event>)
    requires Good(f, p) && Follows(p, c) && RegularRun(f, p, c, events) && RoundsInRange(f)
    ensures var r, d := PlaneAfter(f, p, events), ConnectionAfter(f, p, c, events);
            && d.Proper()
            && d.Answered().replies == c.Answered().replies + Replies(Emitted(f, p, events))
            && r.confirmed == d.Answered().profile && r.attached == !d.Answered().closed
            && ItemInFlight(r) == d.Answered().waiting && QueuedCommands(r.queue) == d.Answered().rest
            && |r.queue| <= MAXIMUM_QUEUE && (r.queue != [] ==> r.inFlight.Some?)
  {
    RunConforms(f, p, c, events);
  }

  /** A connection that has just been attached: the interpreter starts with nothing asked, and waits first for the
      change a former connection left in flight. */
  function Fresh(p: Plane): Connection {
    Connection(p.confirmed, p.shaped, if p.inFlight.Some? then [Foreign(p.inFlight.value.change)] else [], [])
  }

  /** Attaching starts such a connection: a reply is owed only to the connection that asked. */
  lemma AttachingIsFresh(f: FloatText, p: Plane)
    requires Good(f, p) && !p.attached && !p.stopping && !p.terminal && !p.failed && RoundsInRange(f)
    ensures var r := Handle(f, p, Attached).0;
            && Good(f, r) && r.buffer == "" && r.generation == p.generation + 1
            && Follows(r, Fresh(r)) && Fresh(r).Answered().replies == []
  {
    HandleKeepsGood(f, p, Attached);
    var r := Handle(f, p, Attached).0;
    assert r.queue == [];
    if r.inFlight.Some? {
      assert Fresh(r).items[1..] == [];
    }
  }
}
