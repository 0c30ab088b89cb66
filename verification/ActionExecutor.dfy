/** Carrying out a batch of control plane actions on the Controller's and the helper's socket. */
module ActionExecutor {
  import opened Wrappers
  import opened NetworkProfile
  import opened ProfileWire
  import opened ControlPlane
  import opened ControlPlaneBatches
  import opened HelperConversations
  import L = SessionLifecycle

  /** Both objects the executor changes, whether a Controller is connected, what was written to either socket, and the
      lifecycle events raised; `broken` once the rest of the batch is given up. */
  datatype Exec = Exec(plane: Plane, client: bool, conversation: Supervisor, said: seq<Reply>, frames: seq<string>,
                       events: seq<L.LifecycleEvent>, broken: bool)
  {
    function Raise(event: L.LifecycleEvent): Exec {
      this.(events := events + [event])
    }

    /** The reaction to a failed write to the Controller. */
    function LoseClient(f: FloatText): Exec {
      this.(client := false, plane := Handle(f, plane, WriteFailed).0, broken := true)
    }
  }

  /** One action; `ok` says whether the write it makes, if any, succeeds. */
  function Act(f: FloatText, e: Exec, action: Action, ok: bool): Exec {
    match action
    case RequestStop => e.Raise(L.StopRequested)
    case Send(reply) => if e.client && ok then e.(said := e.said + [reply]) else e.LoseClient(f)
    case Disconnect => e.(client := false)
    case FailSession => e.Raise(L.ProfileStateUnknown)
    case Dispatch(change) =>
      var (begun, frame) := Begin(e.conversation, f, change);
      if frame.Some? && ok then e.(conversation := begun, frames := e.frames + [frame.value])
      else e.(conversation := begun, broken := true).Raise(L.ConversationLost)
  }

  /** `execute_control_plane_actions` with the results of the writes given. */
  function Execute(f: FloatText, actions: seq<Action>, ok: seq<bool>, e: Exec): Exec
    requires |ok| == |actions|
  {
    if e.broken || actions == [] then e else Execute(f, actions[1..], ok[1..], Act(f, e, actions[0], ok[0]))
  }

  class Sockets {
    var client: bool
    var said: seq<Reply>
    var frames: seq<string>

    constructor (client: bool)
      ensures this.client == client && said == [] && frames == []
    {
      this.client, said, frames := client, [], [];
    }
  }

  function ExecOf(plane: ControllerControlPlane, conversation: SupervisorHelperConversation, sockets: Sockets,
                  events: seq<L.LifecycleEvent>, broken: bool): Exec
    reads plane, conversation, sockets
  {
    Exec(plane.State(), sockets.client, conversation.State(), sockets.said, sockets.frames, events, broken)
  }

  lemma ExecuteStep(f: FloatText, actions: seq<Action>, ok: seq<bool>, i: nat, e: Exec)
    requires i < |actions| == |ok| && !e.broken
    ensures Execute(f, actions[i..], ok[i..], e)
            == Execute(f, actions[i + 1..], ok[i + 1..], Act(f, e, actions[i], ok[i]))
  {
    assert actions[i..][1..] == actions[i + 1..] && ok[i..][1..] == ok[i + 1..];
  }

  lemma ActRaises(f: FloatText, e: Exec, action: Action, ok: bool)
    ensures var r := Act(f, e.(events := []), action, ok);
            Act(f, e, action, ok) == r.(events := e.events + r.events)
  {
    assert e.events + [] == e.events;
  }

  method ExecuteControlPlaneActions(actions: seq<Action>, ok: seq<bool>, plane: ControllerControlPlane,
                                    conversation: SupervisorHelperConversation, sockets: Sockets)
      returns (events: seq<L.LifecycleEvent>, broken: bool)
    requires |ok| == |actions| && plane.float == conversation.float
    modifies plane, conversation, sockets
    ensures ExecOf(plane, conversation, sockets, events, broken)
            == Execute(plane.float, actions, ok, old(ExecOf(plane, conversation, sockets, [], false)))
    ensures conversation.buffer == old(conversation.buffer)
  {
    events, broken := [], false;
    var f := plane.float;
    ghost var whole := Execute(f, actions, ok, ExecOf(plane, conversation, sockets, [], false));
    for i := 0 to |actions|
      invariant !broken && conversation.buffer == old(conversation.buffer)
      invariant whole == Execute(f, actions[i..], ok[i..], ExecOf(plane, conversation, sockets, events, false))
    {
      ExecuteStep(f, actions, ok, i, ExecOf(plane, conversation, sockets, events, false));
      ActRaises(f, ExecOf(plane, conversation, sockets, events, false), actions[i], ok[i]);
      var raised;
      raised, broken := ExecuteAction(actions[i], ok[i], plane, conversation, sockets);
      events := events + raised;
      if broken {
        return;
      }
    }
  }

  /** The loop body. */
  method ExecuteAction(action: Action, ok: bool, plane: ControllerControlPlane,
                       conversation: SupervisorHelperConversation, sockets: Sockets)
      returns (raised: seq<L.LifecycleEvent>, broken: bool)
    requires plane.float == conversation.float
    modifies plane, conversation, sockets
    ensures ExecOf(plane, conversation, sockets, raised, broken)
            == Act(plane.float, old(ExecOf(plane, conversation, sockets, [], false)), action, ok)
    ensures conversation.buffer == old(conversation.buffer)
  {
    raised, broken := [], false;
    match action
    case RequestStop => raised := [L.StopRequested];
    case Send(reply) =>
      if sockets.client && ok {
        sockets.said := sockets.said + [reply];
      } else {
        sockets.client := false;
        var nothing := plane.HandleEvent(WriteFailed);
        broken := true;
      }
    case Disconnect => sockets.client := false;
    case FailSession => raised := [L.ProfileStateUnknown];
    case Dispatch(change) =>
      var frame := conversation.BeginProfileChange(change);
      if frame.None? || !ok {
        raised, broken := [L.ConversationLost], true;
      } else {
        sockets.frames := sockets.frames + [frame.value];
      }
  }

  // ----- What a whole batch does -----

  lemma {:induction false} ExecuteInTwo(f: FloatText, a: seq<Action>, b: seq<Action>, ok: seq<bool>, e: Exec)
    requires |ok| == |a| + |b|
    ensures Execute(f, a + b, ok, e) == Execute(f, b, ok[|a|..], Execute(f, a, ok[..|a|], e))
  {
    if a == [] {
      assert a + b == b && ok[0..] == ok;
    } else if !e.broken {
      assert (a + b)[1..] == a[1..] + b && ok[..|a|][1..] == ok[1..][..|a| - 1] && ok[1..][|a| - 1..] == ok[|a|..];
      ExecuteInTwo(f, a[1..], b, ok[1..], Act(f, e, a[0], ok[0]));
    }
  }

  lemma ExecuteLast(f: FloatText, a: seq<Action>, last: seq<Action>, ok: seq<bool>, e: Exec)
    requires |ok| == |a| + |last| && |last| <= 1
    ensures var before := Execute(f, a, ok[..|a|], e);
            Execute(f, a + last, ok, e)
            == if before.broken || last == [] then before else Act(f, before, last[0], ok[|a|])
  {
    ExecuteInTwo(f, a, last, ok, e);
    if last != [] {
      assert last[1..] == [] && ok[|a|..][0] == ok[|a|];
    }
  }

  predicate AllTrue(ok: seq<bool>) {
    forall i :: 0 <= i < |ok| ==> ok[i]
  }

  lemma {:induction false} SendsLength(replies: seq<Reply>)
    ensures |Sends(replies)| == |replies|
  {
    if replies != [] {
      SendsLength(replies[..|replies| - 1]);
    }
  }

  /** Replies either all go out, or those before the first failed write do and the Controller is lost. */
  lemma {:induction false} ExecuteSends(f: FloatText, replies: seq<Reply>, ok: seq<bool>, e: Exec)
      returns (sent: seq<Reply>)
    requires |ok| == |Sends(replies)| && !e.broken && (replies != [] ==> e.client)
    ensures sent <= replies && (sent == replies <==> AllTrue(ok))
    ensures Execute(f, Sends(replies), ok, e)
            == if sent == replies then e.(said := e.said + replies) else e.(said := e.said + sent).LoseClient(f)
  {
    sent := [];
    assert e.said + [] == e.said;
    if replies != [] {
      var n := |replies| - 1;
      var front, last := replies[..n], replies[n];
      SendsLength(replies);
      SendsLength(front);
      assert Sends(replies) == Sends(front) + [Send(last)];
      sent := ExecuteSends(f, front, ok[..n], e);
      ExecuteLast(f, Sends(front), [Send(last)], ok, e);
      assert AllTrue(ok) <==> AllTrue(ok[..n]) && ok[n];
      assert replies == front + [last];
      if sent == front && ok[n] {
        sent := replies;
        assert e.said + replies == (e.said + front) + [last];
      }
    }
  }

  /** Everything before the dispatch, when the Controller is connected if anything is to be said. */
  function Before(f: FloatText, e: Exec, b: Batch, sent: seq<Reply>): Exec
    requires sent <= b.replies
  {
    var e1 := if b.stop then e.Raise(L.StopRequested) else e;
    var e2 := e1.(said := e1.said + sent);
    if sent != b.replies then e2.LoseClient(f)
    else
      var e3 := if b.disconnect then e2.(client := false) else e2;
      if b.fail then e3.Raise(L.ProfileStateUnknown) else e3
  }

  lemma ExecuteSaying(f: FloatText, e: Exec, stop: bool, replies: seq<Reply>, ok: seq<bool>)
      returns (sent: seq<Reply>)
    requires !e.broken && (replies != [] ==> e.client)
    requires |ok| == |(if stop then [RequestStop] else []) + Sends(replies)|
    ensures sent <= replies && (AllTrue(ok) ==> sent == replies)
    ensures var first := if stop then e.Raise(L.StopRequested) else e;
            Execute(f, (if stop then [RequestStop] else []) + Sends(replies), ok, e)
            == if sent == replies then first.(said := first.said + replies)
               else first.(said := first.said + sent).LoseClient(f)
  {
    var head := if stop then [RequestStop] else [];
    var first := if stop then e.Raise(L.StopRequested) else e;
    ExecuteInTwo(f, head, Sends(replies), ok, e);
    assert Execute(f, head, ok[..|head|], e) == first by {
      if stop {
        assert head[1..] == [];
      }
    }
    sent := ExecuteSends(f, replies, ok[|head|..], first);
  }

  lemma ExecuteBefore(f: FloatText, e: Exec, b: Batch, ok: seq<bool>) returns (sent: seq<Reply>)
    requires |ok| == |BeforeDispatch(b)| && !e.broken && (b.replies != [] ==> e.client)
    ensures sent <= b.replies
    ensures Execute(f, BeforeDispatch(b), ok, e) == Before(f, e, b, sent)
    ensures AllTrue(ok) ==> sent == b.replies
  {
    var stop := if b.stop then [RequestStop] else [];
    var disconnect := if b.disconnect then [Disconnect] else [];
    var fail := if b.fail then [FailSession] else [];
    var a1 := stop + Sends(b.replies);
    var a2 := a1 + disconnect;
    sent := ExecuteSaying(f, e, b.stop, b.replies, ok[..|a1|]);
    ExecuteLast(f, a1, disconnect, ok[..|a2|], e);
    assert ok[..|a2|][..|a1|] == ok[..|a1|];
    ExecuteLast(f, a2, fail, ok, e);
    assert BeforeDispatch(b) == a2 + fail;
  }

  /** The effect of a whole batch in one step: the longest prefix of the replies that could be written went out; only
      if that is all of them are the disconnect, the failure and the dispatch carried out. */
  lemma ExecuteBatch(f: FloatText, e: Exec, b: Batch, ok: seq<bool>) returns (sent: seq<Reply>)
    requires |ok| == |Actions(b)| && !e.broken && (b.replies != [] ==> e.client)
    ensures sent <= b.replies && (AllTrue(ok) ==> sent == b.replies)
    ensures var before := Before(f, e, b, sent);
            Execute(f, Actions(b), ok, e)
            == if sent != b.replies || b.dispatch.None? then before
               else Act(f, before, Dispatch(b.dispatch.value), ok[|ok| - 1])
  {
    hide Handle, BeforeDispatch;
    sent := ExecuteBefore(f, e, b, ok[..|BeforeDispatch(b)|]);
    ExecuteLast(f, BeforeDispatch(b), Last(b), ok, e);
  }

  // ----- Write failures are exact -----

  /** An event after which the batch of its actions is executed. */
  predicate Executed(event: Event) {
    !event.Disconnected? && !event.WriteFailed?
  }

  /** Handling one event and executing its batch. A Controller is connected exactly while the control plane thinks so;
      an attaching one has just been accepted. */
  function HandleAndExecute(f: FloatText, e: Exec, event: Event, ok: seq<bool>): Exec
    requires |ok| == |Handle(f, e.plane, event).1|
  {
    var (plane, actions) := Handle(f, e.plane, event);
    Execute(f, actions, ok, e.(plane := plane, client := e.client || event.Attached?))
  }

  /** After a batch both sides agree whether a Controller is attached. The record of a change in flight disappears
      exactly when its frame was not sent because a reply before it could not be written; then the conversation and
      the helper's socket are untouched. Otherwise a dispatch either wrote the frame of the change in flight, or the
      conversation is reported lost. A requested stop and a failed Session are always reported. `e` is the state before
      the event, `handled` the plane after it, `r` the state after the execution. */
  predicate Exact(f: FloatText, e: Exec, handled: Plane, b: Batch, r: Exec) {
    && r.client == r.plane.attached
    && r.plane.confirmed == handled.confirmed
    && (r.plane.inFlight.Some? ==>
          handled.inFlight.Some? && r.plane.inFlight.value.change == handled.inFlight.value.change)
    && (b.dispatch.None? ==>
          && r.conversation == e.conversation && r.frames == e.frames
          && r.plane.inFlight.Some? == handled.inFlight.Some?
          && (!b.stop && !b.fail ==> r.events == e.events))
    && (b.dispatch.Some? ==>
          && handled.inFlight.Some? && handled.inFlight.value.change == b.dispatch.value
          && (r.plane.inFlight.None? ==>
                !r.client && r.conversation == e.conversation && r.frames == e.frames && r.events == e.events)
          && (r.plane.inFlight.Some? ==> FrameOrLoss(f, e, b.dispatch.value, r)))
    && (b.stop ==> r.events == e.events + [L.StopRequested] && handled.stopping)
    && (b.fail ==> r.events == e.events + [L.ProfileStateUnknown] && handled.failed)
  }

  predicate FrameOrLoss(f: FloatText, e: Exec, change: Change, r: Exec) {
    var (begun, frame) := Begin(e.conversation, f, change);
    && r.conversation == begun
    && (|| (frame.Some? && r.frames == e.frames + [frame.value] && r.events == e.events)
        || (r.frames == e.frames && r.events == e.events + [L.ConversationLost]))
  }

  lemma WriteFailureIsExact(f: FloatText, e: Exec, event: Event, ok: seq<bool>) returns (b: Batch)
    requires Good(f, e.plane) && !e.broken && e.client == e.plane.attached && Executed(event)
    requires event.Attached? ==> !e.client
    requires |ok| == |Handle(f, e.plane, event).1|
    ensures Handle(f, e.plane, event).1 == Actions(b)
    ensures b.dispatch == PendingDispatch(Handle(f, e.plane, event).0)
    ensures Exact(f, e, Handle(f, e.plane, event).0, b, HandleAndExecute(f, e, event, ok))
  {
    b := BatchShape(f, e.plane, event);
    var handled := Handle(f, e.plane, event).0;
    var start := e.(plane := handled, client := e.client || event.Attached?);
    var sent := ExecuteBatch(f, start, b, ok);
    if sent != b.replies {
      assert handled.attached || b.disconnect;
    } else if b.dispatch.Some? {
      DispatchIsExact(f, Before(f, start, b, sent), b.dispatch.value, ok[|ok| - 1]);
    }
  }

  lemma DispatchIsExact(f: FloatText, e: Exec, change: Change, ok: bool)
    ensures var r, (begun, frame) := Act(f, e, Dispatch(change), ok), Begin(e.conversation, f, change);
            && r.plane == e.plane && r.client == e.client && r.conversation == begun
            && (|| (frame.Some? && r.frames == e.frames + [frame.value] && r.events == e.events)
                || (r.frames == e.frames && r.events == e.events + [L.ConversationLost]))
  {
  }
}
