# NetLagLab control path

NetLagLab runs one Workload in a network namespace of its own and shapes its traffic while it runs. A Supervisor process
talks to a Controller over a local socket and to a privileged helper over another one; the helper prepares and removes the
Network Environment and shapes it. This project models the code that decides what happens: the Controller control plane,
the Supervisor-helper conversation, the Session lifecycle, the Network Environment transaction with its recovery journal,
shaping, the route check, and the texts that travel between the processes. Sockets, processes and the kernel are
environment steps that may answer anything.

`dafny verify dfyconfig.toml` checks everything. Each module stands for one component; where the source changes an object
step by step, a class with the same fields is proved against a function on values, and the properties below are proved of
those functions and of whole runs.

Three conventions recur. A `double` is a `real` together with a record `FloatText` of what the C++ library does with its
text; theorems that depend on the library take `Faithful` (printing and reading back gives the same number) or
`RoundsInRange` (reading a decimal up to 100 gives a number in that range) as hypotheses. Nondeterminism is either an
explicit argument (an event, a script of answers, the results of writes) or an arbitrary value inside a class method. Byte
streams are cut at arbitrary places.

## Model

| member | source | states |
|---|---|---|
| `ProfileChannels.AgreementOverBytes` | src/helper_session.cpp:179-211 | Over byte channels, in every interleaving and fragmentation, as long as the conversation was not reported lost: helper and Supervisor have the same confirmed profile, or the Supervisor's with the change in flight applied while the next line it will read is `PROFILE_OK` or that result waits to be handled; no legal frame is refused and the Supervisor never fails on message order |
| `ProfileChannels.OneOutstandingOverBytes` | src/helper_protocol.cpp:509-624 | Counting the lines both sides have still to read, at most one Profile Change is outstanding from end to end and it is the one in flight; behind a stop command no frame follows; a helper that was told to stop has none to read |
| `ProfileAgreement.ProfilesAgree` | src/controller_control_plane.cpp:697-737 | The same agreement and order for the protocol on whole messages, for every run of control plane, executor, both conversations, adapter and lifecycle |
| `ProfileAgreement.StepKeeps` | src/session.cpp:267-382 | The invariant behind it survives every step of either process and of the environment |
| `ProfileAgreement.ObeyAccepts` | src/helper_main.cpp:381-462 | In every state the invariant allows, the helper accepts the next command: a frame is followed by its answer, a stop by nothing |
| `ProfileLoss.LostExactlyWhen` | src/session.cpp:442-486 | Without a failure of the environment a step loses the conversation if and only if it handles the answer to a change after the end of the Workload was already read, and a queued change comes before any queued detach |
| `ProfileLoss.DrainDispatches` | src/controller_control_plane.cpp:627-639 | Draining the queue dispatches a change exactly when one is reached before a detach |
| `LostConversation.LossIsReachable` | src/control_plane_action_executor.cpp:42-47 | For any two changes typed in one read there is a run without any failure in which the conversation is lost |
| `LostConversation.ReliableRunsMayLose` | src/control_plane_action_executor.cpp:42-47 | Such lines exist, so agreement cannot be had without the exception for a lost conversation |
| `ProfileProtocol.AdapterConfirmsWhatItReports` | src/helper_session.cpp:179-211 | For every profile and change, legal or not: when the adapter reports the change applied its profile is the changed one, and otherwise it is the old one; what it must report is stated by `ProfileProtocol.AdapterDecides` |
| `ProfileProtocol.AdapterDecides` | src/helper_session.cpp:179-211 | Exactly what the adapter must do: a legal change of anything but bandwidth is confirmed and reported applied if and only if it changes nothing or the kernel reports it applied, and a restored or unknown kernel keeps the profile with the matching answer; any other change is refused; the confirmed profile stays legal and without bandwidth |
| `ProfileAnswers.FrameIsAnswered` | src/helper_main.cpp:381-462 | Over every run on messages, as long as the conversation was not reported lost: a frame the helper reads is answered with the line that is due, `PROFILE_OK` exactly when the change is not about bandwidth and changes nothing or was applied by the kernel, and the confirmed profile moves exactly then |
| `ProfileAnswers.FrameIsAnsweredOverBytes` | src/helper_main.cpp:381-462 | The same over bytes, in every interleaving and fragmentation: when a reading completes the frame of a legal change, exactly the due line is written and nothing else |
| `ProfileAnswers.TakenLinesAreMessages` | src/helper_protocol.cpp:523-624 | After the greeting the Supervisor takes from any line either nothing, which loses the conversation, or exactly what it takes from one of the messages, with its value in range |
| `ProfileAnswers.TakenCommandsAreCanonical` | src/helper_protocol.cpp:193-241 | Every line the helper takes as a command is, byte for byte, that command's line, and a change in it is legal |
| `ProfileProtocol.PerformSummary` | src/session.cpp:425-434 | However the writes of a batch end, it either puts nothing on the helper's socket or writes the one frame of the change now in flight, to a conversation that was idle |
| `ProfileChannels.CommandStep` | src/helper_protocol.cpp:342-392 | From the line of a command the helper accepts exactly what it accepts from the command |
| `ProfileChannels.MessageStep` | src/helper_protocol.cpp:523-624 | From the line of a message that is in order the Supervisor takes exactly that message |
| `ProfileChannels.FragmentOf` | src/socket_io.cpp:231-241 | Any fragment of a stream completes some of its lines and leaves a stream that carries the others, within the size limit |
| `HelperConversations.SupervisorHelperConversation.ReceiveBytes` | src/helper_protocol.cpp:523-624 | The receive loop is a run of the line automaton over buffer and new bytes |
| `HelperConversations.SupervisorHelperConversation.BeginProfileChange` | src/helper_protocol.cpp:509-521 | A change begins only while active and idle, and yields its serialized frame |
| `HelperConversations.HelperRuntimeConversation.ReceiveBytes` | src/helper_protocol.cpp:342-392 | The same for the helper's commands; the error text is the answer of the call that breaks the conversation and of no other |
| `HelperConversations.HelperRuntimeConversation.CompleteProfileChange` | src/helper_protocol.cpp:394-411 | A completion answers only a pending change of a valid conversation, and an unknown state is remembered |
| `HelperConversations.SupervisorFragmentation` | src/helper_protocol.cpp:523-624 | The Supervisor sees the same events, size failures and final state however the bytes are cut |
| `HelperConversations.RuntimeFragmentation` | src/helper_protocol.cpp:342-392 | The same for the commands the helper accepts |
| `HelperConversations.ConversationsStaySettled` | src/helper_protocol.cpp:342-392 | Every reading leaves a state to which fragmentation independence applies again |
| `LineMachines.ReceiveInTwo` | src/helper_protocol.cpp:523-624 | Receiving two pieces one after the other is receiving them at once, for every line automaton with a size limit |
| `LineMachines.OverlongLineBreaks` | src/helper_protocol.cpp:523-624 | The size limit is exact: at the first line beyond it, complete or not, a machine that is still alive breaks, and what was read before counts |
| `Lines.SplitAppend` | src/socket_io.cpp:231-241 | Cutting a stream at newlines does not depend on where it was interrupted |
| `Lines.PrefixOfText` | src/socket_io.cpp:231-241 | A prefix of a text of lines holds some of the lines and leaves the text of the others |
| `ProfileWire.SplitWireTokens` | src/helper_protocol.cpp:48-70 | The scanning loop computes the tokens of a line |
| `ProfileWire.HasCanonicalUnsignedSpelling` | src/helper_protocol.cpp:102-113 | The loop accepts exactly the digit strings without superfluous zeros |
| `ProfileWire.TokensOfJoin` | src/helper_protocol.cpp:48-70 | Splitting finds the tokens that were joined by single spaces |
| `ProfileWire.JoinOfTokens` | src/helper_protocol.cpp:48-70 | Splitting succeeds on nothing else |
| `ProfileWire.FrameRoundTrip` | src/helper_protocol.cpp:243-282 | The frame of every legal change is one short line in which the helper reads that change, over the full 64-bit ranges |
| `ProfileWire.FrameIsCanonical` | src/helper_protocol.cpp:193-241 | Every accepted frame is, byte for byte, the one serialized from the change it denotes |
| `ProfileWire.OnlyLegalChangesAreSent` | src/helper_protocol.cpp:243-282 | A frame is written exactly for the changes with a legal value |
| `NetworkProfile.Validate` | src/network_profile.cpp:9-45 | The validation errors, outbound before inbound; none exactly for valid profiles |
| `NetworkProfile.ErrorsAreExact` | src/network_profile.cpp:9-45 | An error is among them exactly when its direction's setting has its problem |
| `NetworkProfile.ApplyProfileChange` | src/network_profile.cpp:47-125 | Copying, assigning and validating is the specified application of a change |
| `NetworkProfile.AcceptedIffValid` | src/network_profile.cpp:47-125 | On a valid profile exactly the changes with a legal value are accepted, and the result is valid |
| `NetworkProfile.AppliesOneSetting` | src/network_profile.cpp:47-125 | An accepted change moves one setting of one direction and nothing else; a reset puts its default back |
| `ControllerCommands.Tokenize` | src/controller_control_plane.cpp:35-53 | The scanning loop computes the words of a line |
| `ControllerCommands.ScaledIsExact` | src/controller_control_plane.cpp:150-169 | The overflow test by division refuses exactly the numbers whose scaled value does not fit |
| `ControllerCommands.LossRangeIsExact` | src/controller_control_plane.cpp:171-187 | The test on the text refuses exactly the decimals greater than 100 |
| `ControllerCommands.ParsedChangesAreSendable` | src/controller_control_plane.cpp:212-309 | Every change that any line parses to is legal, so the helper's frame exists for it; which change it is, is stated by `TypedCommands.EveryLineIsDecided` |
| `TypedCommands.WhateverTheLayout` | src/controller_control_plane.cpp:212-309 | Every way of typing a command, with any spaces and tabs, and its unit attached or apart, parses to exactly that command: that setting and direction with the number times 1, 1000 or as the loss, or the error of a value that does not fit; and likewise reset, help, status, stop and detach |
| `TypedCommands.TypedIsParsed` | src/controller_control_plane.cpp:482-523 | The same for any line with the words of a well-formed command |
| `TypedCommands.EveryLineIsDecided` | src/controller_control_plane.cpp:482-523 | Every line: the first flaw of its form is the error it gets, a line of separators is ignored, and any other line is a well-formed command and means what it says |
| `TypedCommands.SpacedWords` | src/controller_control_plane.cpp:35-53 | Whatever separates the words of a line, exactly they are found |
| `ControlPlane.ControllerControlPlane.HandleEvent` | src/controller_control_plane.cpp:641-779 | The object handles every event as the specified function of its state, including the actions in order |
| `ControlPlane.ControllerControlPlane.ProcessCommand` | src/controller_control_plane.cpp:570-625 | A command is answered, queued, dispatched or refused as specified |
| `ControlPlane.ControllerControlPlane.EnterStoppingState` | src/controller_control_plane.cpp:545-568 | Stopping drops the queue, the owed reply and a dispatch not yet executed |
| `ControlPlane.ControllerControlPlane.DrainQueuedCommands` | src/controller_control_plane.cpp:627-639 | Draining goes on until a change is in flight or the connection ends |
| `ControlPlane.ControllerControlPlane.DisconnectController` | src/controller_control_plane.cpp:535-543 | A disconnect drops buffer, queue and the owed reply and nothing else |
| `ControlPlaneBatches.HandleKeepsGood` | src/controller_control_plane.cpp:641-779 | Every event keeps the queue bounded by 32 and nonempty only while a change is in flight, and the terminal flags only rise |
| `ControlPlaneBatches.BatchShape` | src/controller_control_plane.cpp:469-478 | Every batch has at most one dispatch and it is last, a lifecycle stop is first, nothing is sent after a disconnect, a Session failure stands alone |
| `ControlPlaneBatches.EmittedOnce` | src/controller_control_plane.cpp:545-568 | Over any run the lifecycle stop and the Session failure are each emitted at most once |
| `ControlPlaneBatches.OneInFlight` | src/controller_control_plane.cpp:570-625 | A change is dispatched only when none is in flight, and only a result takes it out |
| `CommandDesk.EveryEventIsHeard` | src/controller_control_plane.cpp:641-779 | Every event does what a simple desk does that takes one line after the other and knows no generations, tagged queue or buffer of actions: errors answered at once, a 33rd waiting command ends the connection, a stop overtakes the queue and takes back a change not handed on, commands while stopping, an overlong line, results, failures and the end of the Workload; with the same replies in order, the same dispatch, the same disconnect and the same state |
| `CommandDesk.EveryRunIsHeard` | src/controller_control_plane.cpp:641-779 | So over every run from the start the control plane emits exactly what the desk does |
| `ActionExecutor.ExecuteControlPlaneActions` | src/control_plane_action_executor.cpp:9-51 | The loop over a batch, with its early break and the feedback of a failed write, is the specified execution |
| `ActionExecutor.ExecuteBatch` | src/control_plane_action_executor.cpp:9-51 | A batch sends the longest writable prefix of its replies, and goes on only if that is all of them |
| `ActionExecutor.WriteFailureIsExact` | src/control_plane_action_executor.cpp:17-50 | After every batch both sides agree on attachment, and the change in flight is dropped exactly when its frame was never sent because a reply before it failed |
| `RaisedEvents.RaisedOnce` | src/control_plane_action_executor.cpp:17-50 | Over any run, whatever writes fail, the executor raises at most one stop and at most one unknown profile state |
| `RaisedEvents.WhateverHappensIsDeliverable` | src/session_lifecycle.cpp:78-90 | So every active run with results in range, told of an unknown profile state only by the executor, publishes an outcome that can be delivered |
| `SequentialCommands.AnsweredInOrder` | src/controller_control_plane.cpp:570-639 | On one connection without errors, overflow and stop, in every fragmentation and interleaving with results, the replies are those of a sequential interpreter, in order of arrival; each status reports the fold of all confirmed changes |
| `SequentialCommands.DrainAnswers` | src/controller_control_plane.cpp:627-639 | Draining says what the interpreter says to the queued commands and stops where it stops |
| `SequentialCommands.AttachingIsFresh` | src/controller_control_plane.cpp:651-657 | A new connection starts such a conversation: no reply is owed to it that it did not ask for |
| `SessionLifecycle.RunSessionLifecycle` | src/session_lifecycle.cpp:10-183 | The loop makes the specified calls and publishes the specified outcome for every behaviour of its adapter; what that outcome is in terms of the events is stated by `LifecycleAccount.ResultIsTold` and `LifecycleAccount.RunIsAccounted` |
| `SessionLifecycle.TakeTurn` | src/session_lifecycle.cpp:30-169 | The branches of the loop body are the specified reaction to one event; that reaction is `LifecycleAccount.ReactionIsAccounted` |
| `SessionLifecycle.CloseSession` | src/session_lifecycle.cpp:172-180 | Reaping, finalizing and publishing, with their failures appended in this order |
| `SessionLifecycle.StopEscalation` | src/session_lifecycle.cpp:77-146 | In every run the stop requests are none, one termination, one kill, or a termination followed by a kill |
| `SessionLifecycle.DeadlinesAndResults` | src/session_lifecycle.cpp:31-36 | A limited wait happens only while active, where its expiry always escalates; after the Workload's result nothing is requested |
| `SessionLifecycle.FinishesInOrder` | src/session_lifecycle.cpp:172-182 | Every run that ends reaps, finalizes and publishes once each, in this order, whatever path it took |
| `SessionLifecycle.OutcomesAreWellFormed` | src/session_lifecycle.cpp:30-180 | A published outcome has a Workload result whenever nothing failed, and no failure twice unless the state was reported unknown twice; which result and failures they are is stated by `LifecycleAccount.ResultIsTold` and `LifecycleAccount.RunIsAccounted` |
| `LifecycleAccount.ResultIsTold` | src/session_lifecycle.cpp:30-180 | Over every script the published Workload result is told by the events waited for: the exit status or signal that ended the active phase, a start failure exactly for an activation that failed with 126 or 127, and otherwise none |
| `LifecycleAccount.ReactionIsAccounted` | src/session_lifecycle.cpp:30-169 | Which failure each event appends and which stop request it causes, from each phase and stage |
| `LifecycleAccount.RunIsAccounted` | src/session_lifecycle.cpp:30-180 | Over every script the published failures are those of the events in order, then a launcher not reaped, then a failed finalization; and the stop requests are those of the events |
| `WorkloadReport.RecordedResultIsTrue` | src/session.cpp:184-204 | Over every run of the protocol, whatever fails: a result the lifecycle has recorded is the one with which the Workload ended at the helper, with its own exit status, signal or start failure |
| `SessionOutcome.SerializesDeliverable` | src/controller_session_outcome.cpp:229-276 | The serializer accepts exactly the deliverable outcomes, each within 1024 bytes |
| `SessionOutcome.OutcomeArrives` | src/controller_session_outcome.cpp:278-294 | Under any fragmentation the parser asks for more until the last fragment and then returns the same outcome, failures in order |
| `SessionOutcome.PrefixParses` | src/controller_session_outcome.cpp:133-210 | A proper prefix of a block is incomplete, never an error |
| `SessionOutcome.PublishedOutcomesAreDeliverable` | src/session_lifecycle.cpp:30-180 | Every active run with results in range and at most one unknown-state report publishes an outcome the serializer accepts |
| `SessionOutcome.AcceptedUpToSpelling` | src/controller_session_outcome.cpp:40-81 | Whatever the parser accepts is deliverable, and it is the serialized block exactly when its number has no sign and no superfluous zero |
| `SessionOutcome.HasDuplicate` | src/controller_session_outcome.cpp:237-250 | The flags per failure find a repetition exactly when there is one |
| `SessionOutcome.ReadBlock` | src/controller_session_outcome.cpp:133-210 | The reading loop is the specified parser |
| `SessionOutcome.ControllerSessionOutcomeParser.Receive` | src/controller_session_outcome.cpp:278-294 | The receiver accumulates, limits and parses as specified |
| `SessionOutcome.SizeLimitIsExact` | src/controller_session_outcome.cpp:278-294 | Exactly what goes beyond 1024 bytes is refused for its size |
| `StartBlock.SerializeStartBlock` | src/workload_context.cpp:116-143 | A context is serialized exactly when it is acceptable |
| `StartBlock.StartBlockIsABijection` | src/workload_context.cpp:116-194 | Lines parse to a context exactly when that context is acceptable and they are its lines |
| `StartBlock.StartBlockArrives` | src/helper_protocol.cpp:286-335 | Every block the serializer accepts passes every receiver limit on every split: incomplete on each proper prefix, complete with the same context at its end |
| `StartBlock.LineLimitIsTight` | src/helper_protocol.cpp:302-308 | A largest context arrives, and with one more line of any content at any place the receiver refuses |
| `StartBlock.TooManyLinesAreRefused` | src/helper_protocol.cpp:302-308 | A receiver that has or is about to have more lines than the largest block always refuses |
| `StartBlock.HelperStartConversation.ReceiveBytes` | src/helper_protocol.cpp:286-335 | The receive loop is the specified reading |
| `StartBlock.UnhexOfHex` | src/workload_context.cpp:33-78 | Decoding gives back every encoded value without a zero byte, and refuses the others |
| `StartBlock.HexOfUnhex` | src/workload_context.cpp:56-78 | Every decodable text is the encoding of what it decodes to |
| `StatusText.StatusFits` | src/controller_control_plane.cpp:375-429 | Whatever the arguments contain, a status is at most 8192 bytes and there is room for its end |
| `StatusText.StatusIsOneBlock` | src/controller_control_plane.cpp:375-429 | `STATUS_END` is the last line of a status and no other |
| `StatusText.BuildStatus` | src/controller_control_plane.cpp:375-429 | The appending code writes the specified lines |
| `StatusText.AppendEscapedLimited` | src/controller_control_plane.cpp:311-356 | As many whole escaped pieces are appended as fit, and it is reported whether that was everything |
| `StatusText.FittingFits` | src/controller_control_plane.cpp:311-356 | The appended part is the longest that fits |
| `StatusText.EscapeIsInjective` | src/controller_control_plane.cpp:311-356 | Escaped text can be read back |
| `StatusText.UncutStatusTellsArguments` | src/controller_control_plane.cpp:375-429 | Two argument vectors shown without truncation are shown alike only if they are equal |
| `StatusText.WhatFitsIsShown` | src/controller_control_plane.cpp:375-429 | Arguments whose lines fit are all shown whole, and no truncation is reported |
| `StatusReading.StatusReadsBack` | src/controller_control_plane.cpp:375-429 | From the lines of any status, whatever the arguments are, a reader gets back every setting of each direction below that direction's heading, whether the Session is stopping, the process, and whether the profile is shaped |
| `ReplyMeaning.RepliesAreTold` | src/controller_control_plane.cpp:375-467 | No two replies are written alike; two status replies that look alike agree in everything they show |
| `ReplyMeaning.TextsMean` | src/controller_control_plane.cpp:697-737 | Which text means what: `PROFILE_CHANGED` exactly a change that was applied, the message that the previous profile remains exactly one that was not, and likewise for attaching, stopping, detaching, refusals and each parse error |
| `AttachClient.AttachedController.Read` | src/attach_client.cpp:167-228 | The client's reading loop is the specified one, with its response block and its outcome parser |
| `AttachClient.ReplyAccepted` | src/attach_client.cpp:93-165 | The client reads every reply of the control plane, and only a detachment ends it |
| `AttachClient.ClientUnderstandsEverything` | src/attach_client.cpp:93-228 | Any sequence of replies, followed by an outcome block or by nothing, in any fragmentation, is consumed without an invalid response, and unless it detaches the client ends exactly with the outcome, with code 1 if any part of the infrastructure failed and 0 if none did |
| `AttachClient.ReportedAsCode` | src/attach_session_presentation.cpp:9-47 | A deliverable outcome is reported as valid, with an exit code that tells whether its infrastructure failed |
| `AttachClient.InvalidLines` | src/attach_client.cpp:93-165 | Outside a block exactly the lines that are neither a known word nor an error are invalid; which lines end the client, and with which code; inside a block nothing is invalid |
| `AttachClient.LimitsAreExact` | src/attach_client.cpp:167-228 | The client gives up exactly on an unfinished line beyond 8192 bytes and on an outcome its parser refuses |
| `NetworkTransaction.OperationDeadline` | src/network_environment/network_environment.cpp:2223-2228 | Five seconds ahead, or the transaction's deadline if that is sooner |
| `NetworkTransaction.PrepareNetworkEnvironment` | src/network_environment/network_environment.cpp:2545-2705 | The eleven steps on the owner's fields, with the rollback of the first failure, are the specified preparation |
| `NetworkTransaction.CleanupState` | src/network_environment/network_environment.cpp:2360-2441 | The removals on the owner's fields are the specified cleanup, whose calls, owner and failures are stated exactly by `TransactionProgress.CleanupIsExact` |
| `NetworkTransaction.CleanupConserves` | src/network_environment/network_environment.cpp:2360-2441 | Bounds for every adapter: at most four calls, each a removal of a proven root presenting its last proof, with a deadline five seconds ahead or at the end of the budget; an unconfirmed root is left alone; a residual exists exactly when a root is not confirmed gone, holds exactly what is left, and never comes without a failure; which removals must be made is `TransactionProgress.CleanupIsExact` |
| `TransactionProgress.CleanupIsExact` | src/network_environment/network_environment.cpp:2360-2441 | Every cleanup exactly: the removals due are those of the proven roots in the order connectivity, veth, namespace, and of the veth again exactly when it was left and the namespace then reported gone; all that begin within thirty seconds are called for and nothing else; the owner is what the answers say; a failure is recorded for each removal that left something, a timeout for exactly those that came too late |
| `TransactionProgress.CleanupEmpties` | src/network_environment/network_environment.cpp:2360-2441 | If every removal begins in time and reports the root gone, nothing is left and nothing is recorded |
| `NetworkTransaction.RetriesSpareUnconfirmed` | src/network_environment/network_environment.cpp:2540-2543 | Through any number of retries an unconfirmed root is never removed and stays unconfirmed |
| `NetworkTransaction.PreparedOrRolledBack` | src/network_environment/network_environment.cpp:2545-2705 | Success made every step once, in order and in time, and holds all three proofs; a failure is rolled back within a budget of its own, with a residual exactly when a root is not confirmed gone |
| `TransactionProgress.WorkingPreparation` | src/network_environment/network_environment.cpp:2545-2705 | When every step begins in time, succeeds and delivers its proof, the preparation succeeds with one call for each step in order, and owns the namespace, the placed pair and the connectivity that were reported |
| `TransactionProgress.FirstFailureIsReported` | src/network_environment/network_environment.cpp:2545-2705 | Otherwise the first step that is late or does not work is the one reported, with its stage and with the time, the adapter's cause or the missing proof as the cause, and exactly what the answers so far reported is rolled back |
| `OwnershipProofs.RemoveNamespace` | src/network_environment/network_environment.cpp:1322-1366 | What is looked up, deleted and reported when a namespace is removed, with the cause of a root that stays |
| `OwnershipProofs.RemoveProvenVeth` | src/network_environment/network_environment.cpp:1959-2014 | The same for a veth pair, placed or not |
| `OwnershipProofs.MovePeerIntoNamespace` | src/network_environment/network_environment.cpp:767-820 | The four outcomes of moving the peer, by what is seen afterwards |
| `OwnershipProofs.NamespaceDeletionAuthority` | src/network_environment/network_environment.cpp:1322-1366 | One delete at most, right after a look equal to the proof; gone, kept and unconfirmed are told by the last look alone |
| `OwnershipProofs.VethDeletionAuthority` | src/network_environment/network_environment.cpp:1959-2014 | The same for the pair; a placed pair whose namespace is not proven is never deleted |
| `DeletionAuthority.PerformOperation` | src/network_environment/network_environment.cpp:699-820 | The production adapter's methods answer the coordinator's operations as the composition assumes |
| `DeletionAuthority.WholeRunIsHistoric` | src/network_environment/network_environment.cpp:2360-2705 | Through preparation, rollback, cleanup and any number of retries every call presents only what the calls before it handed out |
| `DeletionAuthority.NamespaceProofOrigin` | src/network_environment/network_environment.cpp:699-729 | A namespace proof held at any point of a run is the identity seen right after the program made the namespace |
| `DeletionAuthority.VethProofOrigin` | src/network_environment/network_environment.cpp:731-820 | A veth proof held at any point is the pair seen right after it was made, or right after its peer was moved |
| `DeletionAuthority.DeletesOnlyWhatWasMade` | src/network_environment/network_environment.cpp:1322-1366 | In any whole run each delete command belongs to the removal of the root then held, comes right after a look that shows its proof, and that is the identity seen when the program made it |
| `RecoveryJournal.RecordRoundTrip` | src/network_environment/recovery_journal.cpp:69-134 | A written record reads back the same and fits the size limit |
| `RecoveryJournal.RecordIsCanonical` | src/network_environment/recovery_journal.cpp:87-134 | An accepted text is the one written for the record it denotes |
| `Connectivity.ConfigureConnectivity` | src/network_environment/network_environment.cpp:1139-1217 | The journal holds the token at every step before anything carries it; success means table, firewall and an applied record; whatever may exist is in the handle. On a reliable host it succeeds if and only if the checks and the user allow it, the journal is empty and, for firewalld, the zone has a name. After consent nothing is begun only when the journal was not read as empty or the record could not be written |
| `Connectivity.RemoveConnectivity` | src/network_environment/network_environment.cpp:1220-1311 | Reporting absence means no table, no rule, no policy and an empty journal; a foreign or unreadable journal is left alone |
| `Connectivity.ReconcilePendingState` | src/network_environment/network_environment.cpp:1369-1414 | Success means nothing is left and the journal is empty; with reliable tools it succeeds if and only if the firewall is not firewalld, or its policy is absent or has no zone yet; an empty journal needs nothing, and without the tools of its firewall nothing is touched |
| `Connectivity.RunProgram` | src/network_environment/network_environment.cpp:2709-2735 | One run reconciles, configures and removes with retries, keeping every intermediate point guarded by the journal. A reliable run that could reconcile configures exactly when it is allowed to, and after its first removal nothing is left and the journal is empty |
| `Connectivity.RunInterrupted` | src/network_environment/network_environment.cpp:1369-1414 | Any number of runs, each cut off at any step and followed by the loss of anything but the journal: a token is on the host only while the journal holds it, and no record is overwritten by another token |
| `Connectivity.FirewalldIsNotRecovered` | src/network_environment/network_environment.cpp:1768-1771 | A finished firewalld configuration is safe but not removable with the handle the reconciliation makes |
| `Shaping.ShapedEnvironment.SetSettings` | src/network_environment/network_environment.cpp:892-1006 | Success means the kernel has what was requested, a restored state that it has what it had; what is reported is decided by what was seen, look by look; with a reliable kernel the outcome is success exactly when the settings can be set and the tool is found, or nothing changes; a command runs only on an owned root just seen; the other direction is untouched |
| `Shaping.ShapedEnvironment.SetDirectionSettings` | src/network_environment/network_environment.cpp:2494-2521 | Stored settings, when present, match the kernel; unknown is absorbing per direction |
| `Shaping.ShapedEnvironment.ApplyChange` | src/helper_session.cpp:179-211 | Confirmed profile, stored settings and kernel stay equal, the answer is the one the protocol assumes of the adapter for what shaping reported, and that report is decided by what was seen: for every legal change of anything but bandwidth, with a reliable kernel, success exactly when the settings can be set. Knowledge of a direction is lost exactly when its state is reported unknown; refused changes touch nothing |
| `Shaping.TheCommandWorks` | src/network_environment/network_environment.cpp:938-990 | On every owned root the command chosen for settable settings, add, change or delete, is one that brings them about |
| `Shaping.AcceptedIffPlain` | src/helper_session.cpp:179-211 | On a confirmed profile every legal change is accepted and moves one direction only |
| `Shaping.MatchesOwned` | src/network_environment/network_environment.cpp:77-102 | Only an owned root matches any settings, and it fixes them up to the rounding of the loss |
| `Shaping.ProbabilityIsNearest` | src/network_environment/network_environment.cpp:64-75 | The loss probability is the nearest one, monotone and exact at both ends |
| `Ipv4Prefixes.OverlapIsExact` | src/network_environment/preflight.cpp:116-124 | The mask comparison holds exactly when the two address sets meet |
| `Ipv4Prefixes.PrefixLength` | src/network_environment/linux_preflight.cpp:62-77 | The bit loop accepts exactly the contiguous masks and finds the one length each was made from |
| `RouteDump.RouteDumpDecoder.Consume` | src/network_environment/preflight.cpp:216-308 | The decoder stays in bounds, terminates, sticks to a verdict, and reads a datagram as specified |
| `RouteDump.InspectRoute` | src/network_environment/preflight.cpp:44-112 | The attribute walk on offsets is the specified one |
| `RouteDump.ReadingIsExact` | src/network_environment/preflight.cpp:216-308 | A datagram leaves the dump open, completes it or shows a collision if and only if it is laid out as such, by RFC 3549 section 2.3.2 |
| `RouteDump.DumpIsExact` | src/network_environment/preflight.cpp:216-308 | Over any run of datagrams the verdict is complete exactly when a dump was read to a clean end with no non-default IPv4 route, of any table, meeting 10.200.0.0/30 |
| `RouteDump.AlignmentAdvances` | src/network_environment/preflight.cpp:243-247 | The alignment of a message length loses ground exactly for the last three lengths below 2^32 |
| `ControlPlane.ControllerControlPlane.ReceiveBytes` | src/controller_control_plane.cpp:740-778 | The loop over complete lines, and the limit on an incomplete one, are the specified reading |
| `ControlPlane.ControllerControlPlane.ReceiveResult` | src/controller_control_plane.cpp:697-737 | A result is confirmed, answered to the connection that asked, and followed by draining, or fails the Session if it does not belong to the change in flight |
| `HelperConversations.SupervisorHelperConversation.PeerClosed` | src/helper_protocol.cpp:626-637 | A closed peer loses the conversation unless it had already failed, or finished with nothing buffered |
| `HelperConversations.HelperRuntimeConversation.WorkloadFinished` | src/helper_protocol.cpp:413-418 | The end of the Workload drops the pending change and every buffered byte |
| `ActionExecutor.ExecuteAction` | src/control_plane_action_executor.cpp:17-50 | One action on the Controller's socket, the helper's socket and both objects, with its write succeeding or failing |
| `SessionLifecycle.PublishedFailures` | src/session_lifecycle.cpp:172-180 | How often each failure can be published, by how often the state was reported unknown |
| `SessionOutcome.LineReader.NextLine` | src/controller_session_outcome.cpp:106-131 | The reader moves over one complete line, or stays |
| `SessionOutcome.ControllerSessionOutcomeParser.Finish` | src/controller_session_outcome.cpp:296-307 | An input that ends before the outcome is complete is an error |
| `StartBlock.EncodeHex` | src/workload_context.cpp:33-43 | The appending loop writes two upper-case digits for each byte |
| `StartBlock.DecodeHexPairs` | src/workload_context.cpp:56-78 | The loop over pairs decodes as specified, refusing odd lengths, foreign characters and zero bytes |
| `StatusText.AppendArguments` | src/controller_control_plane.cpp:375-429 | The loop over the arguments writes as many lines as fit, and reports a cut |
| `NetworkTransaction.RemoveRoot` | src/network_environment/network_environment.cpp:2360-2441 | One removal on the owner's fields: the proof leaves the owner for the call and the reported state takes its place; when it must be made is `TransactionProgress.CleanupIsExact` |
| `NetworkTransaction.RunStep` | src/network_environment/network_environment.cpp:2545-2705 | One step of the setup, with the proof it must deliver |
| `OwnershipProofs.MakeNamespace` | src/network_environment/network_environment.cpp:699-729 | Success needs the command and a look that shows the namespace; what was seen is held in any case |
| `OwnershipProofs.MakeVeth` | src/network_environment/network_environment.cpp:731-765 | The same for the pair |
| `OwnershipProofs.ObserveVeth` | src/network_environment/network_environment.cpp:2023-2072 | What two or three link queries amount to |
| `OwnershipProofs.MoveKeepsProofs` | src/network_environment/network_environment.cpp:767-820 | A moved peer is a proof only if the pair was seen across the namespaces, and the old proof comes back only if exactly that pair was seen on the host |
| `Connectivity.RemoveFirewall` | src/network_environment/network_environment.cpp:1717-1791 | Success leaves no rule and no policy; on a reliable host it succeeds exactly when the policy can be recognized |
| `Connectivity.RemoveTable` | src/network_environment/network_environment.cpp:1220-1311 | A table is reported gone only when it is |
| `Shaping.ShapedEnvironment.TryAndRollBack` | src/network_environment/network_environment.cpp:892-1006 | A failed attempt on an owned root is rolled back, the report says what the kernel has and is decided by the looks after the attempt and after the rollback, and with a reliable kernel the attempt succeeds |
| `RouteDump.RouteDumpDecoder.FinishDump` | src/network_environment/preflight.cpp:249-273 | The end of the dump completes it, or reports the error it carries |
| `RouteDump.RouteDumpDecoder.ReportError` | src/network_environment/preflight.cpp:274-292 | An error message is reported with its magnitude, and a zero error is malformed |
| `AttachClient.AttachedController.BeginOutcome` | src/attach_client.cpp:167-228 | The line that begins an outcome hands the rest of the stream to its parser |

## Findings

- **A reliable Session may lose its conversation.** A whole read from the helper advances the conversation before the
  control plane sees any of its events (src/session.cpp:442-486). If the answer to a change and the end of the Workload
  arrive in one read, the change queued behind the first one is dispatched to a conversation that is no longer active, and
  the executor reports the conversation lost (src/control_plane_action_executor.cpp:42-47).
  docs/architecture/controller-control-plane.md:260-265 instead has the end of the Workload cancel the remaining queue and
  correctness never depend on how a read is cut.
  `ProfileLoss.LostExactlyWhen` gives the exact condition, `LostConversation.ReliableRunsMayLose` a run without any failure
  that gets there. The agreement theorems except runs whose conversation was reported lost, and nothing else.
- **A firewalld policy is not recovered after an interruption.** The reconciliation makes its handle from the record alone,
  and the record has no zone (src/network_environment/network_environment.cpp:1390-1407), so a policy that already has its
  zone is taken for a foreign one (src/network_environment/network_environment.cpp:1768-1771).
  `Connectivity.ReconcilePendingState` states when it succeeds, in both directions, and
  `Connectivity.FirewalldIsNotRecovered` shows a finished configuration that is not recovered. Nothing unsafe follows: the
  record stays.
- **Reading a Session Outcome is one-way.** The parser accepts superfluous zeros in the Workload's number, which the
  serializer never writes; `SessionOutcome.AcceptedUpToSpelling` says exactly when the text is the serialized one.
- **The alignment of a netlink message wraps near 2^32.** `RouteDump.AlignmentAdvances` names the lengths. The decoder is
  only given prefixes of a 65536-byte buffer (src/network_environment/linux_preflight.cpp:290), so they cannot occur.

## Left out

- Sockets, `poll`, `fork`, signals, namespaces and file modes: environment steps or parameters. The journal's file
  operations are one atomic step each.
- Everything after a conversation was reported lost: the lifecycle ends, and the agreement theorems claim nothing further.
- Library floating point: printing and parsing of a `double` are the record `FloatText`; `NaN` is one value that equals
  nothing legal, and the two zeros are one value.
- The Controller's connection generation is unbounded; the source counts in 64 bits.
- `ProfileChannels.AgreementOverBytes`: does not claim anything about frames left unread by a helper whose Workload has ended,
  because it reads no more.
- `SequentialCommands.AnsweredInOrder`: does not cover parse errors, queue overflow and stop, because the interpreter it
  refines has none; `CommandDesk.EveryEventIsHeard` covers every line and every event.
- `RouteDump.RouteDumpDecoder.Consume`: gives 2^31 for the magnitude of the most negative error number, whose negation is
  undefined in C++; header fields are read as on a little-endian host.
- `DeletionAuthority.DeletesOnlyWhatWasMade`: takes it that preflight, addressing, routing and connectivity run no command
  that deletes the namespace or the veth, because their command lines are not modelled.
- `Connectivity.ConfigureConnectivity`: takes the inspection of the host and the user's consent as one answer; the consent
  dialogue, its own deadline and the texts of `nft`, `ufw` and `firewall-cmd` are not modelled. Queries are truthful when
  their answer is definite.
- `NetworkTransaction.PreparedOrRolledBack`: does not cover the fresh deadline after a consent dialogue
  (src/network_environment/network_environment.cpp:1108-1132), nor how a single adapter call spends its time.
- The formatting of `tc` arguments (src/network_environment/network_environment.cpp:104-116): a command may leave any qdisc.
- `Shaping.TheCommandWorks`: a reliable kernel is one whose `tc` adds a root only where there is none and changes or deletes only
  the one the program made, with exactly the times and the probability asked for.
- `WorkloadReport.RecordedResultIsTrue`: does not say that a result is recorded, because the conversation may fail first;
  when the events arrive is `LifecycleAccount.ResultIsTold`.
- `AttachClient.ReportedAsCode`: the sentences printed beside the exit code are presentation.
- Which cause a failed removal of connectivity reports: the branches are modelled and their causes are not stated, because
  the commands' results are not recorded.
- Link and qdisc dumps: they repeat the bounded walk modelled for routes.
- The rest of the preflight check (tools, names, addresses), the host lock, resolver and NSS files, presentation strings,
  command line parsing and the legacy one-line outcome of the client: they would only add easy members.
