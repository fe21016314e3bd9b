# Verified models of a mesh bridge and of an ISDN stack

Four parts of the repository are modelled in Dafny and their central promises proved for every
input, every run or every reachable state.

**The spanning tree bridge** (`mesh/bridge`). `BridgeTypes` and `BridgeSpec` give a bridge as a value
and every entry point as a function on it; `BridgeObject` is the bridge as the kernel has it, an
object with port objects that loops change in place, and every method is proved to compute the
function. `BridgeRoles` proves what configuration update computes, `BridgeInvariant` and `BridgeRuns`
carry an invariant through every event, `BridgeProgress` pays for every step towards forwarding with a
timer expiry, and `BridgeTheorems` states what follows for whole runs. `BridgeEvents` follows one port
through runs, `BridgeNews` and `BridgeAnswers` say what every event makes a bridge tell and note,
`BridgeTicks` what a clock tick serves, and `BridgeDelays` how long forwarding takes. `Network` joins bridges by LANs
and shows that every settled state is a shortest-path tree without loops, `NetworkRuns` that no run of
announcements and clock ticks changes it; `SettledExample` is one. `BridgeExamples` reaches by runs the
two events that the runs exclude.
`BpduCodec` is the message format, with what 1/256-second ticks do to times on the way.

**The T.30 fax session** (`as/assistMIsdn/misc/faxl3.c`). `FaxSpec` gives the call machine, the modem
machine, the one-frame-at-a-time pipe and the page buffer as one value with its history; `FaxInvariant`
and `FaxRuns` carry the joint invariant through every event; `FaxTheorems`, `FaxRates` and
`FaxSessions` state modem modes, conservation of page bytes, descent of the rates and the bound on
trainings; `FaxRetry` states what a retry sends, and `FaxRounds` reaches by runs what is not promised.
`FaxAnswers` and `FaxFrames` tie what the session does to the frames it hears and sends, `FaxPages` says
how a page leaves frame by frame, and `FaxSettings` what no event changes.
`FaxObject` is the session in place, dispatched through the jump matrix of `Fsm`, which is proved to be
the node list it is filled from.

**The protocol stack registry** (`as/assistMIsdn/mcore`). `LayerMask` and `StackLayers` are the ordered
layer list of one stack, `StackRegistry` all stacks with their ids, `StackRuns` and `StackTheorems` the
distinctness of ids over every run, `StackIds` and `StackEvents` which id a new stack gets and what
registering and unregistering change, `RegistryObject` the lists in place with their search loops, and
`SetStack` the loop that builds the layers of a stack.

**Q.931 messages** (`as/assistMIsdn/mcore/l3helper.c`, `as/assistMIsdn/misc/i4l_mISDN.c`). `Q931` is the
message builder with its index of offsets, `CallNumbers` the writer and the reader of telephone numbers.

## What the model assumes

- Timers: running and started at a time, expired when now is at least start plus timeout
  (`mesh/mesh/include/mesh_fwd.h:104-137`); the hold time is one second (line 100 there). The clock,
  received frames, timer firings and calls from the application are inputs of a run.
- Port numbers of a bridge are distinct and lie in 1..255, the port list is fixed, path costs are
  positive, bridge ids in a network are distinct. A bridge id is the number its eight bytes spell.
- Events of a bridge: the root port is not brought up a second time, and no message usurps the root
  port; both conditions are proved to be exact, and both events can come up
  (`BridgeExamples.RootPortUpReached`, `BridgeExamples.UsurpsReached`).
- Fax: allocation and sending down succeed, pieces handed to `collect_page_data` have at most 1024
  bytes, a call is asked for only in the idle state. What the document parser yields at each call is an
  input. Only the events that the code generates occur. What a retry sends is stated for runs in which
  no piece handed over meanwhile is empty, as none is in the parser (`faxl3.c:1377-1432`).
- Registry: children are created only under stacks of the list, not under children; a stack is released
  when its instances are gone, masks are not empty and stay fixed while registered, and only registered
  instances unregister. What happens otherwise is shown by lemmas where it matters.
- Q.931: the octets an element announces are there to be read, and the message has room.

## Where the code does other than one would expect

- A retry after RTN sends the saved frames only. Bytes of the page that are still in `page_skb` are not
  sent again, because a retry asks the parser for nothing more (`faxl3.c:1099-1104`). The page is resent
  if and only if the buffer is empty when the RTN comes (`FaxRetry.RetrySends`), and a run where it is
  not is given (`FaxRounds.TailNotResent`).
- Fallbacks bound the trainings of a session only apart from pages answered with RTP, which train again
  at the same rate (`FaxSessions.RetrainingsBounded`, `FaxRounds.RetrainingsUnbounded`).
- Page data that comes while the modem has nothing left to take is queued, and not sent: only a confirmed
  frame sends the next one (`faxl3.c:1629-1634`), so nothing more of the page leaves until the modem goes
  idle (`FaxPages.Stalled`).
- The guard `> 0` on the rate index when a DIS ends (`faxl3.c:883`) never costs a call with the masks
  the code uses: the best common index is never 0 (`FaxSessions.RefusedIff`).
- `insertlayer` is documented to keep layers in decreasing order; it keeps them ascending.
- A child id is searched only among the children of its parent. With children under listed stacks only,
  ids stay distinct if and only if at most one listed stack that got no id has children
  (`StackTheorems.StackIdsInEveryRun`); `StackTheorems.ClashReached` is a run that breaks it, and
  `StackTheorems.GrandchildClashes` shows children of children.
- A mask without any of the eight layers counts as layer 0 in an instance id, so it can share the id of
  another instance of its stack (`StackTheorems.InstanceIdsInEveryRun` says exactly when,
  `StackTheorems.HighMaskClashReached` is a run).
- The loop of `set_stack` never ends successfully for a request with a bit beyond the eight layers, and
  can go round for ever (`SetStack.FinishableIff`, `SetStack.Build`, `SetStack.RepeatsReached`).
- A dot at the end of a telephone number is lost (`CallNumbers.NumbersReadBackIff`).
- The offset of an element is cut to 16 bits, so beyond 64K an entry locates its element only by
  coincidence (`Q931.LocatedIff`).

## Model

| member | source | states |
|---|---|---|
| BridgeRoles.RootSelectionIsMinimum | mesh/bridge/br_stp.c:55-130 | a port is chosen as root port if and only if it is eligible and beats every other eligible port in the order (root, cost through the port, sending bridge, sending port, own port id) |
| BridgeRoles.RootSelectionIgnoresOrder | mesh/bridge/br_stp.c:105-130 | two bridges whose port lists are permutations of each other choose the same root port, root and cost |
| BridgeRoles.RootIsSmallest | mesh/bridge/br_stp.c:62-67 | after root selection the bridge's root is no larger than the root recorded on any enabled port that is not its own |
| BridgeRoles.TakeoverImproves | mesh/bridge/br_stp.c:210-252 | right after root selection, a port that is not designated is taken over if and only if the bridge's offer is strictly better than its recorded (root, cost, bridge, port), although the test asks only whether the roots differ |
| BridgeRoles.RootPortKeptIff | mesh/bridge/br_stp.c:240-252 | the port just chosen as root port is taken over by designated port selection exactly when its path cost is negative, or zero with a bridge and port that lose against the bridge's own |
| BridgeRoles.UpdateAgrees | mesh/bridge/br_stp.c:333-337 | from any well-formed state configuration update makes root, cost, root port and every port record agree with each other |
| BridgeRoles.AgreementIsFixpoint | mesh/bridge/br_stp.c:333-349 | the states whose cached roles agree are exactly the fixed points of configuration update |
| BridgeRoles.UpdateIsIdempotent | mesh/bridge/br_stp.c:333-337 | a second configuration update changes nothing |
| BridgeRoles.UpdateResult | mesh/bridge/br_stp.c:333-349 | after an update every enabled port carries the bridge's root and a vector no worse than the bridge's own offer there, and the root port is not designated |
| BridgeRoles.RootPortNamed | mesh/bridge/br_stp.c:39-52 | with agreeing roles a bridge is root exactly when it names no root port, and a named root port is found in the list, enabled and not designated |
| BridgeInvariant.TransmitKeeps | mesh/bridge/br_stp.c:145-181 | transmitting on an enabled designated port keeps roles, states, pending flags, hold time spacing and the log of messages in order |
| BridgeInvariant.GenerationKeeps | mesh/bridge/br_stp.c:312-324 | announcing on every designated port keeps the invariant |
| BridgeInvariant.StateSelectionRestores | mesh/bridge/br_stp.c:390-413 | state selection turns agreeing roles with stale port states into the full invariant |
| BridgeInvariant.DetectionKeeps | mesh/bridge/br_stp.c:293-309 | topology change detection keeps the invariant, and never starts the TCN timer on the root |
| BridgeInvariant.BecomeRootKeeps | mesh/bridge/br_stp.c:133-142 | becoming root keeps the invariant and leaves the TCN timer stopped |
| BridgeInvariant.ReconfigureAndPromote | mesh/bridge/br_stp_if.c:99-121 | update, state selection and possible promotion to root restore the invariant from any state that is merely stale |
| BridgeRuns.ReceivedConfigKeepsIff | mesh/bridge/br_stp.c:423-460 | a received configuration message breaks the invariant exactly when it claims to come from the very port that hears it, beats what that port recorded, no other port leads to the root, and a topology change is still being notified |
| BridgeRuns.ReceivedTcnKeeps | mesh/bridge/br_stp.c:463-475 | a received topology change notification keeps the invariant |
| BridgeRuns.EnablePortKeeps | mesh/bridge/br_stp_if.c:29-39 | bringing up a port that is not the root port keeps the invariant |
| BridgeRuns.DisablePortKeeps | mesh/bridge/br_stp_if.c:99-121 | taking a port down keeps the invariant, also when it was the root port |
| BridgeRuns.ChangeBridgeIdKeeps | mesh/bridge/br_stp_if.c:124-151 | a new address keeps the invariant |
| BridgeRuns.SetBridgePriorityKeeps | mesh/bridge/br_stp_if.c:177-201 | a new bridge priority keeps the invariant |
| BridgeRuns.SetPathCostKeeps | mesh/bridge/br_stp_if.c:223-228 | a new positive path cost keeps the invariant |
| BridgeRuns.CheckMessageAgeKeeps | mesh/bridge/br_stp_timer.c:55-78 | an expired message age timer keeps the invariant |
| BridgeRuns.CheckForwardDelayKeeps | mesh/bridge/br_stp_timer.c:81-97 | an expired forward delay timer keeps the invariant |
| BridgeRuns.CheckHoldKeeps | mesh/bridge/br_stp_timer.c:115-119 | an expired hold timer, and the pending message it releases, keep the invariant, hold time spacing included |
| BridgeRuns.CheckTimersKeeps | mesh/bridge/br_stp_timer.c:141-172 | a clock tick keeps the invariant |
| BridgeRuns.StepKeeps | mesh/bridge/br_stp.c:423-475 | every allowed event keeps the invariant |
| BridgeRuns.RunKeeps | mesh/bridge/br_stp.c:390-475 | the invariant holds after every run of allowed events at increasing times |
| BridgeProgress.RunPaid | mesh/bridge/br_stp.c:352-413 | over any run with the protocol on, a port is never further from blocking than its forward-delay expiries in that run account for |
| BridgeTheorems.RolesInEveryRun | mesh/bridge/br_stp.c:132-181 | in every run: roles are a fixed point of configuration update, root exactly when there is no root port, the root port is listed, enabled and not designated, the TCN timer runs only off the root |
| BridgeTheorems.PortsInEveryRun | mesh/bridge/br_stp.c:352-413 | in every run an enabled port is blocking exactly when it is neither root nor designated, forward delay runs exactly in listening and learning, message age exactly when not designated; a pending acknowledgement has a pending message, a pending message a running hold timer |
| BridgeTheorems.ForwardingTakesTwoExpiries | mesh/bridge/br_stp_timer.c:81-97 | every run from blocking to forwarding with the protocol on contains two forward-delay expiries of that port |
| BridgeTheorems.HoldTimeBetween | mesh/bridge/br_stp_timer.c:115-119 | two configuration messages on one port with no reset in between are at least the hold time apart |
| BridgeTheorems.MessagesInEveryRun | mesh/bridge/br_stp.c:145-181 | in every run configuration messages leave only enabled designated ports and carry exactly the vector recorded there, age 0 at the root and elsewhere the age of what the root port has heard plus one, the times and the topology change the bridge has at that moment and the acknowledgement due on the port; two on one port keep the hold time |
| BridgeTheorems.SilentWithoutProtocol | mesh/bridge/br_stp_bpdu.c:25-60 | without the protocol no message ever leaves, in any run |
| BridgeInvariant.ContentIs | mesh/bridge/br_stp.c:145-181 | what is about to be sent on an enabled designated port has that age, those times and those flags |
| BridgeEvents.PortDownIs | mesh/bridge/br_stp_if.c:99-121 | a port taken down is down with nothing pending and no timer running, and every other port is up exactly when it was |
| BridgeEvents.PortUpIs | mesh/bridge/br_stp_if.c:92-96 | a port brought up is up and designated, and every other port is up exactly when it was |
| BridgeEvents.DownStaysDown | mesh/bridge/br_stp_if.c:92-121 | over any run in which it is not brought up, a port that is down stays down and no message leaves it |
| BridgeEvents.StepGoes | mesh/bridge/br_stp.c:423-475 | an event that is not about a port leaves it up or down and its information as old as it was, and what is logged on the way says the same of it |
| BridgeEvents.PassedOnOlder | mesh/bridge/br_stp.c:145-181 | from an accepted message on, over any run without another one on that port, every message sent while that port is the root port has the age of the message, the time since and one more |
| BridgeNews.AcceptedIsPassedOn | mesh/bridge/br_stp.c:423-460 | a message accepted on the port that is then the root port is passed on: every other enabled designated port sends a message with the vector the bridge now holds, one older than the message heard, or keeps it waiting for a hold time that was running; times and topology change are those of the message, and an acknowledgement ends the notification |
| BridgeNews.AcceptedIsHeld | mesh/bridge/br_stp.c:184-192 | after an accepted message the port holds its vector, or a better offer of the bridge itself |
| BridgeNews.HelloIsTold | mesh/bridge/br_stp_timer.c:48-52 | when the hello time has passed every enabled designated port tells, and the timer starts again |
| BridgeNews.WaitingIsSent | mesh/bridge/br_stp_timer.c:115-119 | a message that waits is sent when the hold time has passed, with the acknowledgement that waits |
| BridgeNews.NewRootTells | mesh/bridge/br_stp_if.c:99-201 | a bridge that becomes root because a port goes down or by a new address or priority uses its own times, notes a topology change, stops notifying and tells so on every enabled designated port |
| BridgeNews.AgedRootTells | mesh/bridge/br_stp_timer.c:55-78 | so does a bridge whose last information from a better root has aged out |
| BridgeNews.NotificationIsNoted | mesh/bridge/br_stp.c:463-475 | a notification heard on an enabled designated port is acknowledged there; the root raises the topology change, another bridge notifies the root unless it already does; on any other port nothing happens |
| BridgeNews.ForwardingIsNoted | mesh/bridge/br_stp_timer.c:81-97 | a port that starts to forward on a bridge with a designated port is noted as a topology change |
| BridgeNews.PriorityIsSet | mesh/bridge/br_stp_if.c:177-201 | a new priority replaces the upper two octets of the bridge id and nothing else of it, and ports the bridge was designated on carry the new id |
| BridgeNews.AddressIsSet | mesh/bridge/br_stp_if.c:124-151 | a new address replaces the lower six octets of the bridge id and nothing else of it, and ports the bridge was designated on carry the new id |
| BridgeAnswers.InferiorIsAnswered | mesh/bridge/br_stp.c:434-457 | a message that is not accepted is answered on a designated port and changes nothing on any other |
| BridgeAnswers.HeardAgain | mesh/bridge/br_stp.c:255-283 | what a port holds is accepted again, and is as old as the message that repeats it |
| BridgeAnswers.LostRootNotifies | mesh/bridge/br_stp.c:434-447 | a root that gives way stops its hello timer and notifies the new root of a topology change it has noted |
| BridgeAnswers.BlockedIsNoted | mesh/bridge/br_stp.c:352-366 | an event that makes a port stop learning or forwarding leaves a topology change detected, unless it is a message that acknowledges one |
| BridgeAnswers.PathCostIsSet | mesh/bridge/br_stp_if.c:223-228 | a new path cost is the cost of that port and of no other |
| BridgeAnswers.RootStaysRoot | mesh/bridge/br_stp_if.c:124-151 | a root that changes its address stays root |
| BridgeTicks.HelloAtTick | mesh/bridge/br_stp_timer.c:141-172 | at a tick after the hello time the root sends on every enabled designated port that no hold time keeps back, whatever else the tick serves |
| BridgeTicks.NotificationAtTick | mesh/bridge/br_stp_timer.c:141-172 | at a tick at which the notification is due it is sent on the root port |
| BridgeTicks.ChangeEndsAtTick | mesh/bridge/br_stp_timer.c:141-172 | at a tick after the time for a topology change the root stops telling it, unless another one is noted in that tick |
| BridgeTicks.AgedAtTick | mesh/bridge/br_stp_timer.c:141-172 | at a tick at which the information of a port is too old it is forgotten and the port is designated |
| BridgeTicks.DelayAtTick | mesh/bridge/br_stp_timer.c:141-172 | at a tick at which nothing ages out a listening port learns and a learning port forwards exactly when its forward delay has passed |
| BridgeTicks.WaitingAtTick | mesh/bridge/br_stp_timer.c:141-172 | at a tick at which nothing ages out a message that waits is sent if its hold time has passed |
| BridgeTicks.IdleTick | mesh/bridge/br_stp_timer.c:141-172 | a tick at which no timer has run out changes nothing and sends nothing |
| BridgeDelays.ForwardingTakesTwoDelays | mesh/bridge/br_stp_timer.c:81-97 | over any run with the protocol on, a blocked port learns no sooner than one forward delay later and forwards no sooner than two |
| BridgeDelays.NeverListens | mesh/bridge/br_stp.c:369-387 | without the protocol no port ever begins to listen, in any run |
| BridgeTheorems.ReceivingNeverWorsens | mesh/bridge/br_stp.c:184-192 | hearing a message never leaves a worse (root, cost, bridge) record on the port, unless the message claims to come from that port |
| BridgeTheorems.EnablePortKeepsIff | mesh/bridge/br_stp_if.c:92-96 | bringing a port up keeps the invariant exactly when it is not the current root port |
| BridgeExamples.RootPortUpReached | mesh/bridge/br_stp_if.c:92-96 | every new bridge with one port has an allowed run to a state whose root port, brought up once more, breaks the invariant |
| BridgeExamples.UsurpsReached | mesh/bridge/br_stp.c:423-460 | every new bridge with one port has an allowed run to a state in which a message usurps the root port and breaks the invariant |
| Network.OneDesignatedPort | mesh/bridge/br_stp.c:210-252 | in a settled network a LAN has at most one designated port |
| Network.DesignatedPortOf | mesh/bridge/br_stp.c:210-283 | in a settled network a LAN with an enabled port has a designated port, whose vector all its ports hold |
| Network.ConnectedAgree | mesh/bridge/br_stp.c:105-130 | bridges that can reach each other agree about the root |
| Network.NoCheaperRoute | mesh/bridge/br_stp.c:105-130 | no route to the root costs less than root_path_cost |
| Network.FollowRootPort | mesh/bridge/br_stp.c:55-130 | following the root port leads to a bridge with strictly smaller cost and the same root |
| Network.RootRoute | mesh/bridge/br_stp.c:55-130 | following root ports ends at the root and costs exactly root_path_cost |
| Network.SettledIsShortestPathTree | mesh/bridge/br_stp.c:55-130 | every bridge of a settled network climbs by root ports to the smallest bridge id it can reach, at the price root_path_cost, which is the cheapest of all routes there |
| Network.NoLoop | mesh/bridge/br_stp.c:333-349 | root and designated ports of a settled network form no loop |
| Network.EveryLoopIsBlocked | mesh/bridge/br_stp.c:390-413 | in reachable settled states every loop of the wiring contains a blocked port |
| Network.AnnouncementsChangeNothing | mesh/bridge/br_stp.c:423-460 | in a settled network a designated port's message, heard by another port of its LAN, changes no role there |
| NetworkRuns.TickCalm | mesh/bridge/br_stp_timer.c:141-172 | a clock tick at which no message age has run out, with all its announcements, delayed messages and state changes, changes no role |
| NetworkRuns.SettledForever | mesh/bridge/br_stp.c:423-460 | over any run of announcements heard and of clock ticks at which no message age has run out, in any order and at any times, a settled network stays settled, every bridge keeps the run invariant, and no role changes |
| SettledExample.TwoLansSettle | mesh/bridge/br_stp.c:333-349 | a settled network with a loop in its wiring exists whose bridges all satisfy the run invariant, timers included: two bridges on two LANs, one port neither root nor designated |
| BpduCodec.MemcmpComparesNumbers | mesh/bridge/br_stp.c:55-102 | comparing ids byte by byte is comparing the numbers the bytes spell |
| BpduCodec.EncodeConfig | mesh/bridge/br_stp_bpdu.c:76-118 | the bytes written are exactly the frame layout of the message |
| BpduCodec.EncodeTcn | mesh/bridge/br_stp_bpdu.c:121-133 | the bytes written are a TCN frame |
| BpduCodec.SentIsReceived | mesh/bridge/br_stp_bpdu.c:138-199 | parsing a sent configuration frame, whatever padding follows, returns flags, ids, cost and port unchanged and each time as its ticks give it back |
| BpduCodec.TcnIsReceived | mesh/bridge/br_stp_bpdu.c:138-199 | a payload is taken for a TCN exactly when it is a TCN frame, and nothing is accepted while the protocol is off |
| BpduCodec.ReceivedWasEncoded | mesh/bridge/br_stp_bpdu.c:150-190 | the vector bytes of every accepted configuration frame are the encoding of the vector it is read as |
| BpduCodec.RelayedIs | mesh/bridge/br_stp_bpdu.c:61-73 | for HZ up to 256 a time comes back as itself or one jiffy less |
| BpduCodec.GcdLeavesOddPart | mesh/bridge/br_stp_bpdu.c:61-73 | for HZ up to 256, HZ divided by its greatest common divisor with 256 is HZ without its factors of two |
| BpduCodec.RelayExactIff | mesh/bridge/br_stp_bpdu.c:61-73 | a time comes back exactly if and only if it is a multiple of HZ / gcd(HZ, 256), and one jiffy short otherwise |
| BpduCodec.RelayChain | mesh/bridge/br_stp.c:195-201 | after k relays a time m has become m - k or the last multiple of HZ / gcd(HZ, 256) up to m, whichever is larger |
| BridgeObject.BridgeObject.FindRootPort | mesh/bridge/br_stp.c:105-122 | the loop over the ports ends with the number of the best eligible port, or 0 |
| BridgeObject.BridgeObject.RootSelection | mesh/bridge/br_stp.c:105-130 | the bridge object and its port objects, changed in place, become exactly what the operation on values gives; nothing else changes |
| BridgeObject.BridgeObject.ShouldBecomeDesignatedPort | mesh/bridge/br_stp.c:210-237 | the chain of comparisons decides the vector comparison of the specification |
| BridgeObject.BridgeObject.BecomeDesignatedPort | mesh/bridge/br_stp.c:340-349 | the bridge object and its port objects, changed in place, become exactly what the operation on values gives; nothing else changes |
| BridgeObject.BridgeObject.DesignatedPortSelection | mesh/bridge/br_stp.c:240-252 | the bridge object and its port objects, changed in place, become exactly what the operation on values gives; nothing else changes |
| BridgeObject.BridgeObject.ConfigurationUpdate | mesh/bridge/br_stp.c:333-337 | the bridge object and its port objects, changed in place, become exactly what the operation on values gives; nothing else changes |
| BridgeObject.BridgeObject.TransmitConfig | mesh/bridge/br_stp.c:145-181 | the bridge object and its port objects, changed in place, become exactly what the operation on values gives; nothing else changes |
| BridgeObject.BridgeObject.ConfigBpduGeneration | mesh/bridge/br_stp.c:312-324 | the bridge object and its port objects, changed in place, become exactly what the operation on values gives; nothing else changes |
| BridgeObject.BridgeObject.TransmitTcn | mesh/bridge/br_stp.c:204-207 | the bridge object and its port objects, changed in place, become exactly what the operation on values gives; nothing else changes |
| BridgeObject.BridgeObject.TopologyChangeDetection | mesh/bridge/br_stp.c:293-309 | the bridge object and its port objects, changed in place, become exactly what the operation on values gives; nothing else changes |
| BridgeObject.BridgeObject.MakeBlocking | mesh/bridge/br_stp.c:352-366 | the bridge object and its port objects, changed in place, become exactly what the operation on values gives; nothing else changes |
| BridgeObject.BridgeObject.MakeForwarding | mesh/bridge/br_stp.c:369-387 | the bridge object and its port objects, changed in place, become exactly what the operation on values gives; nothing else changes |
| BridgeObject.BridgeObject.PortStateSelection | mesh/bridge/br_stp.c:390-413 | the bridge object and its port objects, changed in place, become exactly what the operation on values gives; nothing else changes |
| BridgeObject.BridgeObject.BecomeRootBridge | mesh/bridge/br_stp.c:133-142 | the bridge object and its port objects, changed in place, become exactly what the operation on values gives; nothing else changes |
| BridgeObject.BridgeObject.SupersedesPortInfo | mesh/bridge/br_stp.c:255-283 | the chain of comparisons decides whether the message supersedes the record |
| BridgeObject.BridgeObject.RecordConfigInformation | mesh/bridge/br_stp.c:184-192 | the bridge object and its port objects, changed in place, become exactly what the operation on values gives; nothing else changes |
| BridgeObject.BridgeObject.RecordTimeoutValues | mesh/bridge/br_stp.c:195-201 | the bridge object and its port objects, changed in place, become exactly what the operation on values gives; nothing else changes |
| BridgeObject.BridgeObject.TopologyChangeAcknowledged | mesh/bridge/br_stp.c:286-290 | the bridge object and its port objects, changed in place, become exactly what the operation on values gives; nothing else changes |
| BridgeObject.BridgeObject.TopologyChangeAcknowledge | mesh/bridge/br_stp.c:416-420 | the bridge object and its port objects, changed in place, become exactly what the operation on values gives; nothing else changes |
| BridgeObject.BridgeObject.ReceivedConfigBpdu | mesh/bridge/br_stp.c:423-460 | the bridge in place becomes the specification's, and the run invariant is kept exactly when the message does not usurp the root port |
| BridgeObject.BridgeObject.ReceivedTcnBpdu | mesh/bridge/br_stp.c:463-475 | the bridge in place becomes the specification's, and the run invariant is kept |
| BridgeObject.BridgeObject.InitPort | mesh/bridge/br_stp_if.c:29-39 | the bridge object and its port objects, changed in place, become exactly what the operation on values gives; nothing else changes |
| BridgeObject.BridgeObject.EnablePort | mesh/bridge/br_stp_if.c:92-96 | the bridge object and its port objects, changed in place, become exactly what the operation on values gives; nothing else changes |
| BridgeObject.BridgeObject.DisablePort | mesh/bridge/br_stp_if.c:99-121 | the bridge object and its port objects, changed in place, become exactly what the operation on values gives; nothing else changes |
| BridgeObject.BridgeObject.ChangeBridgeId | mesh/bridge/br_stp_if.c:124-151 | the bridge object and its port objects, changed in place, become exactly what the operation on values gives; nothing else changes |
| BridgeObject.BridgeObject.SetBridgePriority | mesh/bridge/br_stp_if.c:177-201 | the bridge object and its port objects, changed in place, become exactly what the operation on values gives; nothing else changes |
| BridgeObject.BridgeObject.SetPathCost | mesh/bridge/br_stp_if.c:223-228 | the bridge object and its port objects, changed in place, become exactly what the operation on values gives; nothing else changes |
| BridgeObject.BridgeObject.CheckMessageAge | mesh/bridge/br_stp_timer.c:55-78 | the bridge object and its port objects, changed in place, become exactly what the operation on values gives; nothing else changes |
| BridgeObject.BridgeObject.IsDesignatedForSomePort | mesh/bridge/br_stp_timer.c:31-45 | true exactly when some enabled port is designated |
| BridgeObject.BridgeObject.ForwardDelayTimerExpired | mesh/bridge/br_stp_timer.c:81-97 | the bridge object and its port objects, changed in place, become exactly what the operation on values gives; nothing else changes |
| BridgeObject.BridgeObject.CheckHold | mesh/bridge/br_stp_timer.c:115-119 | the bridge object and its port objects, changed in place, become exactly what the operation on values gives; nothing else changes |
| BridgeObject.BridgeObject.CheckPortTimers | mesh/bridge/br_stp_timer.c:122-138 | the bridge object and its port objects, changed in place, become exactly what the operation on values gives; nothing else changes |
| BridgeObject.BridgeObject.CheckHello | mesh/bridge/br_stp_timer.c:48-52 | the bridge object and its port objects, changed in place, become exactly what the operation on values gives; nothing else changes |
| BridgeObject.BridgeObject.CheckTcn | mesh/bridge/br_stp_timer.c:100-105 | the bridge object and its port objects, changed in place, become exactly what the operation on values gives; nothing else changes |
| BridgeObject.BridgeObject.CheckTopologyChange | mesh/bridge/br_stp_timer.c:108-112 | the bridge object and its port objects, changed in place, become exactly what the operation on values gives; nothing else changes |
| BridgeObject.BridgeObject.Tick | mesh/bridge/br_stp_timer.c:141-172 | one tick serves every expired timer as the specification does, and the invariant of every run still holds |
| Fsm.ListIsFunction | as/assistMIsdn/mcore/fsm.c:16-31 | a function that agrees with every node of a list, and has a value only where there is a node, is what the list means |
| Fsm.CellsDistinct | as/assistMIsdn/mcore/fsm.c:30-30 | different (state, event) pairs have different cells, all inside the matrix |
| Fsm.JumpTable.constructor | as/assistMIsdn/mcore/fsm.c:16-31 | the filled matrix holds, for every state and event, the routine of the last node for them, and nothing for nodes outside the matrix |
| Fsm.JumpTable.Dispatch | as/assistMIsdn/mcore/fsm.c:38-67 | dispatch finds what the node list says, and nothing outside the matrix |
| FaxInvariant.TableIsList | as/assistMIsdn/misc/faxl3.c:1253-1282 | the node list of the call machine means the same as the table by state and event |
| FaxInvariant.AppendKeeps | as/assistMIsdn/misc/faxl3.c:1331-1362 | collecting keeps sent copy, queue and buffer in order and adds exactly the bytes |
| FaxInvariant.FlushKeeps | as/assistMIsdn/misc/faxl3.c:1363-1374 | flushing moves the buffer to queue and copy and loses nothing |
| FaxInvariant.RetryKeeps | as/assistMIsdn/misc/faxl3.c:1302-1326 | after the copy for a retry the queue and the buffer are the whole page again |
| FaxInvariant.SendDownKeeps | as/assistMIsdn/misc/faxl3.c:632-646 | what was sent and what waits grow by exactly the frame, with one frame unconfirmed at most |
| FaxInvariant.HandAllKeeps | as/assistMIsdn/misc/faxl3.c:1078-1096 | handing on all page frames keeps their order |
| FaxRuns.FallbackTries | as/assistMIsdn/misc/faxl3.c:609-617 | a fallback tries the next lower common rate, or finds that all have been tried |
| FaxRuns.ConnectsKeeps | as/assistMIsdn/misc/faxl3.c:704-714 | the modem coming up keeps the invariant of the session |
| FaxRuns.DisconnectsKeeps | as/assistMIsdn/misc/faxl3.c:732-738 | the modem going idle keeps it, through every handler for it |
| FaxRuns.ConfirmsKeeps | as/assistMIsdn/misc/faxl3.c:1846-1872 | a confirmed frame keeps it, whichever of the three sources the next one comes from |
| FaxRuns.StepKeeps | as/assistMIsdn/misc/faxl3.c:1253-1282 | every event keeps the invariant of the two machines, the rates, the pipe and the page |
| FaxTheorems.ModemInEveryRun | as/assistMIsdn/misc/faxl3.c:669-751 | in every run a receiving state has the modem connected in FRH, DCS and EOP in FTH, training and page in FTM at the negotiated rate; a modem waiting to connect has a mode and a rate; the call never reaches the states no handler enters |
| FaxTheorems.CollectsContent | as/assistMIsdn/misc/faxl3.c:1331-1375 | everything the parser yields is collected in order, and nothing else |
| FaxTheorems.PageInEveryRun | as/assistMIsdn/misc/faxl3.c:1056-1108 | in every run, while a page is sent, frames sent for it, downq, pageq and page_skb are together the preamble and everything collected; at most one frame is unconfirmed; saveq and page_skb are the whole page |
| FaxTheorems.RetryQueues | as/assistMIsdn/misc/faxl3.c:1197-1232 | after RTN the saved frames are queued again at the next lower common rate if this was not the fifth failure and there is such a rate, and otherwise the call ends; page_skb stays as it is |
| FaxRetry.PageSent | as/assistMIsdn/misc/faxl3.c:1078-1108 | when a page's queues have run empty the frames sent for it are the preamble and the saved frames, which is everything collected if and only if page_skb is empty |
| FaxRetry.RunGrows | as/assistMIsdn/misc/faxl3.c:1099-1104 | while a page is retried its bytes are only added to, and if none are, saved frames and page_skb stay as they are |
| FaxRetry.RetrySends | as/assistMIsdn/misc/faxl3.c:1197-1232 | a retry followed until its queues are empty, with no more bytes collected, has sent the preamble and exactly the frames saved when the RTN came: the page if and only if page_skb was empty then |
| FaxTheorems.CommonIsDescending | as/assistMIsdn/misc/faxl3.c:597-606 | the list of common rates has each of them once, in descending order |
| FaxTheorems.RatesInEveryRun | as/assistMIsdn/misc/faxl3.c:868-893 | in every run the rates tried since the last DIS are exactly the common rates from the best down to the current one, in descending order, and a DCS about to be sent announces the current one |
| FaxRates.StepRates | as/assistMIsdn/misc/faxl3.c:1023-1041 | of all events but the end of a DIS exchange exactly the failed trainings and the failed pages that may be sent again change the rate: to the next lower common one with a new training, or to none with all tried; an RTP page trains again at the same rate |
| FaxAnswers.TrainingAnswered | as/assistMIsdn/misc/faxl3.c:983-1041 | a failed training is followed by a DCS with the largest common rate below the one that failed, or by the end of the call if there is none; any other answer by the page at the same rate; a frame too short is ignored |
| FaxAnswers.FailuresVisit | as/assistMIsdn/misc/faxl3.c:1023-1041 | from the end of a DIS exchange on, after n failures the session has tried exactly the first n + 1 common rates and works at the last of them, in any run |
| FaxAnswers.PageAnswered | as/assistMIsdn/misc/faxl3.c:1166-1232 | a confirmed page is followed by the next one at the same rate, a page with RTP by a DCS and then the next one, the last page and any other answer by the end of the call; the next page starts with what was in the buffer and what the parser yields |
| FaxFrames.ConnectSpeaks | as/assistMIsdn/misc/faxl3.c:896-1134 | when the modem has connected the frames that belong to the state are queued and no others: identity and DCS, a second and a half of training zeros, the preamble, EOP after the last page and MPS before it, DCN |
| FaxFrames.RateIsAnnounced | as/assistMIsdn/misc/faxl3.c:515-540 | for every rate the DCS announces the speed and modulation that the modem then uses for training and page |
| FaxFrames.AnnouncedDiffer | as/assistMIsdn/misc/faxl3.c:515-540 | the rate can be read back from what the DCS announces |
| FaxFrames.DisIsKept | as/assistMIsdn/misc/faxl3.c:835-866 | a DIS overwrites at most twelve octets of the capabilities, and any other frame is ignored |
| FaxFrames.DisAnswered | as/assistMIsdn/misc/faxl3.c:835-893 | a DIS is answered with a DCS for the fastest rate it offers, and the call refused if it offers none |
| FaxPages.EndedPageIsSaved | as/assistMIsdn/misc/faxl3.c:1329-1375 | a page whose last piece is flushed is in the saved frames to the last byte |
| FaxPages.ConfirmedInPage | as/assistMIsdn/misc/faxl3.c:1845-1872 | a confirmed frame of a page sends the next one of the pipe, then of the page, then asks the parser, until the page's end is known |
| FaxPages.ConfirmedOutsidePage | as/assistMIsdn/misc/faxl3.c:906-919 | outside a page a confirmed frame sends the next one, and after the last one of a DCS, a training or an end of page there is no more |
| FaxPages.HandsOn | as/assistMIsdn/misc/faxl3.c:1079-1109 | what is queued of a page goes to the pipe in order, all of it once the end is known and otherwise the first frame |
| FaxPages.PageDrains | as/assistMIsdn/misc/faxl3.c:1845-1872 | as many confirmations as frames wait, and one, drain a page: everything saved for it has then been sent after the preamble |
| FaxPages.Stalled | as/assistMIsdn/misc/faxl3.c:1629-1634 | once the modem has taken everything, data that comes late is collected but not sent, in any run until the modem goes idle |
| FaxSettings.IdentityOnce | as/assistMIsdn/misc/faxl3.c:896-903 | no event changes own rates, identity and preamble; the identity is sent with the first DCS and never again |
| FaxRates.RateNeverRises | as/assistMIsdn/misc/faxl3.c:1197-1232 | from one DIS exchange on the rate never rises, and retrainings are exactly the rates tried since plus the pages answered with RTP |
| FaxSessions.CallHasOneDis | as/assistMIsdn/misc/faxl3.c:1253-1282 | a call that has negotiated a rate never ends another DIS exchange, in any run |
| FaxSessions.RetrainingsBounded | as/assistMIsdn/misc/faxl3.c:609-617 | every run of a new session trains at most eight times plus once for each page answered with RTP |
| FaxSessions.RefusedIff | as/assistMIsdn/misc/faxl3.c:869-893 | with the rate mask of a new session a peer is refused when the DIS ends if and only if its DIS names no rate, and the best common index is -1, 1, 4 or 7 |
| FaxRounds.RtpRetrains | as/assistMIsdn/misc/faxl3.c:1218-1223 | a page before the last answered with RTP sends the session back to the DCS |
| FaxRounds.RetrainingsUnbounded | as/assistMIsdn/misc/faxl3.c:1197-1232 | no bound holds without counting RTP pages: for every n a new session has an allowed run with n trainings |
| FaxRounds.RtnRetrains | as/assistMIsdn/misc/faxl3.c:1203-1209 | an RTN with a lower common rate left sends the session back to the DCS with the page as it was |
| FaxRounds.TailNotResent | as/assistMIsdn/misc/faxl3.c:1099-1104 | for every page that fits into one buffer and has not ended, in whatever pieces, a new session has an allowed run whose retry ends with all queues empty and nothing of the page sent |
| FaxObject.NumberedSame | as/assistMIsdn/misc/faxl3.c:1253-1282 | numbering states and events does not change what the node list means |
| FaxObject.Char20Buffer | as/assistMIsdn/misc/faxl3.c:582-595 | the buffer holds the first twenty characters in reverse, padded with spaces |
| FaxObject.FaxSession.constructor | as/assistMIsdn/misc/faxl3.c:2017-2047 | a new session is in the initial state of every run |
| FaxObject.FaxSession.CalcMaxRate | as/assistMIsdn/misc/faxl3.c:620-629 | the loop ends with the largest rate both sides can do, or -1 |
| FaxObject.FaxSession.LowerRate | as/assistMIsdn/misc/faxl3.c:611-615 | the loop stops at the next lower common rate, or below 0 |
| FaxObject.FaxSession.FallbackRate | as/assistMIsdn/misc/faxl3.c:609-617 | the session in place becomes exactly what the operation on values gives, history included |
| FaxObject.FaxSession.SetNewModulation | as/assistMIsdn/misc/faxl3.c:683-701 | the session in place becomes exactly what the operation on values gives, history included |
| FaxObject.FaxSession.RequestModulation | as/assistMIsdn/misc/faxl3.c:740-751 | the session in place becomes exactly what the operation on values gives, history included |
| FaxObject.FaxSession.SendDown | as/assistMIsdn/misc/faxl3.c:632-646 | the session in place becomes exactly what the operation on values gives, history included |
| FaxObject.FaxSession.SendHdlc | as/assistMIsdn/misc/faxl3.c:649-667 | the session in place becomes exactly what the operation on values gives, history included |
| FaxObject.FaxSession.FillDcs | as/assistMIsdn/misc/faxl3.c:500-539 | the session in place becomes exactly what the operation on values gives, history included |
| FaxObject.FaxSession.Collect | as/assistMIsdn/misc/faxl3.c:1331-1375 | the session in place becomes exactly what the operation on values gives, history included |
| FaxObject.FaxSession.CollectAll | as/assistMIsdn/misc/faxl3.c:1479-1601 | the session in place becomes exactly what the operation on values gives, history included |
| FaxObject.FaxSession.InitNewPage | as/assistMIsdn/misc/faxl3.c:815-823 | the session in place becomes exactly what the operation on values gives, history included |
| FaxObject.FaxSession.Requeue | as/assistMIsdn/misc/faxl3.c:1302-1326 | after the two loops queue and copy are both the saved frames, in order |
| FaxObject.FaxSession.CopyForRetry | as/assistMIsdn/misc/faxl3.c:1302-1326 | the session in place becomes exactly what the operation on values gives, history included |
| FaxObject.FaxSession.HandAllPages | as/assistMIsdn/misc/faxl3.c:1094-1096 | the loop hands on all queued page frames in order |
| FaxObject.FaxSession.ReceiveDis | as/assistMIsdn/misc/faxl3.c:826-866 | the session in place becomes exactly what the operation on values gives, history included |
| FaxObject.FaxSession.FinishDis | as/assistMIsdn/misc/faxl3.c:869-893 | the session in place becomes exactly what the operation on values gives, history included |
| FaxObject.FaxSession.DoDcs | as/assistMIsdn/misc/faxl3.c:896-904 | the session in place becomes exactly what the operation on values gives, history included |
| FaxObject.FaxSession.SetupTrain | as/assistMIsdn/misc/faxl3.c:933-943 | the session in place becomes exactly what the operation on values gives, history included |
| FaxObject.FaxSession.DoTrain | as/assistMIsdn/misc/faxl3.c:946-962 | the session in place becomes exactly what the operation on values gives, history included |
| FaxObject.FaxSession.ReceiveTrainState | as/assistMIsdn/misc/faxl3.c:982-1021 | the session in place becomes exactly what the operation on values gives, history included |
| FaxObject.FaxSession.FinishTrainState | as/assistMIsdn/misc/faxl3.c:1024-1041 | the session in place becomes exactly what the operation on values gives, history included |
| FaxObject.FaxSession.SetupSendPage | as/assistMIsdn/misc/faxl3.c:1044-1054 | the session in place becomes exactly what the operation on values gives, history included |
| FaxObject.FaxSession.ReadySendPage | as/assistMIsdn/misc/faxl3.c:1057-1075 | the session in place becomes exactly what the operation on values gives, history included |
| FaxObject.FaxSession.SendNextPageData | as/assistMIsdn/misc/faxl3.c:1078-1108 | the session in place becomes exactly what the operation on values gives, history included |
| FaxObject.FaxSession.FinishPage | as/assistMIsdn/misc/faxl3.c:1111-1120 | the session in place becomes exactly what the operation on values gives, history included |
| FaxObject.FaxSession.SendEndOfPage | as/assistMIsdn/misc/faxl3.c:1123-1134 | the session in place becomes exactly what the operation on values gives, history included |
| FaxObject.FaxSession.ReceiveMcf | as/assistMIsdn/misc/faxl3.c:1154-1195 | the session in place becomes exactly what the operation on values gives, history included |
| FaxObject.FaxSession.FinishMcf | as/assistMIsdn/misc/faxl3.c:1198-1232 | the session in place becomes exactly what the operation on values gives, history included |
| FaxObject.FaxSession.MainEvent | as/assistMIsdn/misc/faxl3.c:1253-1282 | dispatch through the jump matrix does what the table says for the state and event |
| FaxObject.FaxSession.Connect | as/assistMIsdn/misc/faxl3.c:704-714 | the session in place becomes exactly what the operation on values gives, history included |
| FaxObject.FaxSession.Disconnect | as/assistMIsdn/misc/faxl3.c:732-738 | the session in place becomes exactly what the operation on values gives, history included |
| FaxObject.FaxSession.Confirm | as/assistMIsdn/misc/faxl3.c:1846-1872 | the session in place becomes exactly what the operation on values gives, history included |
| FaxObject.FaxSession.StartCall | as/assistMIsdn/misc/faxl3.c:1646-1659 | the session in place becomes exactly what the operation on values gives, history included |
| FaxObject.FaxSession.Handle | as/assistMIsdn/misc/faxl3.c:1826-1843 | one event changes the session as the specification says and keeps the run invariant |
| LayerMask.GetLowLayer | as/assistMIsdn/mcore/helper.c:233-243 | the lowest of the eight layers in a mask, and 0 for a mask without any |
| LayerMask.LowLayersDiffer | as/assistMIsdn/mcore/helper.c:233-243 | masks without a common bit have different lowest layers |
| StackLayers.RegisterKeeps | as/assistMIsdn/mcore/stack.c:583-652 | registering is refused exactly when a bit is taken; otherwise the list stays ascending and disjoint and gains exactly that layer |
| StackLayers.InsertTidy | as/assistMIsdn/mcore/stack.c:253-285 | insertion in front of the first larger mask keeps the order |
| StackLayers.RemoveOwn | as/assistMIsdn/mcore/stack.c:657-701 | unregistering a registered instance removes exactly its own layer |
| StackLayers.RemoveOther | as/assistMIsdn/mcore/stack.c:157-180 | called for an instance that is not registered it removes somebody else's layer exactly when registering would have been refused |
| StackLayers.ConnectLayers | as/assistMIsdn/mcore/helper.c:353-388 | connecting each layer to the next always takes the owner-below-peer branch |
| StackLayers.LayersInEveryRun | as/assistMIsdn/mcore/stack.c:583-701 | after any registrations and unregistrations masks are strictly ascending and pairwise disjoint, and adjacent layers connect owner below peer |
| StackRuns.NewMasterKeeps | as/assistMIsdn/mcore/stack.c:73-90 | a new master id is nobody else's |
| StackRuns.NewCloneKeeps | as/assistMIsdn/mcore/stack.c:91-109 | a new clone id is nobody else's, whatever stack is cloned |
| StackRuns.NewChildKeeps | as/assistMIsdn/mcore/stack.c:110-128 | a new child of any listed stack, with or without an id, gets an id no sibling has, in the range of its parent |
| StackIds.MasterIs | as/assistMIsdn/mcore/stack.c:73-90 | a new master gets the smallest free id below 127, and none exactly when all are taken |
| StackIds.CloneIs | as/assistMIsdn/mcore/stack.c:91-109 | a new clone gets the first free of the 255 clone ids that end in the id of its original, and none exactly when all are taken |
| StackIds.ChildIs | as/assistMIsdn/mcore/stack.c:110-128 | a new child gets the first of the 255 child ids that end in its parent's id and no sibling has, and none exactly when all are taken |
| StackRuns.EnterKeeps | as/assistMIsdn/mcore/stack.c:583-652 | registering adds one layer and the one entry of the instance list that belongs to it |
| StackRuns.LeaveKeeps | as/assistMIsdn/mcore/stack.c:657-701 | unregistering removes both again |
| StackEvents.RegisterIs | as/assistMIsdn/mcore/stack.c:583-652 | registering succeeds exactly for an owner not registered and bits not taken, adds that layer and one entry at the end, and otherwise changes nothing |
| StackEvents.UnregisterIs | as/assistMIsdn/mcore/stack.c:657-701 | unregistering takes away the owner's layer and entry and leaves all others in their order |
| StackEvents.UnregisterUndoes | as/assistMIsdn/mcore/stack.c:583-701 | unregistering what has just been registered gives back the registry as it was |
| StackEvents.ReleaseIs | as/assistMIsdn/mcore/stack.c:470-510 | releasing a stack takes that one out of the list |
| StackEvents.LookupIff | as/assistMIsdn/mcore/stack.c:133-154 | a stack is found under an id exactly when the id is not 0 and some stack or child has it |
| StackRuns.RunKeeps | as/assistMIsdn/mcore/stack.c:288-340 | every run keeps ids unique, layers in order and the instance list equal to the layers |
| StackTheorems.SharedIdPlaces | as/assistMIsdn/mcore/stack.c:110-128 | two stacks share an id only as children of two different parents that got none |
| StackTheorems.StackIdsInEveryRun | as/assistMIsdn/mcore/stack.c:133-154 | in every run all non-zero stack ids are distinct if and only if at most one listed stack without an id has children; looking an id up finds its stack then, and always unless the stack is a child of such a parent |
| StackTheorems.ClashReached | as/assistMIsdn/mcore/stack.c:110-128 | a run of allowed events, 128 masters and two children, ends with an id that occurs twice |
| StackTheorems.InstanceIdsInEveryRun | as/assistMIsdn/mcore/stack.c:552-578 | in every run two instances share an id if and only if their stack ids and lowest layers are equal; with distinct stack ids, on a stack that has one, if and only if both count as its layer 0, one of them for want of any of the eight layers; looking an id up finds an instance if and only if none before it clashes with it |
| StackTheorems.LayersNeverClash | as/assistMIsdn/mcore/stack.c:552-559 | masks between 1 and 255 never clash that way |
| StackTheorems.InstIdIsOr | as/assistMIsdn/mcore/stack.c:552-561 | an instance id is, bit by bit, the or of the layer shifted by 20, the instance flag and the stack id |
| StackTheorems.GrandchildClashes | as/assistMIsdn/mcore/stack.c:110-128 | a master, a child, a child of that child and another child end with an id that occurs twice |
| StackTheorems.NamelessParentsClash | as/assistMIsdn/mcore/stack.c:110-128 | any two listed stacks without an id that have children have first children with the same id |
| StackTheorems.HighMaskClashReached | as/assistMIsdn/mcore/stack.c:552-652 | a run of allowed events after which two registered instances share an id |
| StackTheorems.HighMaskClashes | as/assistMIsdn/mcore/stack.c:552-559 | a pair of disjoint masks with the same instance id on any stack: layer 0 and a bit beyond the eight layers |
| RegistryObject.GetLayer | as/assistMIsdn/mcore/stack.c:157-180 | the loop finds the first layer that shares a bit |
| RegistryObject.InsertLayer | as/assistMIsdn/mcore/stack.c:253-285 | the list with the layer at its place |
| RegistryObject.FreeMasterId | as/assistMIsdn/mcore/stack.c:73-90 | the first free id below 127, or 0 |
| RegistryObject.FreeIdAbove | as/assistMIsdn/mcore/stack.c:91-128 | the first free id in steps of 0x100, or 0 |
| RegistryObject.StackList.NewStack | as/assistMIsdn/mcore/stack.c:288-340 | the registry in place gains a child, a clone or a master |
| RegistryObject.StackList.GetStack | as/assistMIsdn/mcore/stack.c:133-154 | the nested loops find the stack of an id |
| RegistryObject.StackList.GetInstance | as/assistMIsdn/mcore/stack.c:232-240 | the loop finds the first instance with an id |
| RegistryObject.StackList.RegisterLayer | as/assistMIsdn/mcore/stack.c:583-652 | refused or registered as the specification says, with the id assigned |
| RegistryObject.StackList.UnregisterInstance | as/assistMIsdn/mcore/stack.c:657-701 | layer and entry are removed as the specification says |
| RegistryObject.StackList.Handle | as/assistMIsdn/mcore/stack.c:288-340 | one event changes the registry as the specification says and keeps the run invariant |
| SetStack.SetHandledPid | as/assistMIsdn/mcore/helper.c:130-173 | the result is the longest run of layers from the lowest requested one on that the object serves |
| SetStack.HandledRunUnique | as/assistMIsdn/mcore/helper.c:130-173 | that run is determined by request and object |
| SetStack.RemoveUsedPid | as/assistMIsdn/mcore/helper.c:176-196 | the request without the layers of the other |
| SetStack.RemainingBits | as/assistMIsdn/mcore/helper.c:176-196 | after removing several, a layer is left exactly when it was requested and none of them has it, with its protocol unchanged |
| SetStack.GetInstance | as/assistMIsdn/mcore/stack.c:185-229 | the first instance on the stack that serves a layer with a protocol; none for a layer out of range |
| SetStack.GetNextInstance | as/assistMIsdn/mcore/core.c:316-358 | the first instance on the stack that serves the lowest layer left; only without one is the new layer list searched |
| SetStack.RoundShrinks | as/assistMIsdn/mcore/stack.c:778-788 | while a layer is left, every round clears the lowest one and leaves fewer, whatever other bits the request has |
| SetStack.Fill | as/assistMIsdn/mcore/stack.c:778-788 | the loop, for every request: each instance found served the lowest layer left, and it ends with nothing left, with a layer nothing serves, or in a round that repeats |
| SetStack.RepeatsForever | as/assistMIsdn/mcore/stack.c:778-788 | such a round is followed by the same round any number of times: the stack has the same instance for it, and the same bits are left |
| SetStack.RepeatsReached | as/assistMIsdn/mcore/stack.c:778-788 | such a round exists: bit 8 alone is asked for, without a protocol, and the stack has an instance of layer 0 without one |
| SetStack.Build | as/assistMIsdn/mcore/stack.c:755-788 | for every request: refused exactly when the manager does not serve the lowest layer; on success manager and instances found cover every requested layer and the request had no bit beyond the eight layers; an endless loop only for a request with such a bit |
| SetStack.FinishableIff | as/assistMIsdn/mcore/stack.c:778-788 | the loop can end with nothing left exactly when the request has no bit beyond the eight layers |
| Q931.TablesInverse | as/assistMIsdn/mcore/l3helper.c:17-36 | the two element tables are inverse to each other |
| Q931.SlotOwner | as/assistMIsdn/mcore/l3helper.c:84-123 | an index entry belongs to one element, but for the congestion levels |
| Q931.IndexLocatesLast | as/assistMIsdn/mcore/l3helper.c:56-169 | after any additions within 64K an index entry is zero exactly when nothing was added for it, and otherwise locates the last addition octet for octet |
| Q931.LastHasType | as/assistMIsdn/mcore/l3helper.c:84-169 | what an entry locates has the type of the entry and the length its second octet says |
| Q931.AdditionsStand | as/assistMIsdn/mcore/l3helper.c:84-169 | after any additions within 64K an entry locates the octets of the last addition for it as the caller gave them, and is zero if there was none |
| Q931.AdditionIs | as/assistMIsdn/mcore/l3helper.c:84-169 | an addition is dropped exactly when its type has no entry or it is an element without contents given by type, and otherwise appended octet for octet, with nothing else changed |
| Q931.LocatedIff | as/assistMIsdn/mcore/l3helper.c:119-122 | after an addition its entry locates it if and only if its offset is below 64K, or the same octets happen to stand where the offset cut to 16 bits points |
| Q931.L3Message.AddVarIE | as/assistMIsdn/mcore/l3helper.c:84-123 | the message in place is the message with the whole element added |
| Q931.L3Message.AddIE | as/assistMIsdn/mcore/l3helper.c:125-169 | the message in place is the message with the element added, or unchanged for empty contents and unknown elements |
| CallNumbers.JoinedIff | as/assistMIsdn/misc/i4l_mISDN.c:815-869 | a string put together from its parts is the string exactly when its first dot is not its last character |
| CallNumbers.NumbersReadBackIff | as/assistMIsdn/misc/i4l_mISDN.c:597-643 | calling and called strings written among other elements are read back unchanged exactly when the first dot is not the last character, which is otherwise lost; plan and screening come back as written |
| CallNumbers.CopyText | as/assistMIsdn/misc/i4l_mISDN.c:605-619 | copies up to the end of the string, or up to the first dot |
| CallNumbers.WriteNumber | as/assistMIsdn/misc/i4l_mISDN.c:597-643 | the message in place gains exactly the elements of the string |
| CallNumbers.ReadCallingText | as/assistMIsdn/misc/i4l_mISDN.c:815-845 | the buffer holds the calling string of the message, also when an element is shorter than its header, with the octets read as plan and screening |
| CallNumbers.ReadCalledText | as/assistMIsdn/misc/i4l_mISDN.c:846-869 | the buffer holds the called string of the message, also when an element is shorter than its header |

## Left out

- Port priority changes: they change roles without a configuration update, so the run invariants do not cover them.
- Enabling and disabling a whole bridge, and choosing the bridge id anew from the port addresses: loops over operations that are modelled.
- Forwarding database, garbage collection timer, netfilter hooks and skb layout.
- 32-bit wrap-around of path costs and of jiffies: costs and times are unbounded integers; only the 16-bit tick field of a message is cut.
- BpduCodec.RelayChain: is stated for times that fit the tick field and for HZ up to 256, because a longer time is cut to 16 bits and a larger HZ loses more than a jiffy.
- Modem errors, disconnect requests and timeouts of the fax modem: no code generates those events.
- The SFF parser behind `prepare_page_data`: only its calls of `collect_page_data` and its end-of-page and end-of-document marks occur, as inputs.
- Termination of a fax call: the DCN state is entered by no handler, so only safety is stated.
- Allocation failures and errors of the layer below.
- Incoming fax calls, CIS and NSF frames, CAPI messages towards the application.
- References between stacks, layers and instances: a stack is found by its position, and an instance carries its stack's id.
- Instances registered without a stack, reference counts of objects, and the `param` fields of a layer description.
- SetStack.GetNextInstance: takes what finding an object and asking it for a layer comes to as an input, because objects and their control functions are code of other modules.
- FaxObject.FaxSession.CollectAll: takes the pieces the SFF parser yields as an input, because the parser does not terminate on every record and is not modelled.
- CallNumbers.ReadCallingText: is stated for strings of at most 31 octets and headers that lie in the message, because the code writes a longer string beyond its buffer and reads a missing header beyond the message.
- CallNumbers.ReadCalledText: is stated for strings of at most 31 octets, because the code writes a longer one beyond its buffer.
- Ageing of what a settled network has heard: a tick at which a message age runs out is not among the steps of `NetworkRuns`, because it does change roles.
- Bearer, channel and low layer compatibility elements of a SETUP message: they occur as other elements around the numbers.
- File operations, frame dispatch, the raw device ring, drivers and tools.
