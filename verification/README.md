# Verified model of the conference servers

This project models the room core of the media worker and, beside it, the text codecs of the SIP gateway,
the sticky dispatcher of the media router and the registries that create rooms and mixers on demand.
`dafny verify dfyconfig.toml` checks all of it.

## How it is laid out

| file | models |
|---|---|
| `RoomRuns.dfy` | whole runs of a conference: adds, removals, assignments and mixed sound, interleaved at the room's lock boundaries |
| `Forwarding.dfy` | the same runs with the forwarded sound: a look under the lock, then single writes, and what is on every track |
| `Egress.dfy`, `JoinOrder.dfy` | who is handed the mixed sound, and the order in which participants stand, over whole runs |
| `ClassSteps.dfy` | the class of the room and the machine of interleaved calls, step against step |
| `Disposal.dfy` | concurrent `RemovePeer` and `Stop` calls of the mixer and who disposes of a branch |
| `Creation.dfy` | any number of `GetOrCreate` callers in two nested double-checked registries |
| `Conference.dfy` | the room as a class: its tables and every operation that edits them |
| `SlotTable.dfy`, `Membership.dfy` | the slot table, the operator's assignment, joining and leaving, as values |
| `WebPeer.dfy`, `Mixer.dfy` | the audio tracks of a WebRTC participant; branches and compositor pads |
| `CustomLayout.dfy`, `LayoutEngine.dfy` | which cells a room asks for and where the layouts put them |
| `SpeakerDetector.dfy` | the active speaker detector, its score refinement and its switch rate |
| `Sdp.dfy`, `EventBody.dfy`, `Overlay.dfy`, `Text.dfy` | the SDP answer, FreeSWITCH event bodies, caption markup, Go's string functions |
| `Dispatch.dfy` | heartbeats and bindings with expiry, and the dispatcher |

The class `Conference.Room` and the machine `RoomRuns` share one description of the tables (`Membership.Joined`,
`Membership.Departed`, `SlotTable.AssignAll`): the class methods are proved to change the tables by these
functions, and the runs are proved safe for these functions. `ClassSteps` proves that a call of the class that
nothing interrupts ends where the machine's steps for it end.

## Choices

- A Go string is a sequence of bytes, and one `char` stands for one byte.
- `float64` is `real`; the rounded-up square root is the exact one. `int` of a coordinate drops the fraction.
  The conversion to an unsigned stacking order wraps at 64 bits.
- Times are whole milliseconds and each call reads the clock once. A time parameter is that reading.
- Go map iteration takes the keys in an arbitrary order.
- What a foreign call does (peer connection, media elements, negotiation, UDP listener, mixer construction)
  is a parameter that says whether it succeeded.
- The shared store is two maps with expiry times; each store operation is one step.

## Where the code does less than one might hope

- Operator assignments depend on Go's map order exactly when an id is named for two slots
  (`SlotTable.ConfluentIff`), and an id that is given a slot before it joins gets a second one on joining
  (`SlotTable.SeatInjectiveIff`, `RoomRuns.EarlyAssignmentDoubles`).
- A participant has to be removed by the call for its own kind (`RoomRuns.RightKindIff`,
  `RoomRuns.WrongKindDisagrees`). These two demands on the callers are exactly what the tables need
  (`RoomRuns.StepKeepsTablesIff`); the runs of `RoomRuns` meet them.
- A failed mute of a SIP participant is only logged. Such a participant can be handed its own sound for as long as
  it stays, and no other can (`RoomRuns.HearsItselfIff`).
- `forwardAudio` writes after it has let the lock go. Packets of two senders meet on one track only across a
  departure or an assignment (`Forwarding.SendersMeetOnlyAcrossAChange`).
- `UpdateLayout` prints the first 8 bytes of an id it does not know and panics for a shorter one
  (`Mixer.PanicIff`). Adding a branch slices the id in the same way once its elements exist, so it is required there
  that such an id has 8 bytes.
- A comment calls the dispatcher's choice consistent hashing; the code takes the hash of the room modulo the
  number of workers as an index into the list sorted by load, and so does the model.
- Stickiness does not hold for a worker whose id is the empty string (`Dispatch.EmptyIdIsNotSticky`).
- A very negative Z wraps around and puts a picture on top (`Mixer.AbovePlaceholder`).
- `RemoveSIPPeer` does not tell the speaker detector, so nothing is claimed about the speaker being a member.

## Model

| member | source | states |
|---|---|---|
| RoomRuns.StepKeepsTables | services/media-worker/internal/room/room.go:151-206 | each step of an add, a removal, a roll-back or an assignment, at any point of other calls, keeps join order, participants and branches in the agreement that the phase of each id calls for, and keeps the slot table injective and filled by members only |
| RoomRuns.JoinAgrees | services/media-worker/internal/room/room.go:350-366 | registering a newcomer whose branch exists keeps the tables in agreement and its slot its only one |
| RoomRuns.LeaveAgrees | services/media-worker/internal/room/room.go:482-494 | a removal up to the unlock takes the id out of every table and slot and leaves its branch to the next step |
| RoomRuns.AssignAgrees | services/media-worker/internal/room/room.go:421-438 | an assignment that names members or nobody keeps every slot with a member and each member with one slot at most |
| RoomRuns.StepKeepsSound | services/media-worker/internal/room/room.go:292-348 | each step keeps: a SIP branch is muted before sound can enter it, or its mute call failed; and only such sound is ever in the mix |
| RoomRuns.RunKeeps | services/media-worker/internal/room/room.go:151-504 | both invariants hold in every state of every interleaving |
| RoomRuns.MembershipAgrees | services/media-worker/internal/room/room.go:151-219 | in every interleaving the join order has no duplicates and is contained in the branches; for an id with no call in flight join order, participants and branches agree, also after a failed negotiation or listener |
| RoomRuns.RightKindIff | services/media-worker/internal/room/room.go:374-391 | a removal leaves participants and branches in agreement if and only if the id is not a participant of the other kind |
| RoomRuns.MutedRunsHaveNoEcho | services/media-worker/internal/room/room.go:298-304 | if no mute call fails, nobody is ever handed a mix with its own sound in it |
| RoomRuns.StepKeepsTablesIff | services/media-worker/internal/room/room.go:151-206 | a step that the code allows keeps tables and slots in agreement if and only if a removal is by the call for the own kind and an assignment names members or nobody |
| RoomRuns.WrongKindDisagrees | services/media-worker/internal/room/room.go:482-494 | a reached state: a SIP participant removed by RemovePeer stays among the participants, without a branch |
| RoomRuns.EarlyAssignmentDoubles | services/media-worker/internal/room/room.go:200-206 | a reached state: an id given slot 1 before it joins holds two slots once it has joined |
| RoomRuns.NoSelfEcho | services/media-worker/internal/room/room.go:721-734 | in every run whoever is handed a mix with its own sound in it is a SIP participant whose mute call failed |
| RoomRuns.UnmutedMeansFailed | services/media-worker/internal/room/room.go:302-304 | a branch is on record as unmuted if and only if its mute call failed earlier in the run |
| RoomRuns.StepKeepsOrigins | services/media-worker/internal/room/room.go:292-371 | every step keeps: branches have different serials, a registered SIP id sounds through the branch it was registered with, a branch whose mute failed is not muted |
| RoomRuns.HearsItselfIff | services/media-worker/internal/room/room.go:302-304 | in every reachable state a registered SIP participant can still be handed its own sound, by some continuation of the run, if and only if the mute call for its branch failed |
| RoomRuns.FailedMuteEchoes | services/media-worker/internal/room/room.go:302-304 | a run of seven steps from an empty conference, with one failed mute call, that ends with the participant being handed its own sound |
| RoomRuns.TablesFollow | services/media-worker/internal/room/room.go:151-504 | registrations, departures and assignments are the only events that touch the tables, and do to them what joining, leaving and assigning mean |
| Egress.MixReachesEverySIP | services/media-worker/internal/room/room.go:721-734 | in every run somebody is handed something if and only if it is a SIP participant at that moment, the event sends a mix, and what it is handed is the oldest mix not sent before |
| Egress.MixesGoOutInTurn | services/media-worker/internal/room/room.go:721-734 | no mix is sent twice, none is skipped and none overtakes another |
| JoinOrder.EarlierStandsBefore | services/media-worker/internal/room/room.go:189-199 | in every state of every interleaving one participant stands before another in the join order if and only if its last joining was earlier, whoever has left in between |
| JoinOrder.JoiningKeepsPlaces | services/media-worker/internal/layout/layout.go:69-84 | a newcomer gets the last grid cell; nobody who was there changes cell, and the large picture that goes to the first participant stays where it is |
| Forwarding.WrittenCopies | services/media-worker/internal/peer/peer.go:249-257 | a write to an open connection adds one copy to the track of its slot and changes no other count; to a closed one, none |
| Forwarding.StepKeepsSound | services/media-worker/internal/room/room.go:664-688 | every step of room calls, looks, single writes and closing connections keeps: receivers exclude the sender, and a forward has at most one copy on a connection, on its own track, exactly one where it has come to an open connection |
| Forwarding.RoomPart | services/media-worker/internal/room/room.go:664-688 | the room part of every run with forwards is a run of the room, so what holds of those holds here |
| Forwarding.PacketsComeFromTheSlot | services/media-worker/internal/room/room.go:664-688 | every packet on track k of a connection came from somebody else, who held slot k when the packet was looked at |
| Forwarding.OneCopyEach | services/media-worker/internal/room/room.go:676-687 | a forward writes at most once to each connection of the others, on the track of the slot found at the look and on no other, to nobody else, and exactly once to each that is open when it comes to it |
| Forwarding.ReachesEveryOther | services/media-worker/internal/room/room.go:676-687 | when a forward is through, each other participant of the room at the look whose connection is still open has the packet exactly once |
| Forwarding.SameTrackIff | services/media-worker/internal/room/room.go:666-672 | as long as nobody leaves and nothing is assigned, two forwards use the same track if and only if they have the same sender |
| Forwarding.SendersMeetOnlyAcrossAChange | services/media-worker/internal/room/room.go:666-687 | two senders meet on one track of a connection only across a departure or an assignment between their looks |
| Forwarding.NoTrackEcho | services/media-worker/internal/room/room.go:677-683 | in no state of any run is a WebRTC participant's own packet on one of its tracks |
| Forwarding.NoMixedEcho | services/media-worker/internal/room/room.go:721-734 | with forwards in between too, a SIP participant is handed its own sound only if its mute call failed |
| Forwarding.TracksGrow | services/media-worker/internal/peer/peer.go:249-257 | in every run a track only grows, at its end |
| Forwarding.WritesAtTheEnd | services/media-worker/internal/peer/peer.go:249-257 | a write puts its packet at the end of the track of its slot if the connection is open, and no other event changes any track |
| ClassSteps.AddPeerEnds | services/media-worker/internal/room/room.go:151-206 | the machine's steps for an uninterrupted AddPeer, whichever of them fails, end with the participant in all tables or everything as before |
| ClassSteps.AddSIPPeerEnds | services/media-worker/internal/room/room.go:292-366 | the same for AddSIPPeer, the outcome of the mute call included |
| ClassSteps.RemovalEnds | services/media-worker/internal/room/room.go:482-500 | the two steps of a removal end with the id out of tables and branches |
| ClassSteps.AddPeer | services/media-worker/internal/room/room.go:151-221 | a call of the class's AddPeer ends in a state that the machine's steps for it lead to: same tables, branches, serials and mutes |
| ClassSteps.AddSIPPeer | services/media-worker/internal/room/room.go:292-371 | the same for AddSIPPeer |
| ClassSteps.RemovePeer | services/media-worker/internal/room/room.go:482-504 | the same for RemovePeer |
| ClassSteps.RemoveSIPPeer | services/media-worker/internal/room/room.go:374-392 | the same for RemoveSIPPeer |
| ClassSteps.AssignSlots | services/media-worker/internal/room/room.go:421-444 | the same for AssignSlots, along the order in which the map was walked |
| Disposal.StepKeepsOwned | services/media-worker/internal/pipeline/pipeline_gst.go:257-274 | every step of RemovePeer and Stop calls keeps each branch in exactly one place: the table, one call, or among the disposed ones |
| Disposal.RunKeepsOwned | services/media-worker/internal/pipeline/pipeline_gst.go:607-632 | that ownership holds in every state of every interleaving |
| Disposal.NeverClosedTwice | services/media-worker/internal/pipeline/pipeline_gst.go:627-632 | a close channel is never closed twice, and the check before closing never finds it closed |
| Disposal.DisposedExactlyOnce | services/media-worker/internal/pipeline/pipeline_gst.go:257-274 | once all calls have returned each branch has been disposed of exactly once unless it is still registered, and none of those registered before the first Stop is |
| Disposal.RemovedIsDisposed | services/media-worker/internal/pipeline/pipeline_gst.go:614-625 | a branch that a RemovePeer call found is out of the table at once and has been disposed of exactly once when all calls have returned |
| Disposal.StopDisposesAll | services/media-worker/internal/pipeline/pipeline_gst.go:257-274 | every branch registered before the first Stop call is out of the table at once and has been disposed of exactly once when all calls have returned |
| Creation.StepKeepsCallers | services/media-worker/internal/room/registry.go:45-72 | every step of any caller keeps: exactly the callers inside a locked region hold that lock, what a second look did not find stays absent until the construction, and what a caller was given stays registered |
| Creation.StepKeepsRegistries | services/media-worker/internal/pipeline/pipeline.go:110-131 | every step keeps both registries equal to what was constructed, and each registered room built on the registered mixer of its id |
| Creation.RunKeeps | services/media-worker/internal/room/registry.go:45-72 | those invariants hold in every interleaving of any number of callers |
| Creation.BuiltAtMostOnce | services/media-worker/internal/room/registry.go:45-72 | at most one room and one mixer are ever constructed for an id, and a registered room has a registered mixer, the one it was built on |
| Creation.SameRoomForAll | services/media-worker/internal/room/registry.go:45-72 | all successful callers for one id receive the same room |
| Creation.LockHolderCanGo | services/media-worker/internal/pipeline/pipeline.go:110-131 | while a lock is held some holder can take its next step: the two nested locks never block each other |
| Creation.FailureIff | services/media-worker/internal/room/registry.go:57-63 | in every run a caller is answered with a failure if and only if its own construction of a mixer failed |
| Creation.OthersAreServed | services/media-worker/internal/room/registry.go:45-72 | every other caller that has returned has the room, or the mixer, that is registered for its id and was constructed for it |
| Creation.LooksAndBuildsAnswer | services/media-worker/internal/room/registry.go:46-71 | a caller that finds its id registered at a look is answered that one at once; one that builds registers and answers what it has built |
| SlotTable.FirstFrom | services/media-worker/internal/room/room.go:404-413 | the first slot that holds the id, or -1 only if none does |
| SlotTable.SeatMeaning | services/media-worker/internal/room/room.go:200-206 | a newcomer gets the lowest free slot and nothing else changes; vacating gives the table back as it was |
| SlotTable.SeatInjectiveIff | services/media-worker/internal/room/room.go:360-365 | a newcomer keeps every id to one slot if and only if it held none before it came, or none is free |
| SlotTable.VacateKeepsInjective | services/media-worker/internal/room/room.go:489-493 | a leaver holds no slot afterwards and no id gets a second one |
| SlotTable.RosterInvertsSlotOf | services/media-worker/internal/room/room.go:404-457 | slot lookup and roster are inverse to each other when no id has two slots |
| SlotTable.AssignKeepsInjective | services/media-worker/internal/room/room.go:424-438 | every order of every assignment, with repeated ids too, leaves each id at most one slot |
| SlotTable.AssignmentIsDetermined | services/media-worker/internal/room/room.go:424-438 | with distinct ids every walk of the Go map gives one table: the assigned ids, nobody where an id was moved away, the old occupant elsewhere |
| SlotTable.RepeatedIdDependsOnOrder | services/media-worker/internal/room/room.go:424-438 | an id named for two slots ends in different ones for two walks of the map, whatever the table was |
| SlotTable.ConfluentIff | services/media-worker/internal/room/room.go:424-438 | all map orders agree if and only if no id is named for two slots in range |
| SlotTable.AssignmentShows | services/media-worker/internal/room/room.go:424-438 | the same slot by slot: an assigned slot has what was assigned, nobody included; any other keeps its occupant unless that was given a slot |
| Membership.RemoveIDLoop | services/media-worker/internal/room/room.go:861-868 | the loop takes out the first occurrence only and keeps the order |
| Membership.RemoveIDCuts | services/media-worker/internal/room/room.go:861-868 | exactly the first occurrence is cut out, or nothing; the others keep their order |
| Membership.RemoveIDMeaning | services/media-worker/internal/room/room.go:861-868 | without duplicates exactly the id disappears and no duplicate arises |
| Membership.LeavingUndoesJoining | services/media-worker/internal/room/room.go:482-494 | leaving right after joining restores slots, join order and participants |
| Conference.Room.constructor | services/media-worker/internal/room/room.go:117-149 | a new room is empty, in grid mode, with threshold -45 and hysteresis 800 ms |
| Conference.Room.ApplyLayout | services/media-worker/internal/room/room.go:534-576 | the canvas becomes what the wanted cells draw on the old one; the other tables stay |
| Conference.Room.SetLayout | services/media-worker/internal/room/room.go:506-515 | the mode is set, operator cells survive only in custom mode, and the canvas follows |
| Conference.Room.SetCustomLayout | services/media-worker/internal/room/room.go:520-526 | custom mode with the given cells, and the canvas follows |
| Conference.Room.SlotOf | services/media-worker/internal/room/room.go:404-413 | the loop finds the first slot of the id, or -1 |
| Conference.Room.Roster | services/media-worker/internal/room/room.go:447-457 | exactly the occupied slots |
| Conference.Room.TakeSlot | services/media-worker/internal/room/room.go:200-206 | the first free slot goes to the newcomer; a full table stays |
| Conference.Room.FreeSlots | services/media-worker/internal/room/room.go:431-435 | every slot of the id except one is freed, no other changes |
| Conference.Room.AssignEntry | services/media-worker/internal/room/room.go:425-437 | one entry: out of range does nothing, otherwise the id leaves its other slots first |
| Conference.Room.AssignEntries | services/media-worker/internal/room/room.go:424-438 | the loop over the map in an arbitrary order equals the entries applied along some walk of the map |
| Conference.Room.AssignSlots | services/media-worker/internal/room/room.go:421-444 | with distinct ids the table is the determined one whatever the order was; in MCU mode the canvas follows, in SFU mode it is untouched |
| Conference.Room.RegisterPeer | services/media-worker/internal/room/room.go:189-209 | peers, join order, names and slots of a joined WebRTC participant |
| Conference.Room.RegisterSIPPeer | services/media-worker/internal/room/room.go:350-366 | the same for a SIP participant |
| Conference.Room.AddPeer | services/media-worker/internal/room/room.go:151-221 | success exactly when the id is new to peers and (in MCU mode) to the mixer and each foreign call succeeds; failure changes neither tables nor canvas |
| Conference.Room.GiveUpPlace | services/media-worker/internal/room/room.go:488-493 | the id leaves the join order and every slot |
| Conference.Room.RemovePeer | services/media-worker/internal/room/room.go:482-504 | all tables lose the id, its connection is closed, the detector forgets it, its branch goes and the canvas follows |
| Conference.Room.RemoveSIPPeer | services/media-worker/internal/room/room.go:374-392 | the same for a SIP participant, without telling the detector |
| Conference.Room.ForwardAudio | services/media-worker/internal/room/room.go:664-688 | each other open participant gets the packet once on the track of the sender's slot; every other track of everybody is unchanged |
| Conference.Room.OnLevel | services/media-worker/internal/room/room.go:739-755 | the detector takes the level and the canvas follows exactly when the speaker changed |
| Conference.Room.AddBranch | services/media-worker/internal/room/room.go:298-304 | a new branch if and only if the id is new and the elements exist; a SIP branch is muted if and only if the mute call succeeds, and stays either way |
| Conference.Room.OpenBranch | services/media-worker/internal/room/room.go:173-188 | the branch exists afterwards if and only if everything but the mute succeeded; a failed handshake leaves the branch table as it was |
| Conference.Room.Admit | services/media-worker/internal/room/room.go:189-221 | tables and picture once a WebRTC participant is connected |
| Conference.Room.AddSIPPeer | services/media-worker/internal/room/room.go:292-371 | success exactly when the id is new to the mixer and branch and listener can be opened, whether or not the mute call fails; failure changes nothing |
| WebPeer.Peer.constructor | services/media-worker/internal/peer/peer.go:62-156 | an open peer with 20 empty audio tracks |
| WebPeer.Peer.Close | services/media-worker/internal/peer/peer.go:259-268 | closed afterwards; the tracks stay |
| Mixer.Compositor.constructor | services/media-worker/internal/pipeline/pipeline_gst.go:163-176 | no branches; every placeholder pad that exists is off the canvas at stacking order 5 |
| Mixer.Compositor.AddPeer | services/media-worker/internal/pipeline/pipeline_gst.go:276-282 | refused when the id is taken or the elements fail, and then nothing changes; otherwise a new branch at quarter size, stacking order 10 |
| Mixer.Compositor.RemovePeer | services/media-worker/internal/pipeline/pipeline_gst.go:614-625 | the branch is gone and its channel closed; an unknown id changes nothing |
| Mixer.Compositor.Stop | services/media-worker/internal/pipeline/pipeline_gst.go:257-274 | the first Stop empties the table and closes the channel of each branch, a later one does nothing |
| Mixer.Compositor.SetPeerAudioMute | services/media-worker/internal/pipeline/pipeline_gst.go:884-892 | changes the mute flag of exactly that branch; fails, changing nothing, for an unknown id and when the pad does not take the property |
| Mixer.Compositor.DisposeAll | services/media-worker/internal/pipeline/pipeline_gst.go:264-272 | in any order the channel of every branch taken is closed and no other |
| Mixer.Compositor.HidePlaceholders | services/media-worker/internal/pipeline/pipeline_gst.go:913-921 | every placeholder goes off the canvas |
| Mixer.Compositor.DrawOne | services/media-worker/internal/pipeline/pipeline_gst.go:927-954 | one cell: the placeholder of its slot, the pad of its participant, and a panic for an unknown short id |
| Mixer.Compositor.UpdateLayout | services/media-worker/internal/pipeline/pipeline_gst.go:908-956 | the pads afterwards are those of the redraw specification, or of its part before a panic |
| Mixer.Redraw | services/media-worker/internal/pipeline/pipeline_gst.go:908-956 | a redraw neither adds nor removes a branch or a placeholder |
| Mixer.PanicIff | services/media-worker/internal/pipeline/pipeline_gst.go:936-943 | the call panics if and only if some cell names an id without a branch and shorter than 8 bytes |
| Mixer.RedrawShows | services/media-worker/internal/pipeline/pipeline_gst.go:908-956 | the whole canvas pad by pad: last cell of the slot, last cell of the participant, everything else about a branch unchanged |
| Mixer.LastSlotCellWins | services/media-worker/internal/pipeline/pipeline_gst.go:928-935 | the last cell of a slot decides its placeholder |
| Mixer.LastPeerCellWins | services/media-worker/internal/pipeline/pipeline_gst.go:939-948 | the last cell that names a participant decides its picture and stacking order |
| Mixer.NoPeerCell | services/media-worker/internal/pipeline/pipeline_gst.go:927-954 | a participant that no cell names stays where it was |
| Mixer.DrawnIff | services/media-worker/internal/pipeline/pipeline_gst.go:927-943 | a drawing ends at the first cell that makes it panic, and otherwise draws all |
| Mixer.PlaceholdersFollowDrawnCells | services/media-worker/internal/pipeline/pipeline_gst.go:913-935 | after any drawing, one that panics included, a placeholder lies where the last drawn cell of its slot says and is hidden when there is none |
| Mixer.UnnamedIsOffCanvas | services/media-worker/internal/pipeline/pipeline_gst.go:913-921 | after any redraw, panicking or not, a placeholder whose slot no drawn cell names has no pixel on the canvas |
| Mixer.NextLayoutHides | services/media-worker/internal/pipeline/pipeline_gst.go:913-935 | a placeholder that one layout put on the canvas is off it after the next that has no cell for its slot |
| Mixer.PicturesStackByZ | services/media-worker/internal/pipeline/pipeline_gst.go:948 | pictures are stacked among each other by Z, in the order 10 + Z, as long as nothing wraps around |
| Mixer.RedrawIsIdempotent | services/media-worker/internal/pipeline/pipeline_gst.go:908-956 | drawing the same cells again changes nothing, also when the drawing panics |
| Mixer.AbovePlaceholder | services/media-worker/internal/pipeline/pipeline_gst.go:948 | a picture covers the placeholder if and only if Z > -5 or Z < -10, where the unsigned conversion wraps around |
| CustomLayout.WantedInEachMode | services/media-worker/internal/room/room.go:544-572 | custom mode asks for the operator's cells with their geometry, for nothing when there are none; the other modes lay out the join order, with the current speaker large in active speaker mode |
| CustomLayout.SpeakerTakesOverCell | services/media-worker/internal/room/room.go:559-561 | whoever speaks fills the last of the cells that show it, a cell marked for the speaker included whatever its id |
| CustomLayout.SilenceShowsOccupant | services/media-worker/internal/room/room.go:556-561 | while nobody speaks a cell marked for the speaker shows what its id stands for |
| CustomLayout.ReadingsAgree | services/media-worker/internal/room/room.go:549-561 | for every string the two parsings of "slot-N" agree: the placeholder index and the occupant that is resolved belong to the same slot, or neither exists |
| CustomLayout.SlotNames | services/media-worker/internal/room/room.go:582-594 | "slot-n" in decimal names slot n, for every slot |
| CustomLayout.PlaceholderFollowsLastCell | services/media-worker/internal/room/room.go:545-567 | in custom mode the placeholder lies exactly in the last operator cell for its slot among those drawn, which are all unless the drawing panics |
| CustomLayout.PlaceholderWithoutCellIsHidden | services/media-worker/internal/pipeline/pipeline_gst.go:913-921 | a slot without a drawn cell has its placeholder off the canvas |
| CustomLayout.PlaceholdersDependOnCellsOnly | services/media-worker/internal/room/room.go:545-573 | placeholder geometry depends on the cell list and on how far the drawing gets, not on occupants, speaker or branches |
| CustomLayout.OccupantCoversPlaceholder | services/media-worker/internal/room/room.go:545-573 | for a slot cell nobody has taken over and no later cell overrides, the occupant's pad has exactly the cell's rectangle and is above the placeholder if and only if Z > -5 (or wraps) |
| SpeakerDetector.Detector.constructor | services/media-worker/internal/asd/asd.go:31-37 | no levels, no speaker |
| SpeakerDetector.Detector.Push | services/media-worker/internal/asd/asd.go:54-88 | for every map order: a reported speaker is within 2 s, at or above the threshold, maximal among recent entries, different from the old one and past the hysteresis; silence means nobody reaches the threshold, the hysteresis runs, or the current speaker is itself the loudest; a threshold at or below the search's starting value reports nobody when nobody rises above that value |
| SpeakerDetector.WindowIsTwoSeconds | services/media-worker/internal/asd/asd.go:66 | an entry counts for two seconds, the last millisecond included |
| SpeakerDetector.FadesThreeDecibels | services/media-worker/internal/asd/asd.go:42-49 | in silence a level falls by 3 dB every 100 ms, and never before its time |
| SpeakerDetector.StateFollowsEvents | services/media-worker/internal/asd/asd.go:54-98 | in every run the current speaker is the one reported last unless forgotten since, however long it is silent, and the levels are those pushed last |
| SpeakerDetector.MarkDelaysChange | services/media-worker/internal/asd/asd.go:81-97 | after a change, and after the speaker was forgotten, the next change waits for the hysteresis |
| SpeakerDetector.Detector.FindLoudest | services/media-worker/internal/asd/asd.go:63-73 | the loop finds a maximum of the recent effective levels in any order |
| SpeakerDetector.Detector.Forget | services/media-worker/internal/asd/asd.go:90-98 | the level goes; if the peer was speaking nobody is, as of now |
| SpeakerDetector.OrderDoesNotMatter | services/media-worker/internal/asd/asd.go:63-88 | with a unique loudest peer any two map orders give the same state and answer |
| SpeakerDetector.LoudestTakesOver | services/media-worker/internal/asd/asd.go:74-87 | past the hysteresis a unique loudest peer at or above the threshold is current after the push |
| SpeakerDetector.SameLoudest | services/media-worker/internal/asd/asd.go:42-49 | loudest by faded level and loudest by time-independent score are the same |
| SpeakerDetector.RefinesScores | services/media-worker/internal/asd/asd.go:42-88 | a push is a step of the fading detector if and only if it is a step of the detector that stores dbfs + 0.03*when and compares with threshold + 0.03*now, reported change included |
| SpeakerDetector.SameRuns | services/media-worker/internal/asd/asd.go:42-98 | on a clock that does not go back the two detectors have exactly the same runs of Push and Forget, with the same reported changes |
| SpeakerDetector.ScoredIsOnto | services/media-worker/internal/asd/asd.go:42-49 | every state of the score detector stands for exactly one state of the fading detector |
| SpeakerDetector.RunKeepsOrder | services/media-worker/internal/asd/asd.go:42-49 | in every run two peers that neither push nor are forgotten stay stored and in the order in which they were |
| SpeakerDetector.SpeakerIsStored | services/media-worker/internal/asd/asd.go:54-98 | in every run the current speaker is nobody or has a stored level |
| SpeakerDetector.ChangesAreApart | services/media-worker/internal/asd/asd.go:81-87 | any two reported changes of a run are at least the hysteresis apart |
| SpeakerDetector.SwitchRate | services/media-worker/internal/asd/asd.go:81-87 | a stretch of length t holds at most floor(t / hysteresis) + 1 changes |
| LayoutEngine.Columns | services/media-worker/internal/layout/layout.go:64 | the least number of columns whose square is at least n |
| LayoutEngine.GridShape | services/media-worker/internal/layout/layout.go:63-65 | (cols-1)^2 < n <= cols^2, (rows-1)*cols < n <= rows*cols, cols-1 <= rows <= cols |
| LayoutEngine.ComputeGrid | services/media-worker/internal/layout/layout.go:62-78 | the loop produces cell i of a row-major table for peer i |
| LayoutEngine.GridTiles | services/media-worker/internal/layout/layout.go:62-78 | for every n all cells lie on the canvas, no two overlap, and each peer has its own |
| LayoutEngine.PixelSeams | services/media-worker/internal/pipeline/pipeline_gst.go:944-947 | after truncation to pixels neighbours do not overlap and lose one pixel at most at each seam and at the far edge |
| LayoutEngine.GridCellsTouch | services/media-worker/internal/layout/layout.go:66-76 | grid cells share their edges with the next in the row and the next below, and the outer ones reach the edges of the canvas |
| LayoutEngine.GridArea | services/media-worker/internal/layout/layout.go:66-76 | each cell of a grid is its share of the canvas; together they are the canvas when no place is empty |
| LayoutEngine.GridPixelSeams | services/media-worker/internal/pipeline/pipeline_gst.go:944-947 | truncated grid cells do not overlap and leave at most one pixel to the next cell, to the one below and to the far edges |
| LayoutEngine.TruncatesTowardZero | services/media-worker/internal/pipeline/pipeline_gst.go:944-947 | coordinates are cut off toward zero, by less than a pixel |
| LayoutEngine.GridTilesInPixels | services/media-worker/internal/pipeline/pipeline_gst.go:944-947 | the truncated grid is still inside the canvas and without overlaps |
| LayoutEngine.FilterOthers | services/media-worker/internal/layout/layout.go:86-91 | the loop keeps exactly the peers other than one, with their multiplicities |
| LayoutEngine.FirstDifferenceDecides | services/media-worker/internal/layout/layout.go:92 | the first byte in which two ids differ decides their order, and an id stands before its extensions |
| LayoutEngine.SortStringsSorts | services/media-worker/internal/layout/layout.go:92 | the thumbnails are sorted byte-wise |
| LayoutEngine.ComputeActiveSpeaker | services/media-worker/internal/layout/layout.go:81-105 | the loops produce the specified cells, the one-peer case included |
| LayoutEngine.ComputeLecture | services/media-worker/internal/layout/layout.go:108-130 | the same for the lecture layout |
| LayoutEngine.Compute | services/media-worker/internal/layout/layout.go:44-60 | the dispatch: nothing without peers, the grid for unknown modes |
| LayoutEngine.OtherModesShow | services/media-worker/internal/layout/layout.go:44-60 | nothing without peers, custom cells as given, the grid for unknown modes, and no layout of the engine names a slot |
| LayoutEngine.ActiveSpeakerShows | services/media-worker/internal/layout/layout.go:82-95 | the large picture is the speaker's, or the first peer's without one, on the upper four fifths |
| LayoutEngine.ThumbsTouch | services/media-worker/internal/layout/layout.go:99-103 | the small ones lie below it side by side, equally wide, from edge to edge |
| LayoutEngine.SmallPicturesAreSorted | services/media-worker/internal/layout/layout.go:86-103 | the small ones are the others, each as often as it is a peer, in the order of their ids |
| LayoutEngine.LectureShows | services/media-worker/internal/layout/layout.go:109-120 | the large picture is the presenter's, or the first peer's without one, on the left seven tenths; the others follow in join order |
| LayoutEngine.AudienceTouches | services/media-worker/internal/layout/layout.go:124-128 | the others are to the right of it, one below the other, equally high, from top to bottom |
| LayoutEngine.LargeAndSmall | services/media-worker/internal/layout/layout.go:81-130 | behind the large picture each of the two modes has exactly these small ones |
| LayoutEngine.ActiveSpeakerConserves | services/media-worker/internal/layout/layout.go:81-105 | for distinct peers each has exactly one cell if and only if the speaker is one of them; otherwise the speaker's cell is the only extra one |
| LayoutEngine.ActiveSpeakerFillsCanvas | services/media-worker/internal/layout/layout.go:81-105 | cells are disjoint and inside, and with anybody besides the speaker the areas sum to the canvas |
| LayoutEngine.LectureConserves | services/media-worker/internal/layout/layout.go:108-130 | the same conservation for the presenter |
| LayoutEngine.LectureFillsCanvas | services/media-worker/internal/layout/layout.go:108-130 | the same tiling and area for the lecture layout |
| LayoutEngine.TwoPeersFillCanvas | services/media-worker/internal/layout/layout.go:81-130 | with two distinct peers or more both layouts use the whole area |
| LayoutEngine.ActiveSpeakerIgnoresJoinOrder | services/media-worker/internal/layout/layout.go:86-103 | for a known speaker the picture is the same for every permutation of the join order |
| LayoutEngine.PiPShows | services/media-worker/internal/layout/layout.go:133-153 | one picture over the whole canvas, one a quarter as wide and high in the lower right corner, 16 pixels from the edges; two different peers are shown if and only if the corner one is not the large one too; the corner picture fits if and only if both sides leave room for the margin |
| Sdp.ParseSDP | services/sip-gateway/internal/sipsrv/server.go:644-660 | the loop over lines computes the reading that the line-by-line specification gives |
| Sdp.CRLFReadsTheSame | services/sip-gateway/internal/sipsrv/server.go:646-647 | any text reads the same when each LF becomes CRLF |
| Sdp.ConnectionLine | services/sip-gateway/internal/sipsrv/server.go:649-650 | a connection line puts its address in force whatever was before; one without an address says nothing |
| Sdp.AddressInForce | services/sip-gateway/internal/sipsrv/server.go:646-657 | each media line takes the address of the last connection line in front of it |
| Sdp.LinesAreInOrder | services/sip-gateway/internal/sipsrv/server.go:679-696 | the lines of the answer are typed and in the order of section 5 of RFC 8866 |
| Sdp.OffersOnePayload | services/sip-gateway/internal/sipsrv/server.go:684-692 | the audio line offers payload type 0, the video line 109 |
| Sdp.PayloadsAreMapped | services/sip-gateway/internal/sipsrv/server.go:685-693 | the attributes map these types to PCMU/8000 and H264/90000 |
| Sdp.MediaLineParts | services/sip-gateway/internal/sipsrv/server.go:662-670 | a printed media line survives trimming and gives its port back |
| Sdp.AudioLinesRead | services/sip-gateway/internal/sipsrv/server.go:678-691 | the printed session and audio part is read as exactly the address and audio endpoint that were put in |
| Sdp.VideoLinesRead | services/sip-gateway/internal/sipsrv/server.go:692-696 | the printed video part adds exactly the video endpoint |
| Sdp.AnswerRoundTrip | services/sip-gateway/internal/sipsrv/server.go:644-697 | for every space-free address, all 16-bit ports and all session numbers, parsing the answer gives the audio endpoint, the video endpoint if and only if video was asked for, and the same with CRLF |
| Text.AtoiReadsSigns | services/media-worker/internal/room/room.go:551 | an optional sign, decimal digits, and the range of 64 bits |
| Text.AtoiRejects | services/media-worker/internal/room/room.go:551 | nothing else is a number |
| Text.DecimalIsShort | services/sip-gateway/internal/sipsrv/server.go:679-692 | a printed number has no leading zeros |
| Text.ScanIntStops | services/sip-gateway/internal/sipsrv/server.go:668 | a port number is read up to whatever is no digit |
| Text.SpaceRunesAreUnicode | services/sip-gateway/internal/sipsrv/server.go:647 | what trimming takes for white space is the UTF-8 of exactly the code points with the Unicode property White_Space |
| Text.TrimTrailing | services/sip-gateway/internal/sipsrv/server.go:647 | a blank, a tab or a line end behind a text makes no difference to the trimmed text |
| EventBody.UrlDecode | services/sip-gateway/internal/esl/client.go:186-202 | the index loop computes the decoding of the value |
| EventBody.DecodeUndoesEncoding | services/sip-gateway/internal/esl/client.go:186-202 | decoding undoes every rendering in which each byte is literal (except %) or %XX with digits of either case |
| EventBody.HexDigitMeans | services/sip-gateway/internal/esl/client.go:204-214 | exactly the sixteen digits, letters in either case, with their values |
| EventBody.OtherTextStays | services/sip-gateway/internal/esl/client.go:186-202 | what is no % with two hexadecimal digits stays as it is |
| EventBody.KeylessLineIsSkipped | services/sip-gateway/internal/esl/client.go:173-176 | a line without a colon or with nothing before it says nothing |
| EventBody.PaddingIsTrimmed | services/sip-gateway/internal/esl/client.go:177-178 | a blank, a tab or a line end before or behind a key or a value makes no difference |
| EventBody.EscapeAllEncodes | services/sip-gateway/internal/esl/client.go:185-202 | every byte string has a rendering that fits a header line |
| EventBody.ParseEventBody | services/sip-gateway/internal/esl/client.go:170-183 | the loop over lines builds the map that the specification gives |
| EventBody.ParseUndoesRendering | services/sip-gateway/internal/esl/client.go:170-183 | parsing a rendered header list gives its keys and decoded values, a later header replacing an earlier one of the same key |
| EventBody.CollectedMeaning | services/sip-gateway/internal/esl/client.go:180 | with distinct keys every header is in the map with its value and nothing else is |
| EventBody.EventRoundTrip | services/sip-gateway/internal/esl/client.go:168-202 | a map listed in any order with any renderings of its values is read back whole |
| Overlay.EscapeIsPerCharacter | services/media-worker/internal/room/room.go:277-282 | three successive whole-string replacements equal one escape per character |
| Overlay.EscapeRoundTrip | services/media-worker/internal/room/room.go:276-282 | for every name the output has no angle bracket and one unescape pass gives the name back |
| Overlay.MarkupSaysWhatItWasGiven | services/media-worker/internal/room/room.go:263-287 | the attributes read back are the two colours, or their defaults, and the opacity in percent from 0 to 100, each in its place, and the escaped name stands in the span |
| Overlay.MarkupHasOneSpan | services/media-worker/internal/room/room.go:263-287 | whatever the name, the only raw angle brackets that open a tag are those of the span and its end and those the operator put into a colour |
| Dispatch.Registry.constructor | services/media-router/internal/registry/registry.go:27-32 | an empty store; a zero lifetime means 30 s |
| Dispatch.HeartbeatIsHeard | services/media-router/internal/registry/registry.go:36-43 | a heartbeat keeps its worker live for exactly the lifetime, and nobody else any longer or shorter |
| Dispatch.BindingIsResolved | services/media-router/internal/registry/registry.go:64-77 | a room resolves to its binding until that expires and to nothing then; other rooms resolve as before |
| Dispatch.Registry.List | services/media-router/internal/registry/registry.go:45-62 | the live workers, each once, in an arbitrary order |
| Dispatch.HashIndex | services/media-router/internal/dispatcher/dispatcher.go:66-73 | an index within a non-empty list |
| Dispatch.FnvOfA | services/media-router/internal/dispatcher/dispatcher.go:70-72 | the hash agrees with the published FNV-1a values of the empty string and of "a" |
| Dispatch.SortedMeans | services/media-router/internal/dispatcher/dispatcher.go:50-56 | the order is by CPU and, where that is the same, by rooms |
| Dispatch.ChoiceByLoad | services/media-router/internal/dispatcher/dispatcher.go:50-59 | with distinct loads the choice is the live worker with as many lighter ones as the hash of the room modulo the number of live workers |
| Dispatch.LiveIsHeard | services/media-router/internal/registry/registry.go:36-62 | in every run a worker is live if and only if its last heartbeat is less than the lifetime ago, and is known as it reported then |
| Dispatch.PickRenewsOrKeeps | services/media-router/internal/dispatcher/dispatcher.go:30-64 | a pick keeps the room's binding to a live worker or makes one for the full lifetime, and no other room's binding changes |
| Dispatch.SortByLoad | services/media-router/internal/dispatcher/dispatcher.go:50-56 | the same live workers, sorted by CPU and then by rooms |
| Dispatch.Dispatcher.Choose | services/media-router/internal/dispatcher/dispatcher.go:43-59 | nobody if and only if no worker is live; otherwise a live one, at the hash of the room in a load-sorted list |
| Dispatch.Dispatcher.Place | services/media-router/internal/dispatcher/dispatcher.go:43-64 | without a live binding: a choice that is bound at once |
| Dispatch.Dispatcher.BindTo | services/media-router/internal/dispatcher/dispatcher.go:60-63 | binding the room to a possible choice is what a pick without a live binding does |
| Dispatch.Dispatcher.Pick | services/media-router/internal/dispatcher/dispatcher.go:30-64 | the bound worker while it is live, with the store unchanged; otherwise a new choice and binding |
| Dispatch.AnswersAreLive | services/media-router/internal/dispatcher/dispatcher.go:30-64 | in every run of heartbeats and picks an answer is live and the room is bound to it afterwards; there is none if and only if no worker is live |
| Dispatch.BindingStays | services/media-router/internal/dispatcher/dispatcher.go:31-42 | the binding stays as it was made until a pick of the room finds the worker gone or the binding expired |
| Dispatch.PickIsSticky | services/media-router/internal/dispatcher/dispatcher.go:30-64 | once a pick has answered a worker every later pick of the room answers it, until its heartbeat or the binding expires |
| Dispatch.EmptyIdIsNotSticky | services/media-router/internal/dispatcher/dispatcher.go:31 | for a worker whose id is empty it does not hold: a run in which its room moves although it is live and bound |

## Left out

- Media elements, caps, linking, encoders and peer connections: foreign calls; only their success and the tables and pads they change are modelled.
- A position, size or stacking property that the media library refuses to set: the code ignores the error, the model sets it.
- The bounded input channels and their dropped packets: sound either enters a branch or does not.
- Video forwarding in SFU mode and the mixed video broadcast: only one video track exists, packets for other slots are dropped by design.
- Captions pushed to the pads, roster notifications, recording and statistics: no effect on the tables modelled here.
- `Close` of a room, and `Destroy` racing with `GetOrCreate`: the code gives no guarantee there.
- Two calls on the same id that overlap, and two adds of one id inside the mixer at the same time: the mixer's check and its registration are one step.
- Layout snapshots overtaking each other: applying the layout is one step of the class and no step of the runs.
- The order in which a forward comes to its receivers is arbitrary, and a forward that is never taken up again just stays pending: no fairness is stated.
- Redis errors and malformed worker records: calls of the store are atomic and succeed.
- Aliasing of the join order's backing array in `removeID`: the join order is a value that the methods reassign.
- Text.ScanInt: does not model leading white space for `%d`, because the field it reads never has any.
- Mixer.Compositor.AddPeer: requires 8 bytes of an id once the branch is built, because the code panics on a shorter one there; what that panic leaves behind is not modelled.
- Mixer.Compositor.SetPeerAudioMute: requires 8 bytes of an unknown id, because its error message slices the id.
- Conference.Room.AddPeer: inherits the mixer's demand on the id whenever it reaches the mixer.
- Conference.Room.AddSIPPeer: inherits the mixer's demand on the id.
- SpeakerDetector.Detector.Push: does not model infinite or undefined levels; levels are reals.
- Sdp.AnswerRoundTrip: requires an address without white space, because the reader trims each line.
- Peer pads that no cell names: they keep their old geometry, which is stated, and are no function of the current state.
- Signaling, HTTP handlers, UDP relays, the control plane and the web client: input, output and thin wrappers over libraries.
