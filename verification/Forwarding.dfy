/** Whole runs of a conference with the sound that the room forwards between participants. A forward looks up
    the sender's slot and the receivers under the room's lock and writes to one receiver after the other when it
    has let the lock go: calls of the room, other forwards and closing connections come in between. */
module Forwarding {
  import opened SlotTable
  import opened Membership
  import opened WebPeer
  import RoomRuns

  /** The connection of a WebRTC participant: what has been written to its tracks, a packet standing under the
      number of the forward that brought it. */
  datatype Endpoint = Endpoint(owner: string, closed: bool, tracks: Tracks<nat>)

  /** One forward: what it found at its look, and the receivers it has not come to yet. */
  datatype Flight = Flight(sender: string, slot: int, targets: set<nat>, pending: set<nat>)

  /** connected: which endpoint a participant has now. Endpoints and forwards are never taken off their lists. */
  datatype State = State(room: RoomRuns.State, endpoints: seq<Endpoint>, connected: map<string, nat>,
                         flights: seq<Flight>)

  const SILENT: Tracks<nat> := [[], [], [], [], [], [], [], [], [], [],
                                [], [], [], [], [], [], [], [], [], []]

  const START := State(RoomRuns.START, [], map[], [])

  datatype Event =
    | Room(e: RoomRuns.Event)
    | Look(sender: string)    // forwardAudio up to the unlock
    | Write(f: nat, p: nat)   // one write of forward f
    | Shut(p: nat)            // a connection fails or is closed

  function Slots(s: State): Table {
    s.room.tables.slots
  }

  /** The endpoints of everybody but the sender. */
  function Receivers(connected: map<string, nat>, sender: string): set<nat> {
    set r | r in connected && r != sender :: connected[r]
  }

  ghost predicate Enabled(s: State, e: Event) {
    match e
    case Room(e) => RoomRuns.Enabled(s.room, e)
    case Look(sender) => sender != ""
    case Write(f, p) => f < |s.flights| && p in s.flights[f].pending && p < |s.endpoints|
    case Shut(p) => p < |s.endpoints|
  }

  /** A registration adds an endpoint; a departure takes it out of the room but does not close it yet. */
  function Admit(s: State, e: RoomRuns.Event): State {
    match e
    case RegisterPeer(id) =>
      s.(endpoints := s.endpoints + [Endpoint(id, false, SILENT)], connected := s.connected[id := |s.endpoints|])
    case Leave(id, kind) => if kind == WebRTC then s.(connected := s.connected - {id}) else s
    case _ => s
  }

  function Next(s: State, e: Event): State
    requires Enabled(s, e)
  {
    match e
    case Room(e) => Admit(s, e).(room := RoomRuns.Next(s.room, e))
    case Look(sender) =>
      var slot := SlotOf(Slots(s), sender);
      var targets := Receivers(s.connected, sender);
      if slot < 0 then s else s.(flights := s.flights + [Flight(sender, slot, targets, targets)])
    case Write(f, p) =>
      var flight, receiver := s.flights[f], s.endpoints[p];
      s.(endpoints := s.endpoints[p := receiver.(tracks := Written(receiver.tracks, receiver.closed, flight.slot, f))],
         flights := s.flights[f := flight.(pending := flight.pending - {p})])
    case Shut(p) => s.(endpoints := s.endpoints[p := s.endpoints[p].(closed := true)])
  }

  // ----- what every step keeps ------------------------------------------------------------------------

  /** Whoever is connected has an endpoint of its own. */
  ghost predicate ConnectedOk(s: State) {
    && s.connected.Keys == s.room.tables.peers
    && (forall r | r in s.connected :: s.connected[r] < |s.endpoints| && s.endpoints[s.connected[r]].owner == r)
  }

  ghost predicate FlightOk(s: State, f: Flight) {
    && 0 <= f.slot < SLOTS && f.pending <= f.targets
    && forall p | p in f.targets :: p < |s.endpoints| && s.endpoints[p].owner != f.sender
  }

  /** Forward f has come to endpoint p, and its track is k. */
  predicate Landed(s: State, f: nat, p: nat, k: int) {
    f < |s.flights| && s.flights[f].slot == k && p in s.flights[f].targets && p !in s.flights[f].pending
  }

  function Copies(tracks: Tracks<nat>, k: int, f: nat): nat
    requires 0 <= k < |tracks|
  {
    multiset(tracks[k])[f]
  }

  /** How often the packet of forward f is on track k of endpoint p. */
  ghost predicate CopiesOk(s: State, p: nat, k: int, f: nat)
    requires p < |s.endpoints|
  {
    && |s.endpoints[p].tracks| == SLOTS
    && (0 <= k < SLOTS ==>
          var n := Copies(s.endpoints[p].tracks, k, f);
          && n <= 1
          && (n == 1 ==> Landed(s, f, p, k))
          && (Landed(s, f, p, k) && !s.endpoints[p].closed ==> n == 1))
  }

  ghost predicate AllCopiesOk(s: State) {
    forall p: nat, k: int, f: nat {:trigger CopiesOk(s, p, k, f)} | p < |s.endpoints| :: CopiesOk(s, p, k, f)
  }

  ghost predicate FlightsOk(s: State) {
    forall f | 0 <= f < |s.flights| :: FlightOk(s, s.flights[f])
  }

  ghost predicate SoundOk(s: State) {
    ConnectedOk(s) && FlightsOk(s) && AllCopiesOk(s)
  }

  lemma NewEndpointCopies(s: State, p: nat, k: int, f: nat)
    requires FlightsOk(s) && p >= |s.endpoints|
    ensures !Landed(s, f, p, k)
  {
    assert f < |s.flights| ==> FlightOk(s, s.flights[f]);
  }

  lemma RoomKeepsSound(s: State, e: RoomRuns.Event)
    requires SoundOk(s) && RoomRuns.Enabled(s.room, e)
    ensures SoundOk(Next(s, Room(e)))
  {
    var s' := Next(s, Room(e));
    RoomKeepsConnected(s, e);
    forall f | 0 <= f < |s'.flights| ensures FlightOk(s', s'.flights[f]) {
      assert FlightOk(s, s.flights[f]);
    }
    forall p: nat, k: int, f: nat | p < |s'.endpoints| ensures CopiesOk(s', p, k, f) {
      if p < |s.endpoints| {
        assert CopiesOk(s, p, k, f);
      } else {
        NewEndpointCopies(s, p, k, f);
        SilentCopies(k, f);
      }
    }
  }

  lemma SilentCopies(k: int, f: nat)
    ensures |SILENT| == SLOTS && (0 <= k < SLOTS ==> Copies(SILENT, k, f) == 0)
  {}

  lemma RoomKeepsConnected(s: State, e: RoomRuns.Event)
    requires ConnectedOk(s) && RoomRuns.Enabled(s.room, e)
    ensures ConnectedOk(Next(s, Room(e)))
  {
    PeersChange(s.room, e);
  }

  lemma PeersChange(r: RoomRuns.State, e: RoomRuns.Event)
    requires RoomRuns.Enabled(r, e)
    ensures e.RegisterPeer? ==> RoomRuns.Next(r, e).tables.peers == r.tables.peers + {e.id}
    ensures e.Leave? && e.kind == WebRTC ==> RoomRuns.Next(r, e).tables.peers == r.tables.peers - {e.id}
    ensures !e.RegisterPeer? && !(e.Leave? && e.kind == WebRTC) ==> RoomRuns.Next(r, e).tables.peers == r.tables.peers
  {
    RoomRuns.TablesFollow(r, e);
  }

  lemma LookKeepsSound(s: State, sender: string)
    requires SoundOk(s) && sender != ""
    ensures SoundOk(Next(s, Look(sender)))
  {
    var s' := Next(s, Look(sender));
    forall f | 0 <= f < |s'.flights| ensures FlightOk(s', s'.flights[f]) {
      if f < |s.flights| { assert FlightOk(s, s.flights[f]); }
    }
    forall p: nat, k: int, f: nat | p < |s'.endpoints| ensures CopiesOk(s', p, k, f) {
      assert CopiesOk(s, p, k, f);
    }
  }

  lemma WriteKeepsSound(s: State, f: nat, p: nat)
    requires SoundOk(s) && Enabled(s, Write(f, p))
    ensures SoundOk(Next(s, Write(f, p)))
  {
    var s' := Next(s, Write(f, p));
    forall g | 0 <= g < |s'.flights| ensures FlightOk(s', s'.flights[g]) {
      assert FlightOk(s, s.flights[g]);
    }
    forall q: nat, k: int, g: nat | q < |s'.endpoints| ensures CopiesOk(s', q, k, g) {
      assert CopiesOk(s, q, k, g) && FlightOk(s, s.flights[f]);
      WriteKeepsCopies(s, f, p, q, k, g);
    }
  }

  lemma WriteKeepsCopies(s: State, f: nat, p: nat, q: nat, k: int, g: nat)
    requires Enabled(s, Write(f, p)) && FlightOk(s, s.flights[f]) && q < |s.endpoints| && CopiesOk(s, q, k, g)
    ensures CopiesOk(Next(s, Write(f, p)), q, k, g)
  {
    if q == p {
      WrittenCopies(s.endpoints[p].tracks, s.endpoints[p].closed, s.flights[f].slot, f, k, g);
    }
  }

  /** A write to an open connection adds one copy to its track, and changes no other count. */
  lemma WrittenCopies(tracks: Tracks<nat>, closed: bool, slot: int, f: nat, k: int, g: nat)
    requires 0 <= slot < |tracks|
    ensures var after := Written(tracks, closed, slot, f);
            && |after| == |tracks|
            && (0 <= k < |tracks| ==>
                  Copies(after, k, g) == Copies(tracks, k, g) + if !closed && k == slot && g == f then 1 else 0)
  {}

  lemma ShutKeepsSound(s: State, p: nat)
    requires SoundOk(s) && p < |s.endpoints|
    ensures SoundOk(Next(s, Shut(p)))
  {
    var s' := Next(s, Shut(p));
    forall f | 0 <= f < |s'.flights| ensures FlightOk(s', s'.flights[f]) {
      assert FlightOk(s, s.flights[f]);
    }
    forall q: nat, k: int, f: nat | q < |s'.endpoints| ensures CopiesOk(s', q, k, f) {
      assert CopiesOk(s, q, k, f);
    }
  }

  lemma StepKeepsSound(s: State, e: Event)
    requires SoundOk(s) && Enabled(s, e)
    ensures SoundOk(Next(s, e))
  {
    match e
    case Room(e) => RoomKeepsSound(s, e);
    case Look(sender) => LookKeepsSound(s, sender);
    case Write(f, p) => WriteKeepsSound(s, f, p);
    case Shut(p) => ShutKeepsSound(s, p);
  }

  // ----- runs ---------------------------------------------------------------------------------------------

  ghost predicate Step(s: State, e: Event, s': State) {
    Enabled(s, e) && s' == Next(s, e)
  }

  ghost predicate Run(states: seq<State>, events: seq<Event>) {
    && |states| == |events| + 1
    && states[0] == START
    && forall i | 0 <= i < |events| :: Step(states[i], events[i], states[i + 1])
  }

  lemma {:induction false} RunKeepsSound(states: seq<State>, events: seq<Event>, i: nat)
    requires Run(states, events) && i < |states|
    ensures SoundOk(states[i])
  {
    if i > 0 {
      RunKeepsSound(states, events, i - 1);
      assert Step(states[i - 1], events[i - 1], states[i]);
      StepKeepsSound(states[i - 1], events[i - 1]);
    }
  }

  /** The room's part of a run is a run of the room: what is proved of those holds here too. */
  lemma {:induction false} RoomPart(states: seq<State>, events: seq<Event>, i: nat)
    returns (rooms: seq<RoomRuns.State>, calls: seq<RoomRuns.Event>)
    requires Run(states, events) && i < |states|
    ensures RoomRuns.Run(rooms, calls) && rooms[|calls|] == states[i].room
  {
    if i == 0 {
      rooms, calls := [RoomRuns.START], [];
    } else {
      rooms, calls := RoomPart(states, events, i - 1);
      assert Step(states[i - 1], events[i - 1], states[i]);
      if events[i - 1].Room? {
        assert RoomRuns.Step(states[i - 1].room, events[i - 1].e, states[i].room);
        rooms, calls := RoomRuns.Extended(rooms, calls, events[i - 1].e, states[i].room);
      }
    }
  }

  lemma RoomAgrees(states: seq<State>, events: seq<Event>, i: nat)
    requires Run(states, events) && i < |states|
    ensures RoomRuns.TablesAgree(states[i].room) && RoomRuns.SlotsAgree(states[i].room)
  {
    var rooms, calls := RoomPart(states, events, i);
    RoomRuns.RunKeeps(rooms, calls, |calls|);
  }

  // ----- where a packet comes from -----------------------------------------------------------------------------

  /** Event j is the look of forward f, and this is what it saw. */
  ghost predicate LookOf(states: seq<State>, events: seq<Event>, j: nat, f: nat, flight: Flight)
    requires |states| == |events| + 1
  {
    && j < |events| && events[j] == Look(flight.sender) && flight.sender != "" && |states[j].flights| == f
    && flight.slot == SlotOf(Slots(states[j]), flight.sender) && flight.slot >= 0
    && flight.targets == Receivers(states[j].connected, flight.sender)
  }

  lemma StepKeepsFlight(s: State, e: Event, f: nat)
    requires Enabled(s, e) && f < |Next(s, e).flights|
    ensures if f < |s.flights| then Next(s, e).flights[f].(pending := {}) == s.flights[f].(pending := {})
            else e.Look? && f == |s.flights| && LookedUp(s, e.sender, Next(s, e).flights[f])
  {}

  predicate LookedUp(s: State, sender: string, flight: Flight) {
    && flight.sender == sender && flight.slot == SlotOf(Slots(s), sender) && flight.slot >= 0
    && flight.targets == Receivers(s.connected, sender)
  }

  lemma {:induction false} FlightHasLook(states: seq<State>, events: seq<Event>, i: nat, f: nat) returns (j: nat)
    requires Run(states, events) && i < |states| && f < |states[i].flights|
    ensures j < i && LookOf(states, events, j, f, states[i].flights[f])
  {
    assert Step(states[i - 1], events[i - 1], states[i]);
    StepKeepsFlight(states[i - 1], events[i - 1], f);
    if f < |states[i - 1].flights| {
      j := FlightHasLook(states, events, i - 1, f);
    } else {
      j := i - 1;
    }
  }

  lemma {:induction false} LookHasFlight(states: seq<State>, events: seq<Event>, j: nat, i: nat)
    requires Run(states, events) && j < i < |states|
    requires events[j].Look? && SlotOf(Slots(states[j]), events[j].sender) >= 0
    ensures |states[j].flights| < |states[i].flights|
    ensures LookedUp(states[j], events[j].sender, states[i].flights[|states[j].flights|])
    decreases i
  {
    assert Step(states[i - 1], events[i - 1], states[i]);
    if j < i - 1 {
      LookHasFlight(states, events, j, i - 1);
      StepKeepsFlight(states[i - 1], events[i - 1], |states[j].flights|);
    }
  }

  /** Every packet on track k of a participant's connection was sent by somebody else, who held slot k when the
      packet was looked at. */
  lemma PacketsComeFromTheSlot(states: seq<State>, events: seq<Event>, i: nat, p: nat, k: int, f: nat) returns (j: nat)
    requires Run(states, events) && i < |states| && p < |states[i].endpoints|
    requires 0 <= k < |states[i].endpoints[p].tracks| && f in states[i].endpoints[p].tracks[k]
    ensures j < i && events[j].Look? && |states[j].flights| == f
    ensures k < SLOTS && Slots(states[j])[k] == events[j].sender && events[j].sender != ""
    ensures events[j].sender != states[i].endpoints[p].owner
    ensures p in Receivers(states[j].connected, events[j].sender)
  {
    RunKeepsSound(states, events, i);
    var s := states[i];
    assert CopiesOk(s, p, k, f);
    assert Landed(s, f, p, k);
    assert FlightOk(s, s.flights[f]);
    j := FlightHasLook(states, events, i, f);
  }

  /** A forward writes at most once to each connection of the others, on the sender's track and on no other,
      and to nobody else; exactly once to each that is open when it has come to it. */
  lemma OneCopyEach(states: seq<State>, events: seq<Event>, j: nat, i: nat, p: nat, k: int)
    requires Run(states, events) && j < i < |states|
    requires events[j].Look? && SlotOf(Slots(states[j]), events[j].sender) >= 0
    requires p < |states[i].endpoints| && 0 <= k < SLOTS
    ensures |states[i].endpoints[p].tracks| == SLOTS && |states[j].flights| < |states[i].flights|
    ensures var f := |states[j].flights|;
            var n := Copies(states[i].endpoints[p].tracks, k, f);
            var meant := k == SlotOf(Slots(states[j]), events[j].sender) &&
                         p in Receivers(states[j].connected, events[j].sender);
            && n <= 1
            && (n == 1 ==> meant && p !in states[i].flights[f].pending)
            && (meant && p !in states[i].flights[f].pending && !states[i].endpoints[p].closed ==> n == 1)
  {
    LookHasFlight(states, events, j, i);
    RunKeepsSound(states, events, i);
    assert CopiesOk(states[i], p, k, |states[j].flights|);
  }

  /** When a forward is through, each participant other than the sender that was in the room at the look and whose
      connection is still open has its packet exactly once, on the track of the slot the sender held. */
  lemma ReachesEveryOther(states: seq<State>, events: seq<Event>, j: nat, i: nat, r: string)
    requires Run(states, events) && j < i < |states|
    requires events[j].Look? && SlotOf(Slots(states[j]), events[j].sender) >= 0
    requires |states[j].flights| < |states[i].flights| ==> states[i].flights[|states[j].flights|].pending == {}
    requires r in states[j].room.tables.peers && r != events[j].sender
    ensures r in states[j].connected && states[j].connected[r] < |states[i].endpoints|
    ensures var receiver := states[i].endpoints[states[j].connected[r]];
            && receiver.owner == r && |receiver.tracks| == SLOTS
            && (!receiver.closed ==>
                  Copies(receiver.tracks, SlotOf(Slots(states[j]), events[j].sender), |states[j].flights|) == 1)
  {
    var slot := SlotOf(Slots(states[j]), events[j].sender);
    RunKeepsSound(states, events, j);
    EndpointStays(states, events, j, i, states[j].connected[r]);
    LookHasFlight(states, events, j, i);
    OneCopyEach(states, events, j, i, states[j].connected[r], slot);
  }

  lemma {:induction false} EndpointStays(states: seq<State>, events: seq<Event>, j: nat, i: nat, p: nat)
    requires Run(states, events) && j <= i < |states| && p < |states[j].endpoints|
    ensures p < |states[i].endpoints| && states[i].endpoints[p].owner == states[j].endpoints[p].owner
    decreases i
  {
    if j < i {
      EndpointStays(states, events, j, i - 1, p);
      assert Step(states[i - 1], events[i - 1], states[i]);
    }
  }

  lemma StepKeepsTrack(s: State, e: Event, p: nat, k: int)
    requires Enabled(s, e) && p < |s.endpoints| && 0 <= k < |s.endpoints[p].tracks|
    ensures p < |Next(s, e).endpoints| && k < |Next(s, e).endpoints[p].tracks|
    ensures Next(s, e).endpoints[p].tracks[k] == s.endpoints[p].tracks[k] +
              if e.Write? && e.p == p && s.flights[e.f].slot == k && !s.endpoints[p].closed then [e.f] else []
  {}

  /** A track only grows at its end: its packets stand in the order in which they were written. */
  lemma TracksGrow(states: seq<State>, events: seq<Event>, j: nat, i: nat, p: nat, k: int)
    requires Run(states, events) && j <= i < |states|
    requires p < |states[j].endpoints| && 0 <= k < |states[j].endpoints[p].tracks|
    ensures p < |states[i].endpoints| && k < |states[i].endpoints[p].tracks|
    ensures states[j].endpoints[p].tracks[k] <= states[i].endpoints[p].tracks[k]
  {
    for m := j to i
      invariant p < |states[m].endpoints| && k < |states[m].endpoints[p].tracks|
      invariant states[j].endpoints[p].tracks[k] <= states[m].endpoints[p].tracks[k]
    {
      assert Step(states[m], events[m], states[m + 1]);
      StepKeepsTrack(states[m], events[m], p, k);
    }
  }

  /** A write puts its packet at the end of the track of its slot if the connection is open, and nothing else puts
      anything anywhere. */
  lemma WritesAtTheEnd(states: seq<State>, events: seq<Event>, i: nat, p: nat, k: int)
    requires Run(states, events) && i < |events|
    requires p < |states[i].endpoints| && 0 <= k < |states[i].endpoints[p].tracks|
    ensures p < |states[i + 1].endpoints| && k < |states[i + 1].endpoints[p].tracks|
    ensures var before, after := states[i].endpoints[p].tracks[k], states[i + 1].endpoints[p].tracks[k];
            if events[i].Write? && events[i].p == p && !states[i].endpoints[p].closed &&
               events[i].f < |states[i].flights| && states[i].flights[events[i].f].slot == k
            then after == before + [events[i].f] else after == before
  {
    assert Step(states[i], events[i], states[i + 1]);
    StepKeepsTrack(states[i], events[i], p, k);
  }

  // ----- when a track changes its sender -----------------------------------------------------------------------

  /** Between two moments of a run nobody leaves and the operator assigns nothing. */
  ghost predicate Undisturbed(events: seq<Event>, j: nat, i: nat) {
    forall m | j <= m < i && m < |events| && events[m].Room? :: !events[m].e.Leave? && !events[m].e.Assign?
  }

  lemma StepKeepsSlot(s: State, e: Event, k: int)
    requires Enabled(s, e) && 0 <= k < SLOTS && Slots(s)[k] != ""
    requires e.Room? ==> !e.e.Leave? && !e.e.Assign?
    ensures Slots(Next(s, e))[k] == Slots(s)[k]
  {
    if e.Room? { RoomRuns.TablesFollow(s.room, e.e); }
  }

  lemma {:induction false} SlotStays(states: seq<State>, events: seq<Event>, j: nat, i: nat, k: int)
    requires Run(states, events) && j <= i < |states| && Undisturbed(events, j, i)
    requires 0 <= k < SLOTS && Slots(states[j])[k] != ""
    ensures Slots(states[i])[k] == Slots(states[j])[k]
    decreases i
  {
    if j < i {
      SlotStays(states, events, j, i - 1, k);
      assert Step(states[i - 1], events[i - 1], states[i]);
      StepKeepsSlot(states[i - 1], events[i - 1], k);
    }
  }

  /** As long as nobody leaves and nothing is assigned, two forwards go out on the same track if and only if they
      have the same sender. */
  lemma SameTrackIff(states: seq<State>, events: seq<Event>, j: nat, i: nat)
    requires Run(states, events) && j <= i < |events| && Undisturbed(events, j, i)
    requires events[j].Look? && SlotOf(Slots(states[j]), events[j].sender) >= 0
    requires events[i].Look? && SlotOf(Slots(states[i]), events[i].sender) >= 0
    ensures SlotOf(Slots(states[j]), events[j].sender) == SlotOf(Slots(states[i]), events[i].sender) <==>
            events[j].sender == events[i].sender
  {
    var k := SlotOf(Slots(states[j]), events[j].sender);
    assert Step(states[j], events[j], states[j + 1]);
    SlotStays(states, events, j, i, k);
    RoomAgrees(states, events, i);
    OneSlot(Slots(states[i]), events[j].sender, k);
  }

  lemma OneSlot(t: Table, id: string, k: int)
    requires Injective(t) && id != "" && 0 <= k < SLOTS && t[k] == id
    ensures SlotOf(t, id) == k
  {}

  lemma FindsChange(events: seq<Event>, lo: nat, hi: nat) returns (m: nat)
    requires !Undisturbed(events, lo, hi)
    ensures lo <= m < hi && m < |events| && events[m].Room? && (events[m].e.Leave? || events[m].e.Assign?)
  {
    m :| lo <= m < hi && m < |events| && events[m].Room? && (events[m].e.Leave? || events[m].e.Assign?);
  }

  predicate LooksInTurn(events: seq<Event>, a: nat, b: nat, x: string, y: string) {
    a < b < |events| && events[a] == Look(x) && events[b] == Look(y)
  }

  /** Two senders meet on one track of a connection only across a departure or an assignment. */
  lemma SendersMeetOnlyAcrossAChange(states: seq<State>, events: seq<Event>, i: nat, p: nat, k: int, f: nat, g: nat)
    returns (m: nat)
    requires Run(states, events) && i < |states| && p < |states[i].endpoints|
    requires 0 <= k < |states[i].endpoints[p].tracks|
    requires f in states[i].endpoints[p].tracks[k] && g in states[i].endpoints[p].tracks[k]
    requires f < |states[i].flights| && g < |states[i].flights|
    requires states[i].flights[f].sender != states[i].flights[g].sender
    ensures m < i && events[m].Room? && (events[m].e.Leave? || events[m].e.Assign?)
    ensures var x, y := states[i].flights[f].sender, states[i].flights[g].sender;
            exists a: nat, b: nat ::
              a < m < b < i && (LooksInTurn(events, a, b, x, y) || LooksInTurn(events, a, b, y, x))
  {
    RunKeepsSound(states, events, i);
    assert CopiesOk(states[i], p, k, f) && CopiesOk(states[i], p, k, g);
    var a := FlightHasLook(states, events, i, f);
    var b := FlightHasLook(states, events, i, g);
    var lo, hi := if a <= b then a else b, if a <= b then b else a;
    if Undisturbed(events, lo, hi) {
      SameTrackIff(states, events, lo, hi);
      assert false;
    }
    m := FindsChange(events, lo, hi);
    assert LooksInTurn(events, lo, hi, events[lo].sender, events[hi].sender);
  }

  // ----- nobody hears itself --------------------------------------------------------------------------------------

  /** In no state of any run is a WebRTC participant's own packet on one of its tracks. */
  lemma NoTrackEcho(states: seq<State>, events: seq<Event>, i: nat, p: nat, k: int, f: nat)
    requires Run(states, events) && i < |states| && p < |states[i].endpoints|
    requires 0 <= k < |states[i].endpoints[p].tracks| && f in states[i].endpoints[p].tracks[k]
    ensures f < |states[i].flights| && states[i].flights[f].sender != states[i].endpoints[p].owner
  {
    RunKeepsSound(states, events, i);
    assert CopiesOk(states[i], p, k, f) && Landed(states[i], f, p, k);
    assert FlightOk(states[i], states[i].flights[f]);
  }

  /** A SIP participant is handed a mix with its own sound in it only if its mute call failed, whatever is forwarded
      in between. */
  lemma NoMixedEcho(states: seq<State>, events: seq<Event>, i: nat, d: RoomRuns.Delivery)
    requires Run(states, events) && i < |states|
    requires d in RoomRuns.Deliveries(states[i].room, RoomRuns.SendMix) && RoomRuns.SelfEcho(states[i].room, d)
    ensures states[i].room.sipSerial[d.receiver] in states[i].room.unmuted
  {
    var rooms, calls := RoomPart(states, events, i);
    RoomRuns.RunKeeps(rooms, calls, |calls|);
    assert RoomRuns.Harmless(states[i].room, states[i].room.sipSerial[d.receiver]);
  }
}
