/** Whole runs of a conference. Calls that concern different ids interleave in any way; each call is
    split where the room's lock is released, and a call of the mixer is one step. Calls that concern the
    same id do not overlap. */
module RoomRuns {
  import opened SlotTable
  import opened Membership

  /** serial tells the branches apart that had the same id at different times. fed: sound has entered. */
  datatype Branch = Branch(serial: nat, kind: Kind, muted: bool, fed: bool)

  /** How far a call on an id has come. */
  datatype Phase =
    | AddStarted     // AddPeer: there is no such peer
    | AddBranched    // AddPeer: the mixer has the branch
    | AddNegotiated  // AddPeer: the answer is ready
    | SIPBranched    // AddSIPPeer: the mixer has the branch
    | SIPMuted       // AddSIPPeer: the mute call has returned
    | SIPListening   // AddSIPPeer: the listener is open, sound can arrive
    | RollingBack    // negotiation or listener failed, the branch is still there
    | Leaving        // a removal has left the tables, the branch is still there

  datatype State = State(
    tables: Tables,
    branches: map<string, Branch>,
    ops: map<string, Phase>,
    sipSerial: map<string, nat>,  // which branch a SIP participant's own sound goes through
    kinds: map<nat, Kind>,        // of every branch there ever was
    unmuted: set<nat>,            // the branches whose mute call failed
    mixed: seq<set<nat>>)         // mixed sound on its way to the SIP participants: the branches in it

  const START := State(EMPTY, map[], map[], map[], map[], {}, [])

  datatype Event =
    | StartAdd(id: string)
    | AbandonAdd(id: string)
    | BranchPeer(id: string, built: bool)
    | Negotiate(id: string, ok: bool)
    | RegisterPeer(id: string)
    | BranchSIP(id: string, built: bool)
    | Mute(id: string, ok: bool)
    | Listen(id: string, ok: bool)
    | RegisterSIP(id: string)
    | Leave(id: string, kind: Kind)
    | RemoveBranch(id: string)
    | Assign(assign: map<int, string>, order: seq<int>)
    | Feed(id: string)
    | Mix(sources: set<nat>)
    | SendMix

  predicate At(s: State, id: string, p: Phase) {
    id in s.ops && s.ops[id] == p
  }

  /** Sound of this id may be entering its branch. */
  predicate Flowing(s: State, id: string) {
    id in s.tables.Members() || At(s, id, SIPListening) || At(s, id, Leaving)
  }

  ghost predicate Audible(s: State, serial: nat) {
    exists id :: id in s.branches && s.branches[id].serial == serial && s.branches[id].fed && !s.branches[id].muted
  }

  ghost predicate AllAudible(s: State, sources: set<nat>) {
    forall n | n in sources :: Audible(s, n)
  }

  /** The operator names members or nobody. */
  ghost predicate NamesMembers(assign: map<int, string>, members: seq<string>) {
    forall k | InRange(assign, k) :: assign[k] == "" || assign[k] in members
  }

  /** What the code lets happen. */
  ghost predicate Allowed(s: State, e: Event) {
    match e
    case StartAdd(id) => id != "" && id !in s.ops
    case AbandonAdd(id) => At(s, id, AddStarted)
    case BranchPeer(id, _) => At(s, id, AddStarted)
    case Negotiate(id, _) => At(s, id, AddBranched)
    case RegisterPeer(id) => At(s, id, AddNegotiated)
    case BranchSIP(id, _) => id != "" && id !in s.ops
    case Mute(id, _) => At(s, id, SIPBranched) && id in s.branches
    case Listen(id, _) => At(s, id, SIPMuted)
    case RegisterSIP(id) => At(s, id, SIPListening) && id in s.branches
    case Leave(id, _) => id != "" && id !in s.ops
    case RemoveBranch(id) => At(s, id, RollingBack) || At(s, id, Leaving)
    case Assign(assign, order) => IsWalk(order, assign)
    case Feed(id) => id in s.branches && Flowing(s, id)
    case Mix(sources) => AllAudible(s, sources)
    case SendMix => s.mixed != []
  }

  /** What its callers have to see to: a participant leaves by the call for its own kind, and an assignment
      names members or nobody. */
  ghost predicate Proper(s: State, e: Event) {
    match e
    case Leave(id, kind) => id !in (if kind == WebRTC then s.tables.sips else s.tables.peers)
    case Assign(assign, _) => NamesMembers(assign, s.tables.order)
    case _ => true
  }

  ghost predicate Enabled(s: State, e: Event) {
    Allowed(s, e) && Proper(s, e)
  }

  function WithBranch(s: State, id: string, kind: Kind, p: Phase): State {
    var serial := |s.kinds|;
    s.(branches := s.branches[id := Branch(serial, kind, false, false)],
       kinds := s.kinds[serial := kind],
       ops := s.ops[id := p])
  }

  function Next(s: State, e: Event): State
    requires Allowed(s, e)
  {
    match e
    case StartAdd(id) => if id in s.tables.peers then s else s.(ops := s.ops[id := AddStarted])
    case AbandonAdd(id) => s.(ops := s.ops - {id})
    case BranchPeer(id, built) =>
      if id in s.branches || !built then s.(ops := s.ops - {id}) else WithBranch(s, id, WebRTC, AddBranched)
    case Negotiate(id, ok) => s.(ops := s.ops[id := if ok then AddNegotiated else RollingBack])
    case RegisterPeer(id) => s.(tables := Joined(s.tables, id, WebRTC), ops := s.ops - {id})
    case BranchSIP(id, built) => if id in s.branches || !built then s else WithBranch(s, id, SIP, SIPBranched)
    case Mute(id, ok) =>
      var b := s.branches[id];
      s.(branches := s.branches[id := b.(muted := ok)],
         unmuted := if ok then s.unmuted else s.unmuted + {b.serial},
         ops := s.ops[id := SIPMuted])
    case Listen(id, ok) => s.(ops := s.ops[id := if ok then SIPListening else RollingBack])
    case RegisterSIP(id) =>
      s.(tables := Joined(s.tables, id, SIP), ops := s.ops - {id},
         sipSerial := s.sipSerial[id := s.branches[id].serial])
    case Leave(id, kind) =>
      s.(tables := Departed(s.tables, id, kind), ops := s.ops[id := Leaving], sipSerial := s.sipSerial - {id})
    case RemoveBranch(id) => s.(branches := s.branches - {id}, ops := s.ops - {id})
    case Assign(assign, order) => s.(tables := s.tables.(slots := AssignAll(s.tables.slots, assign, order)))
    case Feed(id) => s.(branches := s.branches[id := s.branches[id].(fed := true)])
    case Mix(sources) => s.(mixed := s.mixed + [sources])
    case SendMix => s.(mixed := s.mixed[1..])
  }

  /** What an event does to the tables. */
  function NextTables(t: Tables, e: Event): Tables
    requires e.Assign? ==> forall k | k in e.order :: k in e.assign
  {
    match e
    case RegisterPeer(id) => Joined(t, id, WebRTC)
    case RegisterSIP(id) => Joined(t, id, SIP)
    case Leave(id, kind) => Departed(t, id, kind)
    case Assign(assign, order) => t.(slots := AssignAll(t.slots, assign, order))
    case _ => t
  }

  lemma TablesFollow(s: State, e: Event)
    requires Allowed(s, e)
    ensures Next(s, e).tables == NextTables(s.tables, e)
  {
    match e
    case RegisterPeer(_) =>
    case RegisterSIP(_) =>
    case Leave(_, _) =>
    case Assign(_, _) =>
    case _ =>
  }

  // ----- what every step keeps: the tables ------------------------------------------------------------

  /** What the tables say about one id, given how far its call has come. */
  predicate Agrees(s: State, id: string) {
    var t := s.tables;
    if id !in s.ops then
      (id in t.order <==> id in s.branches) && (id in t.order <==> id in t.Members())
    else match s.ops[id]
      case AddStarted => id !in t.peers && (id in t.order <==> id in s.branches) && (id in t.order <==> id in t.sips)
      case Leaving => id !in t.order && id !in t.Members()
      case _ => id in s.branches && id !in t.order && id !in t.Members()
  }

  ghost predicate TablesAgree(s: State) {
    && NoDuplicates(s.tables.order)
    && s.tables.peers !! s.tables.sips
    && (forall id :: Agrees(s, id))
    && "" !in s.tables.order && "" !in s.branches && "" !in s.ops
  }

  ghost predicate HeldByMembers(t: Table, members: seq<string>) {
    forall i | 0 <= i < SLOTS && t[i] != "" :: t[i] in members
  }

  ghost predicate SlotsHold(t: Tables) {
    Injective(t.slots) && HeldByMembers(t.slots, t.order)
  }

  ghost predicate SlotsAgree(s: State) {
    SlotsHold(s.tables)
  }

  predicate Joins(e: Event, id: string, kind: Kind) {
    (e == RegisterPeer(id) && kind == WebRTC) || (e == RegisterSIP(id) && kind == SIP)
  }

  lemma JoinAgrees(s: State, e: Event, id: string, kind: Kind)
    requires TablesAgree(s) && SlotsAgree(s) && Enabled(s, e) && Joins(e, id, kind)
    ensures TablesAgree(Next(s, e)) && SlotsAgree(Next(s, e))
  {
    assert Agrees(s, id);
    forall x ensures Agrees(Next(s, e), x) {
      assert Agrees(s, x);
      JoinSeen(s, e, id, kind, x);
    }
    JoinSeats(s.tables, id, kind);
  }

  /** A newcomer's registration, seen by one id. */
  lemma JoinSeen(s: State, e: Event, id: string, kind: Kind, x: string)
    requires Enabled(s, e) && Joins(e, id, kind) && Agrees(s, id) && Agrees(s, x)
    ensures Agrees(Next(s, e), x)
  {}

  lemma JoinSeats(t: Tables, id: string, kind: Kind)
    requires id != "" && id !in t.order && NoDuplicates(t.order) && SlotsHold(t)
    ensures NoDuplicates(Joined(t, id, kind).order) && SlotsHold(Joined(t, id, kind))
  {
    assert !Holds(t.slots, id);
    SeatInjectiveIff(t.slots, id);
  }

  lemma LeaveAgrees(s: State, id: string, kind: Kind)
    requires TablesAgree(s) && SlotsAgree(s) && Enabled(s, Leave(id, kind))
    ensures TablesAgree(Next(s, Leave(id, kind))) && SlotsAgree(Next(s, Leave(id, kind)))
  {
    var s' := Next(s, Leave(id, kind));
    RemoveIDMeaning(s.tables.order, id);
    VacateKeepsInjective(s.tables.slots, id);
    forall x ensures Agrees(s', x) {
      assert Agrees(s, x);
    }
  }

  lemma {:induction false} AssignedAreMembers(t: Table, assign: map<int, string>, order: seq<int>, members: seq<string>)
    requires forall k | k in order :: k in assign
    requires HeldByMembers(t, members)
    requires NamesMembers(assign, members)
    ensures HeldByMembers(AssignAll(t, assign, order), members)
  {
    if order != [] {
      var last := order[|order| - 1];
      AssignedAreMembers(t, assign, order[..|order| - 1], members);
      assert 0 <= last < SLOTS ==> InRange(assign, last);
    }
  }

  lemma AssignAgrees(s: State, assign: map<int, string>, order: seq<int>)
    requires TablesAgree(s) && SlotsAgree(s) && Enabled(s, Assign(assign, order))
    ensures TablesAgree(Next(s, Assign(assign, order))) && SlotsAgree(Next(s, Assign(assign, order)))
  {
    var s' := Next(s, Assign(assign, order));
    AssignKeepsInjective(s.tables.slots, assign, order);
    AssignedAreMembers(s.tables.slots, assign, order, s.tables.order);
    forall x ensures Agrees(s', x) {
      assert Agrees(s, x);
    }
  }

  /** Every step, at whatever point of whatever other calls, keeps the tables in agreement. */
  lemma StepKeepsTables(s: State, e: Event)
    requires TablesAgree(s) && SlotsAgree(s) && Enabled(s, e)
    ensures TablesAgree(Next(s, e)) && SlotsAgree(Next(s, e))
  {
    match e
    case RegisterPeer(id) => JoinAgrees(s, e, id, WebRTC);
    case RegisterSIP(id) => JoinAgrees(s, e, id, SIP);
    case Leave(id, kind) => LeaveAgrees(s, id, kind);
    case Assign(assign, order) => AssignAgrees(s, assign, order);
    case _ => OtherStepKeepsTables(s, e);
  }

  /** A step that does not touch the tables, seen by one id. */
  lemma OtherStepAgrees(s: State, e: Event, x: string)
    requires Enabled(s, e) && Agrees(s, x)
    requires !e.RegisterPeer? && !e.RegisterSIP? && !e.Leave? && !e.Assign?
    ensures Agrees(Next(s, e), x)
  {
    TablesStay(s, e);
    if Concerns(e, x) { OwnStepAgrees(s, e, x); } else { OtherBranchStays(s, e, x); }
  }

  lemma TablesStay(s: State, e: Event)
    requires Enabled(s, e) && !e.RegisterPeer? && !e.RegisterSIP? && !e.Leave? && !e.Assign?
    ensures Next(s, e).tables == s.tables
  {}

  lemma OwnStepAgrees(s: State, e: Event, x: string)
    requires Enabled(s, e) && Agrees(s, x) && Concerns(e, x)
    requires !e.RegisterPeer? && !e.RegisterSIP? && !e.Leave? && !e.Assign?
    ensures Agrees(Next(s, e), x)
  {
    match e
    case BranchPeer(_, _) =>
    case BranchSIP(_, _) =>
    case RemoveBranch(_) =>
    case _ =>
  }

  lemma OtherStepKeepsTables(s: State, e: Event)
    requires TablesAgree(s) && SlotsAgree(s) && Enabled(s, e)
    requires !e.RegisterPeer? && !e.RegisterSIP? && !e.Leave? && !e.Assign?
    ensures TablesAgree(Next(s, e)) && SlotsAgree(Next(s, e))
  {
    forall x ensures Agrees(Next(s, e), x) {
      assert Agrees(s, x);
      OtherStepAgrees(s, e, x);
    }
  }

  // ----- what every step keeps: the sound --------------------------------------------------------------

  /** A serial that cannot stand for the sound of a SIP participant whose mute call succeeded. */
  predicate Harmless(s: State, n: nat) {
    n in s.kinds && (s.kinds[n] == WebRTC || n in s.unmuted)
  }

  /** A SIP branch is muted before sound enters, or its mute call failed. */
  predicate BranchAgrees(s: State, id: string, b: Branch) {
    && b.serial in s.kinds && s.kinds[b.serial] == b.kind
    && (b.kind == SIP ==> b.muted || b.serial in s.unmuted || (At(s, id, SIPBranched) && !b.fed))
  }

  predicate AddingSIP(s: State, id: string) {
    At(s, id, SIPBranched) || At(s, id, SIPMuted) || At(s, id, SIPListening)
  }

  ghost predicate SerialsAgree(s: State) {
    forall n: nat :: n in s.kinds <==> n < |s.kinds|
  }

  predicate BranchOk(s: State, id: string) {
    && (id in s.branches ==> BranchAgrees(s, id, s.branches[id]))
    && (AddingSIP(s, id) ==> id in s.branches && s.branches[id].kind == SIP)
  }

  ghost predicate BranchesAgree(s: State) {
    forall id :: BranchOk(s, id)
  }

  ghost predicate SIPsAgree(s: State) {
    && s.sipSerial.Keys == s.tables.sips
    && (forall id | id in s.sipSerial :: s.sipSerial[id] in s.kinds && s.kinds[s.sipSerial[id]] == SIP)
  }

  ghost predicate MixedAgrees(s: State) {
    forall i, n | 0 <= i < |s.mixed| && n in s.mixed[i] :: Harmless(s, n)
  }

  ghost predicate SoundAgrees(s: State) {
    SerialsAgree(s) && BranchesAgree(s) && SIPsAgree(s) && MixedAgrees(s)
  }

  predicate Builds(s: State, e: Event) {
    (e.BranchPeer? || e.BranchSIP?) && e.id !in s.branches && e.built
  }

  lemma KindsGrow(s: State, e: Event)
    requires Enabled(s, e)
    requires Builds(s, e) ==> |s.kinds| !in s.kinds
    ensures forall n | n in s.kinds :: n in Next(s, e).kinds && Next(s, e).kinds[n] == s.kinds[n]
    ensures s.unmuted <= Next(s, e).unmuted
  {}

  lemma StepKeepsSerials(s: State, e: Event)
    requires SerialsAgree(s) && Enabled(s, e)
    ensures SerialsAgree(Next(s, e))
    ensures forall n | n in s.kinds :: n in Next(s, e).kinds && Next(s, e).kinds[n] == s.kinds[n]
    ensures s.unmuted <= Next(s, e).unmuted
  {
    if Builds(s, e) {
      assert |s.kinds| !in s.kinds;
      assert |Next(s, e).kinds| == |s.kinds| + 1;
    }
  }

  predicate Concerns(e: Event, id: string) {
    match e
    case Assign(_, _) => false
    case Mix(_) => false
    case SendMix => false
    case _ => e.id == id
  }

  lemma OtherBranchStays(s: State, e: Event, id: string)
    requires Enabled(s, e) && !Concerns(e, id)
    ensures var s' := Next(s, e);
            && (id in s'.branches <==> id in s.branches) && (id in s.branches ==> s'.branches[id] == s.branches[id])
            && (id in s'.ops <==> id in s.ops) && (id in s.ops ==> s'.ops[id] == s.ops[id])
  {
    match e
    case BranchPeer(_, _) =>
    case BranchSIP(_, _) =>
    case Mute(_, _) =>
    case Leave(_, _) =>
    case RemoveBranch(_) =>
    case Assign(_, _) =>
    case _ =>
  }

  lemma ConcernedBranchOk(s: State, e: Event, id: string)
    requires Enabled(s, e) && Agrees(s, id) && BranchOk(s, id) && Concerns(e, id)
    requires Builds(s, e) ==> |s.kinds| !in s.kinds
    ensures BranchOk(Next(s, e), id)
  {
    if Builds(s, e) { BuiltBranchOk(s, e, id); } else { UnbuiltBranchOk(s, e, id); }
  }

  lemma BuiltBranchOk(s: State, e: Event, id: string)
    requires Enabled(s, e) && Concerns(e, id) && Builds(s, e) && |s.kinds| !in s.kinds
    ensures BranchOk(Next(s, e), id)
  {}

  lemma UnbuiltBranchOk(s: State, e: Event, id: string)
    requires Enabled(s, e) && Agrees(s, id) && BranchOk(s, id) && Concerns(e, id) && !Builds(s, e)
    ensures BranchOk(Next(s, e), id)
  {}

  lemma StepKeepsBranch(s: State, e: Event, id: string)
    requires Enabled(s, e) && Agrees(s, id) && BranchOk(s, id)
    requires Builds(s, e) ==> |s.kinds| !in s.kinds
    ensures BranchOk(Next(s, e), id)
  {
    if Concerns(e, id) { ConcernedBranchOk(s, e, id); } else {
      OtherBranchStays(s, e, id);
      KindsGrow(s, e);
    }
  }

  lemma StepKeepsBranches(s: State, e: Event)
    requires TablesAgree(s) && SerialsAgree(s) && BranchesAgree(s) && Enabled(s, e)
    ensures BranchesAgree(Next(s, e))
  {
    forall id ensures BranchOk(Next(s, e), id) {
      assert Agrees(s, id);
      StepKeepsBranch(s, e, id);
    }
  }

  lemma StepKeepsSIPs(s: State, e: Event)
    requires TablesAgree(s) && SerialsAgree(s) && BranchesAgree(s) && SIPsAgree(s) && Enabled(s, e)
    ensures SIPsAgree(Next(s, e))
  {
    StepKeepsSerials(s, e);
    match e
    case RegisterSIP(id) => assert AddingSIP(s, id) && BranchOk(s, id);
    case Leave(id, kind) => if id in s.sipSerial { assert id in s.tables.sips; }
    case _ =>
  }

  lemma StepKeepsMixed(s: State, e: Event)
    requires SerialsAgree(s) && BranchesAgree(s) && MixedAgrees(s) && Enabled(s, e)
    ensures MixedAgrees(Next(s, e))
  {
    StepKeepsSerials(s, e);
    var s' := Next(s, e);
    forall i, n | 0 <= i < |s'.mixed| && n in s'.mixed[i] ensures Harmless(s', n) {
      if e.Mix? && i == |s.mixed| {
        assert Audible(s, n);
        var id :| id in s.branches && s.branches[id].serial == n && s.branches[id].fed && !s.branches[id].muted;
        assert BranchOk(s, id);
      } else {
        assert n in s.mixed[if e.SendMix? then i + 1 else i];
        assert Harmless(s, n);
      }
    }
  }

  lemma StepKeepsSound(s: State, e: Event)
    requires TablesAgree(s) && SoundAgrees(s) && Enabled(s, e)
    ensures SoundAgrees(Next(s, e))
  {
    StepKeepsSerials(s, e);
    StepKeepsBranches(s, e);
    StepKeepsSIPs(s, e);
    StepKeepsMixed(s, e);
  }

  // ----- runs -----------------------------------------------------------------------------------------------

  ghost predicate Step(s: State, e: Event, s': State) {
    Enabled(s, e) && s' == Next(s, e)
  }

  /** Any number of calls, interleaved in any way. */
  ghost predicate Run(states: seq<State>, events: seq<Event>) {
    && |states| == |events| + 1
    && states[0] == START
    && forall i | 0 <= i < |events| :: Step(states[i], events[i], states[i + 1])
  }

  lemma {:induction false} RunKeeps(states: seq<State>, events: seq<Event>, i: nat)
    requires Run(states, events) && i < |states|
    ensures TablesAgree(states[i]) && SlotsAgree(states[i]) && SoundAgrees(states[i])
  {
    assert |START.kinds| == 0;
    if i > 0 {
      RunKeeps(states, events, i - 1);
      assert Step(states[i - 1], events[i - 1], states[i]);
      StepKeepsTables(states[i - 1], events[i - 1]);
      StepKeepsSound(states[i - 1], events[i - 1]);
    }
  }

  lemma RunKeepsSerials(states: seq<State>, events: seq<Event>, i: nat)
    requires Run(states, events) && i < |states|
    ensures SerialsAgree(states[i])
  {
    RunKeeps(states, events, i);
  }

  /** In every state of every interleaving the join order has no duplicates, each id in it has a branch in
      the mixer, and for every id without a call in flight the join order, the participants and the
      branches agree; this includes the ids whose negotiation or listener failed. */
  lemma MembershipAgrees(states: seq<State>, events: seq<Event>, i: nat, id: string)
    requires Run(states, events) && i < |states|
    ensures var s := states[i];
            && NoDuplicates(s.tables.order)
            && (id in s.tables.order ==> id in s.branches)
            && (id !in s.ops ==>
                (id in s.tables.order <==> id in s.tables.Members()) && (id in s.tables.order <==> id in s.branches))
  {
    RunKeeps(states, events, i);
    assert Agrees(states[i], id);
  }

  /** An id that an assignment gives a slot holds a slot afterwards, in one order as in another. */
  lemma {:induction false} AssignedHolds(t: Table, assign: map<int, string>, order: seq<int>, k: int)
    returns (slot: int)
    requires forall j | j in order :: j in assign
    requires forall i, j | 0 <= i < j < |order| :: order[i] != order[j]
    requires k in order && InRange(assign, k) && assign[k] != ""
    ensures slot in order && 0 <= slot < SLOTS && AssignAll(t, assign, order)[slot] == assign[k] == assign[slot]
  {
    var init, last := order[..|order| - 1], order[|order| - 1];
    assert order == init + [last];
    if k == last || (InRange(assign, last) && assign[last] == assign[k]) {
      slot := last;
    } else {
      slot := AssignedHolds(t, assign, init, k);
    }
  }

  /** A step that the code allows keeps tables and slots in agreement if and only if its caller saw to what
      Proper asks for. */
  lemma StepKeepsTablesIff(s: State, e: Event)
    requires TablesAgree(s) && SlotsAgree(s) && Allowed(s, e)
    ensures TablesAgree(Next(s, e)) && SlotsAgree(Next(s, e)) <==> Proper(s, e)
  {
    if Proper(s, e) {
      StepKeepsTables(s, e);
    } else {
      match e
      case Leave(id, kind) => assert !Agrees(Next(s, e), id);
      case Assign(assign, order) =>
        var k :| InRange(assign, k) && assign[k] != "" && assign[k] !in s.tables.order;
        var slot := AssignedHolds(s.tables.slots, assign, order, k);
        assert !SlotsAgree(Next(s, e));
    }
  }

  /** Seen at the end of the removal: participants and branches agree about the id if and only if it is not a
      participant of the other kind. */
  lemma RightKindIff(s: State, id: string, kind: Kind)
    requires TablesAgree(s) && id !in s.ops
    ensures var t := Departed(s.tables, id, kind);
            (id in t.Members() <==> id in s.branches - {id}) <==>
            id !in (if kind == WebRTC then s.tables.sips else s.tables.peers)
  {
    assert Agrees(s, id);
  }

  // ----- what becomes of improper calls ----------------------------------------------------------------

  /** Runs of everything the code allows. */
  ghost predicate LooseRun(states: seq<State>, events: seq<Event>) {
    && |states| == |events| + 1
    && states[0] == START
    && forall i | 0 <= i < |events| :: LooseStep(states[i], events[i], states[i + 1])
  }

  ghost predicate LooseStep(s: State, e: Event, s': State) {
    Allowed(s, e) && s' == Next(s, e)
  }

  lemma ExtendedLoosely(states: seq<State>, events: seq<Event>, e: Event, s: State)
    returns (states': seq<State>, events': seq<Event>)
    requires LooseRun(states, events) && LooseStep(states[|events|], e, s)
    ensures LooseRun(states', events') && |events'| == |events| + 1
    ensures events' == events + [e] && states' == states + [s]
  {
    states', events' := states + [s], events + [e];
    forall i | 0 <= i < |events'| ensures LooseStep(states'[i], events'[i], states'[i + 1]) {
      if i < |events| { assert LooseStep(states[i], events[i], states[i + 1]); }
    }
  }

  lemma RunIsLoose(states: seq<State>, events: seq<Event>)
    requires Run(states, events)
    ensures LooseRun(states, events)
  {
    forall i | 0 <= i < |events| ensures LooseStep(states[i], events[i], states[i + 1]) {
      assert Step(states[i], events[i], states[i + 1]);
    }
  }

  /** A SIP participant removed by RemovePeer is left among the participants, without a branch. */
  lemma WrongKindDisagrees(id: string) returns (states: seq<State>, events: seq<Event>)
    requires id != ""
    ensures LooseRun(states, events) && |events| == 6 && Run(states[..5], events[..4])
    ensures events[3] == RegisterSIP(id) && events[4] == Leave(id, WebRTC) && events[5] == RemoveBranch(id)
    ensures var s := states[6];
            id !in s.ops && id in s.tables.Members() && id !in s.branches && id !in s.tables.order
  {
    var states4, events4 := SIPJoins(id, true);
    RunIsLoose(states4, events4);
    var s5, s6 := WrongLeave(id, states4[4]);
    var states5, events5 := ExtendedLoosely(states4, events4, Leave(id, WebRTC), s5);
    states, events := ExtendedLoosely(states5, events5, RemoveBranch(id), s6);
    assert states[..5] == states4 && events[..4] == events4;
  }

  lemma WrongLeave(id: string, s4: State) returns (s5: State, s6: State)
    requires id != "" && id !in s4.ops && id in s4.tables.sips && s4.tables.order == [id]
    ensures LooseStep(s4, Leave(id, WebRTC), s5) && LooseStep(s5, RemoveBranch(id), s6)
    ensures id !in s6.ops && id in s6.tables.Members() && id !in s6.branches && id !in s6.tables.order
  {
    s5 := Next(s4, Leave(id, WebRTC));
    s6 := Next(s5, RemoveBranch(id));
  }

  /** An id that is given slot 1 before it joins holds two slots once it has joined. */
  lemma EarlyAssignmentDoubles(id: string) returns (states: seq<State>, events: seq<Event>)
    requires id != ""
    ensures LooseRun(states, events) && |events| == 5
    ensures events[0] == Assign(map[1 := id], [1]) && events[1] == StartAdd(id) && events[4] == RegisterPeer(id)
    ensures states[5].tables.slots[0] == states[5].tables.slots[1] == id
  {
    var s1 := AssignedFirst(id);
    states, events := ExtendedLoosely([START], [], Assign(map[1 := id], [1]), s1);
    states, events := PeerJoins(states, events, id);
  }

  lemma AssignedFirst(id: string) returns (s: State)
    requires id != ""
    ensures LooseStep(START, Assign(map[1 := id], [1]), s) && s == START.(tables := s.tables)
    ensures s.tables == EMPTY.(slots := s.tables.slots) && s.tables.slots[0] == "" && s.tables.slots[1] == id
  {
    var table := AssignAll(FREE, map[1 := id], [1]);
    assert [1][..0] == [];
    assert AssignAll(FREE, map[1 := id], []) == FREE;
    assert table == AssignOne(FREE, 1, id);
    assert IsWalk([1], map[1 := id]);
    s := START.(tables := EMPTY.(slots := table));
  }

  /** A WebRTC participant joins where a run has come to. */
  lemma PeerJoins(states: seq<State>, events: seq<Event>, id: string) returns (states': seq<State>, events': seq<Event>)
    requires LooseRun(states, events) && id != ""
    requires var s := states[|events|]; id !in s.ops && id !in s.tables.peers && id !in s.branches
    ensures LooseRun(states', events') && |events'| == |events| + 4 && events'[..|events|] == events
    ensures events'[|events|] == StartAdd(id) && events'[|events| + 3] == RegisterPeer(id)
    ensures states'[|events'|].tables == Joined(states[|events|].tables, id, WebRTC)
  {
    var s1, s2, s3, s4 := PeerJoinSteps(states[|events|], id);
    var states1, events1 := ExtendedLoosely(states, events, StartAdd(id), s1);
    var states2, events2 := ExtendedLoosely(states1, events1, BranchPeer(id, true), s2);
    var states3, events3 := ExtendedLoosely(states2, events2, Negotiate(id, true), s3);
    states', events' := ExtendedLoosely(states3, events3, RegisterPeer(id), s4);
  }

  lemma PeerJoinSteps(s: State, id: string) returns (s1: State, s2: State, s3: State, s4: State)
    requires id != "" && id !in s.ops && id !in s.tables.peers && id !in s.branches
    ensures LooseStep(s, StartAdd(id), s1) && LooseStep(s1, BranchPeer(id, true), s2)
    ensures LooseStep(s2, Negotiate(id, true), s3) && LooseStep(s3, RegisterPeer(id), s4)
    ensures s4.tables == Joined(s.tables, id, WebRTC)
  {
    s1 := Next(s, StartAdd(id));
    s2 := Next(s1, BranchPeer(id, true));
    s3 := Next(s2, Negotiate(id, true));
    s4 := Next(s3, RegisterPeer(id));
  }

  // ----- nobody hears itself ------------------------------------------------------------------------

  datatype Delivery = ToSIP(receiver: string, sources: set<nat>)

  function ToSIPPeers(ids: set<string>, sources: set<nat>): set<Delivery> {
    set r | r in ids :: ToSIP(r, sources)
  }

  /** Who is handed mixed sound by an event. The mix for the recording goes to nobody. */
  function Deliveries(s: State, e: Event): set<Delivery> {
    if e.SendMix? && s.mixed != [] then ToSIPPeers(s.sipSerial.Keys, s.mixed[0]) else {}
  }

  predicate SelfEcho(s: State, d: Delivery) {
    d.receiver in s.sipSerial && s.sipSerial[d.receiver] in d.sources
  }

  /** In every run, whoever is handed its own sound is a SIP participant whose mute call failed. */
  lemma NoSelfEcho(states: seq<State>, events: seq<Event>, i: nat, d: Delivery)
    requires Run(states, events) && i < |events|
    requires d in Deliveries(states[i], events[i]) && SelfEcho(states[i], d)
    ensures states[i].sipSerial[d.receiver] in states[i].unmuted
  {
    RunKeeps(states, events, i);
    assert Harmless(states[i], states[i].sipSerial[d.receiver]);
  }

  ghost predicate FailedMute(s: State, e: Event, n: nat) {
    e.Mute? && !e.ok && e.id in s.branches && s.branches[e.id].serial == n
  }

  lemma MarksFailedMutes(s: State, e: Event, n: nat)
    requires Enabled(s, e)
    ensures n in Next(s, e).unmuted <==> n in s.unmuted || FailedMute(s, e, n)
  {}

  /** Before moment i of the run the mute call of the branch with this serial failed. */
  ghost predicate FailedBefore(states: seq<State>, events: seq<Event>, i: nat, n: nat)
    requires i <= |events| <= |states|
  {
    exists k :: 0 <= k < i && FailedMute(states[k], events[k], n)
  }

  lemma FailedOneLater(states: seq<State>, events: seq<Event>, i: nat, n: nat)
    requires 0 < i <= |events| <= |states|
    ensures FailedBefore(states, events, i, n) <==>
            FailedBefore(states, events, i - 1, n) || FailedMute(states[i - 1], events[i - 1], n)
  {
    if k :| 0 <= k < i && FailedMute(states[k], events[k], n) {
      assert k == i - 1 || k < i - 1;
    }
  }

  /** A branch is on record as unmuted if and only if its mute call failed earlier in the run. */
  lemma {:induction false} UnmutedMeansFailed(states: seq<State>, events: seq<Event>, i: nat, n: nat)
    requires Run(states, events) && i < |states|
    ensures n in states[i].unmuted <==> FailedBefore(states, events, i, n)
  {
    if i > 0 {
      UnmutedMeansFailed(states, events, i - 1, n);
      assert Step(states[i - 1], events[i - 1], states[i]);
      MarksFailedMutes(states[i - 1], events[i - 1], n);
      FailedOneLater(states, events, i, n);
    }
  }

  /** When no mute call fails, nobody ever hears itself. */
  lemma MutedRunsHaveNoEcho(states: seq<State>, events: seq<Event>, i: nat, d: Delivery)
    requires Run(states, events) && i < |events| && d in Deliveries(states[i], events[i])
    requires forall k | 0 <= k < i :: events[k].Mute? ==> events[k].ok
    ensures !SelfEcho(states[i], d)
  {
    if SelfEcho(states[i], d) {
      NoSelfEcho(states, events, i, d);
      UnmutedMeansFailed(states, events, i, states[i].sipSerial[d.receiver]);
    }
  }

  // ----- when a participant can hear itself ------------------------------------------------------------------------

  /** A branch on record as unmuted is not muted, and a registered SIP participant's sound goes through the
      branch it was registered with. */
  predicate OriginOk(s: State, id: string) {
    && (id in s.branches && s.branches[id].serial in s.unmuted ==> !s.branches[id].muted && !At(s, id, SIPBranched))
    && (id in s.sipSerial ==>
          id in s.branches && s.branches[id].serial == s.sipSerial[id] && !At(s, id, SIPBranched))
  }

  ghost predicate SerialsDistinct(s: State) {
    forall a, b | a in s.branches && b in s.branches && a != b :: s.branches[a].serial != s.branches[b].serial
  }

  ghost predicate OriginsAgree(s: State) {
    && SerialsDistinct(s)
    && (forall id :: OriginOk(s, id))
    && (forall n | n in s.unmuted :: n in s.kinds)
  }

  /** No branch that this step touches besides that of its own id. */
  lemma StepKeepsDistinct(s: State, e: Event)
    requires Enabled(s, e) && SerialsAgree(s) && BranchesAgree(s) && SerialsDistinct(s)
    ensures SerialsDistinct(Next(s, e))
  {
    var s' := Next(s, e);
    forall a, b | a in s'.branches && b in s'.branches && a != b
      ensures s'.branches[a].serial != s'.branches[b].serial
    {
      assert BranchOk(s, a) && BranchOk(s, b);
      KeepsSerial(s, e, a);
      KeepsSerial(s, e, b);
    }
  }

  /** After a step a branch has the serial it had, or it is new and has the next one. */
  lemma KeepsSerial(s: State, e: Event, id: string)
    requires Enabled(s, e) && id in Next(s, e).branches
    ensures if Builds(s, e) && e.id == id then Next(s, e).branches[id].serial == |s.kinds|
            else id in s.branches && Next(s, e).branches[id].serial == s.branches[id].serial
  {}

  lemma StepKeepsOwnOrigin(s: State, e: Event, id: string)
    requires Enabled(s, e) && Concerns(e, id) && Agrees(s, id) && OriginOk(s, id)
    requires id in s.sipSerial <==> id in s.tables.sips
    requires Builds(s, e) ==> |s.kinds| !in s.unmuted
    ensures OriginOk(Next(s, e), id)
  {}

  lemma StepKeepsOtherOrigin(s: State, e: Event, id: string)
    requires Enabled(s, e) && !Concerns(e, id) && OriginOk(s, id)
    requires e.Mute? && id in s.branches ==> s.branches[e.id].serial != s.branches[id].serial
    ensures OriginOk(Next(s, e), id)
  {
    OtherBranchStays(s, e, id);
  }

  lemma StepKeepsOrigins(s: State, e: Event)
    requires Enabled(s, e) && TablesAgree(s) && SoundAgrees(s) && OriginsAgree(s)
    ensures OriginsAgree(Next(s, e))
  {
    StepKeepsDistinct(s, e);
    StepKeepsSerials(s, e);
    assert Builds(s, e) ==> |s.kinds| !in s.kinds;
    forall id ensures OriginOk(Next(s, e), id) {
      assert OriginOk(s, id) && Agrees(s, id);
      if Concerns(e, id) { StepKeepsOwnOrigin(s, e, id); } else { StepKeepsOtherOrigin(s, e, id); }
    }
    forall n | n in Next(s, e).unmuted ensures n in Next(s, e).kinds {
      MarksFailedMutes(s, e, n);
      if FailedMute(s, e, n) { assert BranchOk(s, e.id); }
    }
  }

  lemma {:induction false} RunKeepsOrigins(states: seq<State>, events: seq<Event>, i: nat)
    requires Run(states, events) && i < |states|
    ensures OriginsAgree(states[i])
  {
    if i > 0 {
      RunKeepsOrigins(states, events, i - 1);
      RunKeeps(states, events, i - 1);
      assert Step(states[i - 1], events[i - 1], states[i]);
      StepKeepsOrigins(states[i - 1], events[i - 1]);
    }
  }

  /** The mute call for the branch with this serial is over. */
  ghost predicate Settled(s: State, n: nat) {
    n in s.kinds && forall id | id in s.branches && s.branches[id].serial == n :: !At(s, id, SIPBranched)
  }

  lemma StepKeepsSettled(s: State, e: Event, n: nat)
    requires Enabled(s, e) && SerialsAgree(s) && Settled(s, n)
    ensures Settled(Next(s, e), n)
    ensures n in Next(s, e).unmuted <==> n in s.unmuted
  {
    var s' := Next(s, e);
    StepKeepsSerials(s, e);
    MarksFailedMutes(s, e, n);
    forall id | id in s'.branches && s'.branches[id].serial == n ensures !At(s', id, SIPBranched) {
      KeepsSerial(s, e, id);
      if !Concerns(e, id) { OtherBranchStays(s, e, id); }
    }
  }

  lemma StaysSettled(states: seq<State>, events: seq<Event>, i: nat, j: nat, n: nat)
    requires Run(states, events) && i <= j < |states| && Settled(states[i], n)
    ensures Settled(states[j], n) && (n in states[j].unmuted <==> n in states[i].unmuted)
  {
    for k := i to j
      invariant Settled(states[k], n) && (n in states[k].unmuted <==> n in states[i].unmuted)
    {
      RunKeepsSerials(states, events, k);
      assert Step(states[k], events[k], states[k + 1]);
      StepKeepsSettled(states[k], events[k], n);
    }
  }

  /** One run goes on where another has come to. */
  ghost predicate Continues(states: seq<State>, events: seq<Event>, states': seq<State>, events': seq<Event>) {
    && Run(states', events')
    && |events| <= |events'| && |states| <= |states'|
    && states'[..|states|] == states && events'[..|events|] == events
  }

  /** Event j hands id the sound of branch n, which is its own. */
  ghost predicate HandsBack(states: seq<State>, events: seq<Event>, j: nat, id: string, n: nat) {
    && j < |events| <= |states|
    && id in states[j].sipSerial && states[j].sipSerial[id] == n
    && exists sources :: ToSIP(id, sources) in Deliveries(states[j], events[j]) && n in sources
  }

  ghost predicate HearsAt(states: seq<State>, events: seq<Event>, states': seq<State>, events': seq<Event>,
                          j: nat, id: string, n: nat) {
    Continues(states, events, states', events') && HandsBack(states', events', j, id, n) && |events| <= j
  }

  /** The run can go on to a moment at which id hears itself through branch n. */
  ghost predicate CanHear(states: seq<State>, events: seq<Event>, id: string, n: nat) {
    exists states', events', j :: HearsAt(states, events, states', events', j, id, n)
  }

  lemma {:induction false} Drains(states: seq<State>, events: seq<Event>, id: string, n: nat)
    returns (states': seq<State>, events': seq<Event>, j: nat)
    requires Run(states, events)
    requires var s := states[|events|];
             s.mixed != [] && s.mixed[|s.mixed| - 1] == {n} && id in s.sipSerial && s.sipSerial[id] == n
    ensures HearsAt(states, events, states', events', j, id, n)
    decreases |states[|events|].mixed|
  {
    var s := states[|events|];
    var sent := s.(mixed := s.mixed[1..]);
    assert Step(s, SendMix, sent);
    states', events' := Extended(states, events, SendMix, sent);
    if |s.mixed| == 1 {
      j := |events|;
      assert states'[j] == s && s.mixed[0] == {n};
      assert ToSIP(id, {n}) in Deliveries(s, SendMix);
    } else {
      assert sent.mixed[|sent.mixed| - 1] == s.mixed[|s.mixed| - 1];
      var states1, events1 := states', events';
      states', events', j := Drains(states1, events1, id, n);
      ContinuesOn(states, events, states1, events1, states', events');
    }
  }

  lemma ContinuesOn(a: seq<State>, ea: seq<Event>, b: seq<State>, eb: seq<Event>, c: seq<State>, ec: seq<Event>)
    requires Continues(a, ea, b, eb) && Continues(b, eb, c, ec)
    ensures Continues(a, ea, c, ec)
  {
    assert c[..|a|] == c[..|b|][..|a|] && ec[..|ea|] == ec[..|eb|][..|ea|];
  }

  /** A registered SIP participant whose branch is not muted: its sound enters and is mixed. */
  lemma SoundsAgain(s: State, id: string, n: nat) returns (fed: State, mixed: State)
    requires id in s.branches && s.branches[id].serial == n && !s.branches[id].muted && id in s.tables.sips
    ensures Step(s, Feed(id), fed) && Step(fed, Mix({n}), mixed)
    ensures mixed.mixed == s.mixed + [{n}] && mixed.sipSerial == s.sipSerial
  {
    fed := s.(branches := s.branches[id := s.branches[id].(fed := true)]);
    mixed := fed.(mixed := fed.mixed + [{n}]);
    assert fed.branches[id].serial == n && Audible(fed, n);
  }

  lemma UnmutedCanHear(states: seq<State>, events: seq<Event>, id: string, n: nat)
    requires Run(states, events)
    requires var s := states[|events|]; id in s.sipSerial && s.sipSerial[id] == n && n in s.unmuted
    ensures CanHear(states, events, id, n)
  {
    var s := states[|events|];
    RunKeeps(states, events, |events|);
    RunKeepsOrigins(states, events, |events|);
    assert OriginOk(s, id);
    var fed, mixed := SoundsAgain(s, id, n);
    var states1, events1 := Extended(states, events, Feed(id), fed);
    var states2, events2 := Extended(states1, events1, Mix({n}), mixed);
    ContinuesOn(states, events, states1, events1, states2, events2);
    assert mixed.mixed[|mixed.mixed| - 1] == {n};
    var states3, events3, j := Drains(states2, events2, id, n);
    ContinuesOn(states, events, states2, events2, states3, events3);
    assert HearsAt(states, events, states3, events3, j, id, n);
  }

  lemma HeardIsUnmuted(states: seq<State>, events: seq<Event>, states': seq<State>, events': seq<Event>,
                       j: nat, id: string, n: nat)
    requires Run(states, events) && HearsAt(states, events, states', events', j, id, n)
    requires var s := states[|events|]; id in s.sipSerial && s.sipSerial[id] == n
    ensures n in states[|events|].unmuted
  {
    var i := |events|;
    assert states'[i] == states'[..|states|][i] == states[i];
    RunKeeps(states', events', i);
    RunKeepsOrigins(states', events', i);
    assert Settled(states[i], n) by {
      assert OriginOk(states[i], id);
    }
    StaysSettled(states', events', i, j, n);
    var sources :| ToSIP(id, sources) in Deliveries(states'[j], events'[j]) && n in sources;
    NoSelfEcho(states', events', j, ToSIP(id, sources));
  }

  /** In every reachable state: a registered SIP participant can still be handed its own sound if and only if
      the mute call for its branch failed. */
  lemma HearsItselfIff(states: seq<State>, events: seq<Event>, id: string)
    requires Run(states, events) && id in states[|events|].sipSerial
    ensures var n := states[|events|].sipSerial[id];
            && (CanHear(states, events, id, n) <==> n in states[|events|].unmuted)
            && (n in states[|events|].unmuted <==> FailedBefore(states, events, |events|, n))
  {
    var n := states[|events|].sipSerial[id];
    UnmutedMeansFailed(states, events, |events|, n);
    if n in states[|events|].unmuted {
      UnmutedCanHear(states, events, id, n);
    }
    if CanHear(states, events, id, n) {
      var states', events', j :| HearsAt(states, events, states', events', j, id, n);
      HeardIsUnmuted(states, events, states', events', j, id, n);
    }
  }

  /** The failure that the room only logs is enough for an echo: a mute call that fails. */
  lemma FailedMuteEchoes(id: string) returns (states: seq<State>, events: seq<Event>)
    requires id != ""
    ensures Run(states, events) && |events| == 7 && events[1] == Mute(id, false)
    ensures var d := ToSIP(id, {0}); d in Deliveries(states[6], events[6]) && SelfEcho(states[6], d)
  {
    var states4, events4 := SIPJoins(id, false);
    var s5, s6 := EchoSounds(id, states4[4]);
    states, events := Extended(states4, events4, Feed(id), s5);
    states, events := Extended(states, events, Mix({0}), s6);
    states, events := Extended(states, events, SendMix, s5);
    EchoDelivered(s6, id);
  }

  lemma EchoDelivered(s: State, id: string)
    requires s.mixed == [{0}] && s.sipSerial == map[id := 0]
    ensures ToSIP(id, {0}) in Deliveries(s, SendMix) && SelfEcho(s, ToSIP(id, {0}))
  {
    assert ToSIP(id, {0}) in ToSIPPeers({id}, {0});
  }

  lemma Extended(states: seq<State>, events: seq<Event>, e: Event, s: State)
    returns (states': seq<State>, events': seq<Event>)
    requires Run(states, events) && Step(states[|events|], e, s)
    ensures Run(states', events') && |events'| == |events| + 1
    ensures states'[..|states|] == states && events'[..|events|] == events
    ensures states'[|events'|] == s && events'[|events|] == e
  {
    states', events' := states + [s], events + [e];
    forall i | 0 <= i < |events'| ensures Step(states'[i], events'[i], states'[i + 1]) {
      if i < |events| { assert Step(states[i], events[i], states[i + 1]); }
    }
  }

  /** A SIP participant joins an empty conference, whatever its mute call returns. */
  lemma SIPJoins(id: string, muted: bool) returns (states: seq<State>, events: seq<Event>)
    requires id != ""
    ensures Run(states, events) && |events| == 4 && events[1] == Mute(id, muted) && events[3] == RegisterSIP(id)
    ensures var s := states[4];
            && s.branches == map[id := Branch(0, SIP, muted, false)] && id in s.tables.sips && s.tables.order == [id]
            && s.mixed == [] && s.sipSerial == map[id := 0] && id !in s.ops
  {
    var s1 := SIPBranches(id);
    var s2 := SIPMutes(id, muted, s1);
    var s3, s4 := SIPRegisters(id, s2);
    states, events := Extended([START], [], BranchSIP(id, true), s1);
    states, events := Extended(states, events, Mute(id, muted), s2);
    states, events := Extended(states, events, Listen(id, true), s3);
    states, events := Extended(states, events, RegisterSIP(id), s4);
  }

  lemma SIPBranches(id: string) returns (s: State)
    requires id != ""
    ensures Step(START, BranchSIP(id, true), s)
    ensures s == State(EMPTY, map[id := Branch(0, SIP, false, false)], map[id := SIPBranched],
                       map[], map[0 := SIP], {}, [])
  {
    assert |START.kinds| == 0;
    s := State(EMPTY, map[id := Branch(0, SIP, false, false)], map[id := SIPBranched], map[], map[0 := SIP], {}, []);
  }

  lemma SIPMutes(id: string, muted: bool, s1: State) returns (s: State)
    requires s1.branches == map[id := Branch(0, SIP, false, false)] && s1.ops == map[id := SIPBranched]
    ensures Step(s1, Mute(id, muted), s)
    ensures s == s1.(branches := map[id := Branch(0, SIP, muted, false)], ops := map[id := SIPMuted],
                     unmuted := s.unmuted)
  {
    s := s1.(branches := map[id := Branch(0, SIP, muted, false)], ops := map[id := SIPMuted],
             unmuted := if muted then s1.unmuted else s1.unmuted + {0});
  }

  lemma SIPRegisters(id: string, s2: State) returns (s3: State, s: State)
    requires s2.ops == map[id := SIPMuted] && id in s2.branches && s2.branches[id].serial == 0
    requires s2.tables == EMPTY && s2.sipSerial == map[]
    ensures Step(s2, Listen(id, true), s3) && Step(s3, RegisterSIP(id), s)
    ensures s == s2.(tables := Joined(EMPTY, id, SIP), ops := map[], sipSerial := map[id := 0])
  {
    s3 := s2.(ops := map[id := SIPListening]);
    s := s3.(tables := Joined(EMPTY, id, SIP), ops := map[], sipSerial := map[id := 0]);
    assert s3.ops - {id} == map[];
  }

  /** Its sound is mixed and sent. */
  lemma EchoSounds(id: string, s4: State) returns (s5: State, s6: State)
    requires s4.branches == map[id := Branch(0, SIP, false, false)] && id in s4.tables.sips && s4.mixed == []
    ensures Step(s4, Feed(id), s5) && Step(s5, Mix({0}), s6) && Step(s6, SendMix, s5)
    ensures s6.mixed == [{0}] && s6.sipSerial == s4.sipSerial
  {
    s5 := s4.(branches := map[id := Branch(0, SIP, false, true)]);
    s6 := s5.(mixed := [{0}]);
    assert s5.branches[id].serial == 0 && Audible(s5, 0);
  }
}
