/** The class of the room and the machine of interleaved calls: a call of the class that nothing interrupts ends
    where the machine's steps for that call end. */
module ClassSteps {
  import opened Text
  import opened SlotTable
  import opened Membership
  import Mixer
  import opened Conference
  import opened RoomRuns

  /** The machine's view of the mixer's branches. */
  ghost predicate SameBranches(bs: Mixer.Branches, rs: map<string, RoomRuns.Branch>) {
    && rs.Keys == bs.Keys
    && forall id | id in bs :: SameBranch(bs[id], rs[id])
  }

  predicate SameBranch(b: Mixer.Branch, r: RoomRuns.Branch) {
    r.serial == b.serial && r.kind == (if b.pcmu then SIP else WebRTC) && r.muted == b.muted
  }

  /** s is a state of the machine in which the room may be. */
  ghost predicate Shows(room: Room, s: State)
    reads room, room.slots, room.mixer
    requires room.slots.Length == SLOTS
  {
    && s.tables == room.Membership()
    && SameBranches(room.mixer.branches, s.branches)
    && |s.kinds| == room.mixer.nextSerial && SerialsAgree(s)
  }

  /** The events lead from s to t, each allowed when it happens. */
  ghost predicate Leads(s: State, events: seq<Event>, t: State) {
    exists states :: LeadsThrough(states, events, s, t)
  }

  ghost predicate LeadsThrough(states: seq<State>, events: seq<Event>, s: State, t: State) {
    && |states| == |events| + 1
    && states[0] == s && states[|events|] == t
    && forall i | 0 <= i < |events| :: LooseStep(states[i], events[i], states[i + 1])
  }

  lemma LeadsOn(s: State, e: Event, s1: State, events: seq<Event>, t: State)
    requires LooseStep(s, e, s1) && Leads(s1, events, t)
    ensures Leads(s, [e] + events, t)
  {
    var states :| LeadsThrough(states, events, s1, t);
    forall i | 0 <= i < |events| + 1 ensures LooseStep(([s] + states)[i], ([e] + events)[i], ([s] + states)[i + 1]) {
      if i > 0 { assert LooseStep(states[i - 1], events[i - 1], states[i]); }
    }
    assert LeadsThrough([s] + states, [e] + events, s, t);
  }

  lemma LeadsOne(s: State, e: Event, t: State)
    requires LooseStep(s, e, t)
    ensures Leads(s, [e], t)
  {
    assert LeadsThrough([s, t], [e], s, t);
  }

  lemma LeadsTwo(s: State, a: Event, s1: State, b: Event, t: State)
    requires LooseStep(s, a, s1) && LooseStep(s1, b, t)
    ensures Leads(s, [a, b], t)
  {
    LeadsOne(s1, b, t);
    LeadsOn(s, a, s1, [b], t);
    assert [a] + [b] == [a, b];
  }

  /** A redraw leaves to each branch what the machine knows of it. */
  lemma RedrawKeepsBranches(v: Mixer.Canvas, w: Mixer.Canvas, rs: map<string, RoomRuns.Branch>)
    requires Mixer.SameShape(v, w) && SameBranches(v.branches, rs)
    ensures SameBranches(w.branches, rs)
  {}

  lemma SameBranchesJoined(bs: Mixer.Branches, rs: map<string, RoomRuns.Branch>, id: string,
                           b: Mixer.Branch, r: RoomRuns.Branch)
    requires SameBranches(bs, rs) && SameBranch(b, r)
    ensures SameBranches(bs[id := b], rs[id := r])
  {}

  lemma PutTwice<V>(m: map<string, V>, id: string, v: V, w: V)
    ensures m[id := v][id := w] == m[id := w]
    ensures m[id := v] - {id} == m - {id}
  {}

  lemma NothingToTake<V>(m: map<string, V>, id: string)
    requires id !in m
    ensures m - {id} == m
  {}

  // ----- a WebRTC participant joins ---------------------------------------------------------------------

  /** What the machine's steps for an uninterrupted AddPeer come to. */
  lemma AddPeerEnds(s: State, id: string, created: bool, built: bool, negotiated: bool)
    returns (events: seq<Event>, t: State)
    requires id != "" && id !in s.ops && SerialsAgree(s)
    ensures Leads(s, events, t) && t.ops == s.ops && SerialsAgree(t)
    ensures var branched := id !in s.tables.peers && created && id !in s.branches && built;
            && |t.kinds| == |s.kinds| + (if branched then 1 else 0)
            && t.tables == (if branched && negotiated then Joined(s.tables, id, WebRTC) else s.tables)
            && t.branches == (if branched && negotiated
                              then s.branches[id := RoomRuns.Branch(|s.kinds|, WebRTC, false, false)] else s.branches)
  {
    if id in s.tables.peers || !created {
      events := RefusedPeer(s, id);
      t := s;
    } else {
      var s1 := s.(ops := s.ops[id := AddStarted]);
      var rest;
      rest, t := BranchingEnds(s1, id, built, negotiated);
      if id !in s.branches && built { SerialsGrow(s, WebRTC, t); }
      LeadsOn(s, StartAdd(id), s1, rest, t);
      events := [StartAdd(id)] + rest;
      PutTwice(s.ops, id, AddStarted, AddStarted);
      NothingToTake(s.ops, id);
    }
  }

  lemma RefusedPeer(s: State, id: string) returns (events: seq<Event>)
    requires id != "" && id !in s.ops
    ensures Leads(s, events, s)
  {
    if id in s.tables.peers {
      LeadsOne(s, StartAdd(id), s);
      events := [StartAdd(id)];
    } else {
      assert s.ops[id := AddStarted] - {id} == s.ops;
      LeadsTwo(s, StartAdd(id), s.(ops := s.ops[id := AddStarted]), AbandonAdd(id), s);
      events := [StartAdd(id), AbandonAdd(id)];
    }
  }

  lemma BranchingEnds(s: State, id: string, built: bool, negotiated: bool) returns (events: seq<Event>, t: State)
    requires At(s, id, AddStarted)
    ensures Leads(s, events, t) && t.ops == s.ops - {id}
    ensures var branched := id !in s.branches && built;
            && t.kinds == (if branched then s.kinds[|s.kinds| := WebRTC] else s.kinds)
            && t.tables == (if branched && negotiated then Joined(s.tables, id, WebRTC) else s.tables)
            && t.branches == (if branched && negotiated
                              then s.branches[id := RoomRuns.Branch(|s.kinds|, WebRTC, false, false)] else s.branches)
  {
    if id in s.branches || !built {
      t := s.(ops := s.ops - {id});
      LeadsOne(s, BranchPeer(id, built), t);
      events := [BranchPeer(id, built)];
    } else {
      var s1 := PeerBranches(s, id);
      var rest;
      rest, t := NegotiationEnds(s1, id, negotiated);
      LeadsOn(s, BranchPeer(id, built), s1, rest, t);
      events := [BranchPeer(id, built)] + rest;
      PutTwice(s.ops, id, AddBranched, AddBranched);
      PutTwice(s.branches, id, s1.branches[id], s1.branches[id]);
      NothingToTake(s.branches, id);
    }
  }

  lemma PeerBranches(s: State, id: string) returns (s1: State)
    requires At(s, id, AddStarted) && id !in s.branches
    ensures LooseStep(s, BranchPeer(id, true), s1) && s1.kinds == s.kinds[|s.kinds| := WebRTC]
    ensures s1.branches == s.branches[id := RoomRuns.Branch(|s.kinds|, WebRTC, false, false)]
    ensures s1.tables == s.tables && s1.ops == s.ops[id := AddBranched]
  {
    s1 := WithBranch(s, id, WebRTC, AddBranched);
  }

  lemma SerialsGrow(s: State, kind: Kind, t: State)
    requires SerialsAgree(s) && t.kinds == s.kinds[|s.kinds| := kind]
    ensures SerialsAgree(t) && |t.kinds| == |s.kinds| + 1
  {
    assert |s.kinds| !in s.kinds;
  }

  lemma NegotiationEnds(s: State, id: string, negotiated: bool) returns (events: seq<Event>, t: State)
    requires At(s, id, AddBranched) && id in s.branches
    ensures Leads(s, events, t) && t.ops == s.ops - {id} && t.kinds == s.kinds
    ensures t.tables == if negotiated then Joined(s.tables, id, WebRTC) else s.tables
    ensures t.branches == if negotiated then s.branches else s.branches - {id}
  {
    var next := if negotiated then AddNegotiated else RollingBack;
    var s1 := s.(ops := s.ops[id := next]);
    var last := if negotiated then RegisterPeer(id) else RemoveBranch(id);
    t := s1.(tables := if negotiated then Joined(s.tables, id, WebRTC) else s.tables,
             branches := if negotiated then s.branches else s.branches - {id}, ops := s1.ops - {id});
    LeadsTwo(s, Negotiate(id, negotiated), s1, last, t);
    events := [Negotiate(id, negotiated), last];
    PutTwice(s.ops, id, next, next);
  }

  method AddPeer(room: Room, id: string, name: string, created: bool, built: bool, negotiated: bool, ghost s: State)
    returns (ok: bool, panicked: bool, ghost events: seq<Event>, ghost t: State)
    requires room.Valid() && !room.sfu && Shows(room, s) && id != "" && id !in s.ops
    requires id !in room.peers && created && id !in room.mixer.branches && built ==> |id| >= 8
    modifies room`peers, room`joinOrder, room`displayNames, room.slots, room.mixer, room.mixer.placeholders
    ensures room.Valid() && Leads(s, events, t) && Shows(room, t) && t.ops == s.ops
  {
    ghost var v, serial := room.mixer.View(), room.mixer.nextSerial;
    ok, panicked := room.AddPeer(id, name, created, built, negotiated);
    events, t := AddPeerEnds(s, id, created, built, negotiated);
    if ok {
      var b := room.NewBranch(serial, false, false);
      SameBranchesJoined(v.branches, s.branches, id, b, RoomRuns.Branch(serial, WebRTC, false, false));
      RedrawKeepsBranches(v.(branches := v.branches[id := b]), room.mixer.View(), t.branches);
    }
  }

  // ----- a SIP participant joins ------------------------------------------------------------------------

  lemma AddSIPPeerEnds(s: State, id: string, built: bool, mutes: bool, listens: bool)
    returns (events: seq<Event>, t: State)
    requires id != "" && id !in s.ops && SerialsAgree(s)
    ensures Leads(s, events, t) && t.ops == s.ops && SerialsAgree(t)
    ensures var branched := id !in s.branches && built;
            && |t.kinds| == |s.kinds| + (if branched then 1 else 0)
            && t.tables == (if branched && listens then Joined(s.tables, id, SIP) else s.tables)
            && t.branches == (if branched && listens
                              then s.branches[id := RoomRuns.Branch(|s.kinds|, SIP, mutes, false)] else s.branches)
  {
    if id in s.branches || !built {
      LeadsOne(s, BranchSIP(id, built), s);
      events, t := [BranchSIP(id, built)], s;
    } else {
      events, t := BranchedSIPEnds(s, id, mutes, listens);
      SerialsGrow(s, SIP, t);
    }
  }

  lemma BranchedSIPEnds(s: State, id: string, mutes: bool, listens: bool) returns (events: seq<Event>, t: State)
    requires id != "" && id !in s.ops && id !in s.branches
    ensures Leads(s, events, t) && t.ops == s.ops && t.kinds == s.kinds[|s.kinds| := SIP]
    ensures t.tables == if listens then Joined(s.tables, id, SIP) else s.tables
    ensures t.branches == if listens then s.branches[id := RoomRuns.Branch(|s.kinds|, SIP, mutes, false)]
                          else s.branches
  {
    var s1 := SIPBranches(s, id);
    var rest;
    rest, t := MutingEnds(s1, id, mutes, listens);
    LeadsOn(s, BranchSIP(id, true), s1, rest, t);
    events := [BranchSIP(id, true)] + rest;
    PutTwice(s.ops, id, SIPBranched, SIPBranched);
    PutTwice(s.branches, id, s1.branches[id], s1.branches[id].(muted := mutes));
    NothingToTake(s.ops, id);
    NothingToTake(s.branches, id);
  }

  lemma SIPBranches(s: State, id: string) returns (s1: State)
    requires id != "" && id !in s.ops && id !in s.branches
    ensures LooseStep(s, BranchSIP(id, true), s1) && s1.kinds == s.kinds[|s.kinds| := SIP]
    ensures s1.branches == s.branches[id := RoomRuns.Branch(|s.kinds|, SIP, false, false)]
    ensures s1.tables == s.tables && s1.ops == s.ops[id := SIPBranched]
  {
    s1 := WithBranch(s, id, SIP, SIPBranched);
  }

  lemma MutingEnds(s: State, id: string, mutes: bool, listens: bool) returns (events: seq<Event>, t: State)
    requires At(s, id, SIPBranched) && id in s.branches
    ensures Leads(s, events, t) && t.ops == s.ops - {id} && t.kinds == s.kinds
    ensures t.tables == if listens then Joined(s.tables, id, SIP) else s.tables
    ensures t.branches == if listens then s.branches[id := s.branches[id].(muted := mutes)] else s.branches - {id}
  {
    var s1 := s.(branches := s.branches[id := s.branches[id].(muted := mutes)],
                 unmuted := if mutes then s.unmuted else s.unmuted + {s.branches[id].serial},
                 ops := s.ops[id := SIPMuted]);
    var rest;
    rest, t := ListeningEnds(s1, id, listens);
    LeadsOn(s, Mute(id, mutes), s1, rest, t);
    events := [Mute(id, mutes)] + rest;
    PutTwice(s.ops, id, SIPMuted, SIPMuted);
    PutTwice(s.branches, id, s1.branches[id], s1.branches[id]);
  }

  lemma ListeningEnds(s: State, id: string, listens: bool) returns (events: seq<Event>, t: State)
    requires At(s, id, SIPMuted) && id in s.branches
    ensures Leads(s, events, t) && t.ops == s.ops - {id} && t.kinds == s.kinds
    ensures t.tables == if listens then Joined(s.tables, id, SIP) else s.tables
    ensures t.branches == if listens then s.branches else s.branches - {id}
  {
    var next := if listens then SIPListening else RollingBack;
    var s1 := s.(ops := s.ops[id := next]);
    var last := if listens then RegisterSIP(id) else RemoveBranch(id);
    t := Next(s1, last);
    LeadsTwo(s, Listen(id, listens), s1, last, t);
    events := [Listen(id, listens), last];
    PutTwice(s.ops, id, next, next);
  }

  method AddSIPPeer(room: Room, id: string, name: string, built: bool, mutes: bool, listener: Option<nat>,
                    ghost s: State)
    returns (ok: bool, panicked: bool, ghost events: seq<Event>, ghost t: State)
    requires room.Valid() && Shows(room, s) && id != "" && id !in s.ops
    requires id !in room.mixer.branches && built ==> |id| >= 8
    modifies room`sipPeers, room`joinOrder, room`displayNames, room.slots, room.mixer, room.mixer.placeholders
    ensures room.Valid() && Leads(s, events, t) && Shows(room, t) && t.ops == s.ops
  {
    ghost var v, serial := room.mixer.View(), room.mixer.nextSerial;
    ok, panicked := room.AddSIPPeer(id, name, built, mutes, listener);
    events, t := AddSIPPeerEnds(s, id, built, mutes, listener.Some?);
    if ok {
      var b := room.NewBranch(serial, true, mutes);
      SameBranchesJoined(v.branches, s.branches, id, b, RoomRuns.Branch(serial, SIP, mutes, false));
      RedrawKeepsBranches(v.(branches := v.branches[id := b]), room.mixer.View(), t.branches);
    }
  }

  // ----- leaving and assigning --------------------------------------------------------------------------

  lemma RemovalEnds(s: State, id: string, kind: Kind) returns (t: State)
    requires id != "" && id !in s.ops
    ensures Leads(s, [Leave(id, kind), RemoveBranch(id)], t) && t.ops == s.ops && t.kinds == s.kinds
    ensures t.tables == Departed(s.tables, id, kind) && t.branches == s.branches - {id}
  {
    var s1 := LeaveEnds(s, id, kind);
    t := s1.(branches := s1.branches - {id}, ops := s1.ops - {id});
    LeadsTwo(s, Leave(id, kind), s1, RemoveBranch(id), t);
    PutTwice(s.ops, id, Leaving, Leaving);
    NothingToTake(s.ops, id);
  }

  lemma LeaveEnds(s: State, id: string, kind: Kind) returns (s1: State)
    requires id != "" && id !in s.ops
    ensures LooseStep(s, Leave(id, kind), s1)
    ensures s1.tables == Departed(s.tables, id, kind) && s1.branches == s.branches && s1.kinds == s.kinds
    ensures s1.ops == s.ops[id := Leaving]
  {
    s1 := Next(s, Leave(id, kind));
  }

  method RemovePeer(room: Room, id: string, clock: int, ghost s: State) returns (panicked: bool, ghost t: State)
    requires room.Valid() && !room.sfu && Shows(room, s) && id != "" && id !in s.ops
    modifies room`peers, room`joinOrder, room.slots, room.mixer, room.mixer.placeholders, room.det, room.peers.Values
    ensures room.Valid() && Leads(s, [Leave(id, WebRTC), RemoveBranch(id)], t) && Shows(room, t) && t.ops == s.ops
  {
    ghost var v := room.mixer.View();
    panicked := room.RemovePeer(id, clock);
    t := RemovalEnds(s, id, WebRTC);
    RedrawKeepsBranches(v.(branches := v.branches - {id}), room.mixer.View(), t.branches);
  }

  method RemoveSIPPeer(room: Room, id: string, ghost s: State) returns (panicked: bool, ghost t: State)
    requires room.Valid() && Shows(room, s) && id != "" && id !in s.ops
    modifies room`sipPeers, room`joinOrder, room`displayNames, room.slots, room.mixer, room.mixer.placeholders
    ensures room.Valid() && Leads(s, [Leave(id, SIP), RemoveBranch(id)], t) && Shows(room, t) && t.ops == s.ops
  {
    ghost var v := room.mixer.View();
    panicked := room.RemoveSIPPeer(id);
    t := RemovalEnds(s, id, SIP);
    RedrawKeepsBranches(v.(branches := v.branches - {id}), room.mixer.View(), t.branches);
  }

  method AssignSlots(room: Room, assign: map<int, string>, ghost s: State)
    returns (panicked: bool, ghost order: seq<int>, ghost t: State)
    requires room.Valid() && !room.sfu && Shows(room, s)
    modifies room.slots, room.mixer`branches, room.mixer.placeholders
    ensures room.Valid() && Leads(s, [Assign(assign, order)], t) && Shows(room, t) && t.ops == s.ops
  {
    ghost var v := room.mixer.View();
    panicked, order := room.AssignSlots(assign);
    t := Next(s, Assign(assign, order));
    LeadsOne(s, Assign(assign, order), t);
    RedrawKeepsBranches(v, room.mixer.View(), t.branches);
  }
}
