/** A conference room: membership, slots, layout and the routing of sound between participants. */
module Conference {
  import opened Text
  import opened SlotTable
  import opened Membership
  import opened LayoutEngine
  import opened Mixer
  import opened CustomLayout
  import opened WebPeer
  import opened SpeakerDetector

  class Room {
    var peers: map<string, Peer>
    var sipPeers: map<string, nat>  // id -> UDP audio port
    var joinOrder: seq<string>
    const slots: array<string>
    var displayNames: map<string, string>
    var mode: Mode
    var customCells: seq<CustomCell>
    const mixer: Compositor
    const det: Detector
    const sfu: bool
    const width: nat
    const height: nat

    ghost predicate Valid()
      reads this, mixer, peers.Values
    {
      && slots.Length == SLOTS
      && mixer.Valid()
      && (forall a | a in peers :: peers[a].Valid())
      && (forall a, b | a in peers && b in peers && a != b :: peers[a] != peers[b])
    }

    function Membership(): Tables
      reads this, slots
      requires slots.Length == SLOTS
    {
      Tables(slots[..], joinOrder, peers.Keys, sipPeers.Keys)
    }

    /** The cells that applyLayout asks for now. */
    function Wanted(): seq<Cell>
      reads this, slots, det
      requires slots.Length == SLOTS
    {
      WantedCells(mode, customCells, joinOrder, slots[..], det.current, width, height)
    }

    constructor (sfu: bool, width: nat, height: nat, mixer: Compositor)
      requires mixer.Valid()
      ensures Valid() && fresh(slots) && fresh(det) && this.mixer == mixer && this.sfu == sfu
      ensures Membership() == EMPTY && mode == Grid && customCells == []
      ensures det.settings == Settings(-45.0, 800) && det.View() == State(map[], "", None)
    {
      this.sfu, this.width, this.height, this.mixer := sfu, width, height, mixer;
      peers, sipPeers, joinOrder, displayNames := map[], map[], [], map[];
      mode, customCells := Grid, [];
      slots := new string[SLOTS](i => "");
      det := new Detector(-45.0, 800);
    }

    // ----- layout ----------------------------------------------------------------------------

    method ApplyLayout() returns (panicked: bool)
      requires Valid()
      modifies mixer`branches, mixer.placeholders
      ensures Valid()
      ensures (mixer.View(), panicked) == Redraw(old(mixer.View()), Wanted())
    {
      var cells;
      if mode == Custom && |customCells| > 0 {
        cells := [];
        for i := 0 to |customCells|
          invariant |cells| == i
          invariant forall k | 0 <= k < i :: cells[k] == CellFor(customCells[k], slots[..], det.current)
        {
          var c := customCells[i];
          var peer := ResolveCellID(c.id, slots[..], det.current);
          if c.vad && det.current != "" {
            peer := det.current;
          }
          cells := cells + [Cell(peer, c.x, c.y, c.w, c.h, c.z, SlotIndex(c.id))];
        }
      } else {
        cells := Compute(Spec(mode, width, height, [], det.current, ""), joinOrder);
      }
      assert cells == Wanted();
      panicked := mixer.UpdateLayout(cells);
    }

    method SetLayout(m: Mode) returns (panicked: bool)
      requires Valid()
      modifies this`mode, this`customCells, mixer`branches, mixer.placeholders
      ensures Valid()
      ensures mode == m && customCells == if m == Custom then old(customCells) else []
      ensures (mixer.View(), panicked) == Redraw(old(mixer.View()), Wanted())
    {
      mode := m;
      if m != Custom {
        customCells := [];
      }
      panicked := ApplyLayout();
    }

    method SetCustomLayout(cells: seq<CustomCell>) returns (panicked: bool)
      requires Valid()
      modifies this`mode, this`customCells, mixer`branches, mixer.placeholders
      ensures Valid()
      ensures mode == Custom && customCells == cells
      ensures (mixer.View(), panicked) == Redraw(old(mixer.View()), Wanted())
    {
      mode := Custom;
      customCells := cells;
      panicked := ApplyLayout();
    }

    // ----- slots --------------------------------------------------------------------------------

    method SlotOf(id: string) returns (slot: int)
      requires slots.Length == SLOTS
      ensures slot == SlotTable.SlotOf(slots[..], id)
    {
      for i := 0 to SLOTS
        invariant forall k | 0 <= k < i :: slots[k] != id
        invariant FirstFrom(slots[..], id, i) == SlotTable.SlotOf(slots[..], id)
      {
        if slots[i] == id {
          return i;
        }
      }
      return -1;
    }

    method Roster() returns (out: map<int, string>)
      requires slots.Length == SLOTS
      ensures out == SlotTable.Roster(slots[..])
    {
      out := map[];
      for i := 0 to SLOTS
        invariant out == map k | 0 <= k < i && slots[k] != "" :: slots[k]
      {
        if slots[i] != "" {
          out := out[i := slots[i]];
        }
      }
    }

    /** The first free slot for a newcomer. */
    method TakeSlot(id: string)
      requires slots.Length == SLOTS
      modifies slots
      ensures slots[..] == Seat(old(slots[..]), id)
    {
      for i := 0 to SLOTS
        invariant slots[..] == old(slots[..])
        invariant FirstFrom(slots[..], "", i) == SlotTable.SlotOf(slots[..], "")
      {
        if slots[i] == "" {
          slots[i] := id;
          assert slots[..] == Seat(old(slots[..]), id);
          return;
        }
      }
    }

    /** Every slot of id but one. */
    method FreeSlots(id: string, keep: int)
      requires slots.Length == SLOTS
      modifies slots
      ensures forall i | 0 <= i < SLOTS :: slots[i] == if old(slots[i]) == id && i != keep then "" else old(slots[i])
    {
      for i := 0 to SLOTS
        invariant forall k | 0 <= k < i :: slots[k] == if old(slots[k]) == id && k != keep then "" else old(slots[k])
        invariant forall k | i <= k < SLOTS :: slots[k] == old(slots[k])
      {
        if slots[i] == id && i != keep {
          slots[i] := "";
        }
      }
    }

    /** The operator's assignment, its entries taken in an order nobody chooses. */
    method AssignSlots(assign: map<int, string>) returns (panicked: bool, ghost order: seq<int>)
      requires Valid()
      modifies slots, mixer`branches, mixer.placeholders
      ensures Valid()
      ensures IsWalk(order, assign) && slots[..] == AssignAll(old(slots[..]), assign, order)
      ensures DistinctIds(assign) ==> slots[..] == Assigned(old(slots[..]), assign)
      ensures (mixer.View(), panicked) == if sfu then (old(mixer.View()), false)
          else Redraw(old(mixer.View()), Wanted())
    {
      order := AssignEntries(assign);
      if DistinctIds(assign) {
        AssignmentIsDetermined(old(slots[..]), assign, order);
      }
      panicked := false;
      if !sfu {
        panicked := ApplyLayout();
      }
    }

    method AssignEntries(assign: map<int, string>) returns (ghost order: seq<int>)
      requires slots.Length == SLOTS
      modifies slots
      ensures IsWalk(order, assign) && slots[..] == AssignAll(old(slots[..]), assign, order)
    {
      order := [];
      var todo := assign.Keys;
      while todo != {}
        invariant todo <= assign.Keys
        invariant forall k :: k in order <==> k in assign && k !in todo
        invariant forall i, j | 0 <= i < j < |order| :: order[i] != order[j]
        invariant slots[..] == AssignAll(old(slots[..]), assign, order)
        decreases todo
      {
        HasElement(todo);
        var slot: int :| slot in todo;
        todo := todo - {slot};
        ghost var before := slots[..];
        AssignEntry(slot, assign[slot]);
        order := order + [slot];
        assert order[..|order| - 1] + [slot] == order;
        assert AssignAll(old(slots[..]), assign, order) == AssignOne(before, slot, assign[slot]);
      }
    }

    method AssignEntry(slot: int, id: string)
      requires slots.Length == SLOTS
      modifies slots
      ensures slots[..] == AssignOne(old(slots[..]), slot, id)
    {
      if slot < 0 || slot >= SLOTS {
        return;
      }
      if id != "" {
        FreeSlots(id, slot);
      }
      slots[slot] := id;
      assert slots[..] == AssignOne(old(slots[..]), slot, id);
    }

    // ----- joining and leaving ----------------------------------------------------------------------

    /** The branch of a newcomer. mutes: whether a SIP participant's branch takes the mute, which is only
        logged when it does not. */
    method AddBranch(id: string, pcmu: bool, built: bool, mutes: bool) returns (added: bool)
      requires mixer.Valid() && (id !in mixer.branches && built ==> |id| >= 8)
      modifies mixer
      ensures mixer.Valid()
      ensures added <==> id !in old(mixer.branches) && built
      ensures mixer.branches == if added then old(mixer.branches)[id := NewBranch(old(mixer.nextSerial), pcmu, mutes)]
                                else old(mixer.branches)
      ensures mixer.nextSerial == old(mixer.nextSerial) + if added then 1 else 0
    {
      added := mixer.AddPeer(id, pcmu, built);
      if added && pcmu {
        var muted := mixer.SetPeerAudioMute(id, true, mutes);
      }
    }

    /** The branch of a newcomer, taken out again when the rest of the handshake fails. */
    method OpenBranch(id: string, pcmu: bool, built: bool, mutes: bool, connected: bool) returns (ok: bool)
      requires mixer.Valid() && (id !in mixer.branches && built ==> |id| >= 8)
      modifies mixer
      ensures mixer.Valid()
      ensures ok <==> id !in old(mixer.branches) && built && connected
      ensures mixer.branches == if ok then old(mixer.branches)[id := NewBranch(old(mixer.nextSerial), pcmu, mutes)]
                                else old(mixer.branches)
      ensures mixer.nextSerial == old(mixer.nextSerial) + if id !in old(mixer.branches) && built then 1 else 0
    {
      ok := AddBranch(id, pcmu, built, mutes);
      if ok && !connected {
        mixer.RemovePeer(id);
        assert mixer.branches == old(mixer.branches);
        ok := false;
      }
    }

    /** A branch as the room leaves it: a SIP participant's is muted before any of its sound can flow, unless
        the mute fails. */
    function NewBranch(serial: nat, pcmu: bool, mutes: bool): Branch {
      Branch(serial, pcmu, mixer.FirstPad(), pcmu && mutes)
    }

    method RegisterPeer(id: string, name: string, p: Peer)
      requires slots.Length == SLOTS
      modifies this`peers, this`joinOrder, this`displayNames, slots
      ensures peers == old(peers)[id := p] && displayNames == old(displayNames)[id := name]
      ensures Membership() == Joined(old(Membership()), id, WebRTC) && joinOrder == old(joinOrder) + [id]
    {
      peers := peers[id := p];
      assert peers.Keys == old(peers.Keys) + {id};
      joinOrder := joinOrder + [id];
      displayNames := displayNames[id := name];
      TakeSlot(id);
    }

    method RegisterSIPPeer(id: string, name: string, port: nat)
      requires slots.Length == SLOTS
      modifies this`sipPeers, this`joinOrder, this`displayNames, slots
      ensures sipPeers == old(sipPeers)[id := port] && displayNames == old(displayNames)[id := name]
      ensures Membership() == Joined(old(Membership()), id, SIP) && joinOrder == old(joinOrder) + [id]
    {
      sipPeers := sipPeers[id := port];
      assert sipPeers.Keys == old(sipPeers.Keys) + {id};
      displayNames := displayNames[id := name];
      joinOrder := joinOrder + [id];
      TakeSlot(id);
    }

    /** A newcomer with a connection of its own enters the tables and, in MCU mode, the picture. */
    method Admit(id: string, name: string, p: Peer) returns (panicked: bool)
      requires Valid() && p.Valid() && forall a | a in peers :: peers[a] != p
      modifies this`peers, this`joinOrder, this`displayNames, slots, mixer`branches, mixer.placeholders
      ensures Valid()
      ensures peers == old(peers)[id := p] && displayNames == old(displayNames)[id := name]
      ensures Membership() == Joined(old(Membership()), id, WebRTC) && joinOrder == old(joinOrder) + [id]
      ensures (mixer.View(), panicked) == if sfu then (old(mixer.View()), false)
                                          else Redraw(old(mixer.View()), Wanted())
    {
      RegisterPeer(id, name, p);
      panicked := false;
      if !sfu {
        panicked := ApplyLayout();
      }
    }

    /** created, built, negotiated: whether the peer connection, the mixer branch and the negotiation succeed. */
    method AddPeer(id: string, name: string, created: bool, built: bool, negotiated: bool)
      returns (ok: bool, panicked: bool)
      requires Valid() && (id !in peers && created && !sfu && id !in mixer.branches && built ==> |id| >= 8)
      modifies this`peers, this`joinOrder, this`displayNames, slots, mixer, mixer.placeholders
      ensures Valid()
      ensures ok <==> id !in old(peers) && created && (sfu || (id !in old(mixer.branches) && built)) && negotiated
      ensures Membership() == if ok then Joined(old(Membership()), id, WebRTC) else old(Membership())
      ensures joinOrder == old(joinOrder) + if ok then [id] else []
      ensures ok ==> id in peers && fresh(peers[id]) && !peers[id].closed && peers == old(peers)[id := peers[id]]
      ensures !ok ==> peers == old(peers)
      ensures displayNames == if ok then old(displayNames)[id := name] else old(displayNames)
      ensures sfu || !ok ==> mixer.View() == old(mixer.View()) && !panicked
      ensures ok && !sfu ==>
                var v := old(mixer.View());
                var joined := v.branches[id := NewBranch(old(mixer.nextSerial), false, false)];
                (mixer.View(), panicked) == Redraw(v.(branches := joined), Wanted())
      ensures mixer.nextSerial == old(mixer.nextSerial) +
                if id !in old(peers) && created && !sfu && id !in old(mixer.branches) && built then 1 else 0
    {
      panicked := false;
      if id in peers || !created {
        return false, false;
      }
      var p := new Peer(id);
      ok := negotiated;
      if !sfu {
        ok := OpenBranch(id, false, built, false, negotiated);
      }
      if !ok {
        p.Close();
        return;
      }
      panicked := Admit(id, name, p);
    }

    /** listener: the port of the UDP listener, or None when it cannot be opened. */
    method AddSIPPeer(id: string, name: string, built: bool, mutes: bool, listener: Option<nat>)
      returns (ok: bool, panicked: bool)
      requires Valid() && (id !in mixer.branches && built ==> |id| >= 8)
      modifies this`sipPeers, this`joinOrder, this`displayNames, slots, mixer, mixer.placeholders
      ensures Valid()
      ensures ok <==> id !in old(mixer.branches) && built && listener.Some?
      ensures Membership() == if ok then Joined(old(Membership()), id, SIP) else old(Membership())
      ensures joinOrder == old(joinOrder) + if ok then [id] else []
      ensures sipPeers == if ok then old(sipPeers)[id := listener.value] else old(sipPeers)
      ensures displayNames == if ok then old(displayNames)[id := name] else old(displayNames)
      ensures !ok ==> mixer.View() == old(mixer.View()) && !panicked
      ensures ok ==>
                var v := old(mixer.View());
                var joined := v.branches[id := NewBranch(old(mixer.nextSerial), true, mutes)];
                (mixer.View(), panicked) == Redraw(v.(branches := joined), Wanted())
      ensures mixer.nextSerial == old(mixer.nextSerial) + if id !in old(mixer.branches) && built then 1 else 0
    {
      panicked := false;
      ok := OpenBranch(id, true, built, mutes, listener.Some?);
      if ok {
        RegisterSIPPeer(id, name, listener.value);
        panicked := ApplyLayout();
      }
    }

    /** Out of the join order and out of every slot. */
    method GiveUpPlace(id: string)
      requires slots.Length == SLOTS
      modifies this`joinOrder, slots
      ensures joinOrder == RemoveID(old(joinOrder), id) && slots[..] == Vacate(old(slots[..]), id)
    {
      joinOrder := RemoveIDLoop(joinOrder, id);
      FreeSlots(id, -1);
      assert slots[..] == Vacate(old(slots[..]), id);
    }

    method RemovePeer(id: string, clock: int) returns (panicked: bool)
      requires Valid()
      modifies this`peers, this`joinOrder, slots, mixer, mixer.placeholders, det, peers.Values
      ensures Valid()
      ensures Membership() == Departed(old(Membership()), id, WebRTC)
      ensures peers == old(peers) - {id}
      ensures id in old(peers) ==> old(peers)[id].closed
      ensures det.View() == ForgetStep(old(det.View()), id, clock)
      ensures sfu ==> mixer.View() == old(mixer.View()) && !panicked
      ensures !sfu ==>
                var v := old(mixer.View());
                (mixer.View(), panicked) == Redraw(v.(branches := v.branches - {id}), Wanted())
      ensures mixer.nextSerial == old(mixer.nextSerial)
    {
      var leaving := if id in peers then Some(peers[id]) else None;
      peers := peers - {id};
      assert peers.Keys == old(peers.Keys) - {id};
      GiveUpPlace(id);
      det.Forget(id, clock);
      if leaving.Some? {
        leaving.value.Close();
      }
      panicked := false;
      if !sfu {
        mixer.RemovePeer(id);
        panicked := ApplyLayout();
      }
    }

    /** Unlike RemovePeer this leaves the speaker detector alone. */
    method RemoveSIPPeer(id: string) returns (panicked: bool)
      requires Valid()
      modifies this`sipPeers, this`joinOrder, this`displayNames, slots, mixer, mixer.placeholders
      ensures Valid()
      ensures Membership() == Departed(old(Membership()), id, SIP)
      ensures sipPeers == old(sipPeers) - {id} && displayNames == old(displayNames) - {id}
      ensures var v := old(mixer.View());
              (mixer.View(), panicked) == Redraw(v.(branches := v.branches - {id}), Wanted())
      ensures mixer.nextSerial == old(mixer.nextSerial)
    {
      sipPeers := sipPeers - {id};
      assert sipPeers.Keys == old(sipPeers.Keys) - {id};
      displayNames := displayNames - {id};
      GiveUpPlace(id);
      mixer.RemovePeer(id);
      panicked := ApplyLayout();
    }

    // ----- sound --------------------------------------------------------------------------------------

    /** A packet from sender goes once to every other open participant, on the sender's track,
        and to nobody on any other track; a sender without a slot is not heard. */
    method ForwardAudio(sender: string, pkt: Packet)
      requires Valid()
      modifies peers.Values
      ensures Valid()
      ensures forall id | id in peers :: peers[id].closed == old(peers[id].closed)
      ensures var slot := SlotTable.SlotOf(slots[..], sender);
              forall id | id in peers ::
                peers[id].tracks == if slot < 0 || id == sender then old(peers[id].tracks)
                                    else Written(old(peers[id].tracks), peers[id].closed, slot, pkt)
    {
      var slot := SlotOf(sender);
      if slot < 0 {
        return;
      }
      var targets := peers.Keys - {sender};
      while targets != {}
        invariant targets <= peers.Keys - {sender}
        invariant forall id | id in peers :: peers[id].Valid() && peers[id].closed == old(peers[id].closed)
        invariant forall id | id in peers ::
                    peers[id].tracks == if id == sender || id in targets then old(peers[id].tracks)
                                        else Written(old(peers[id].tracks), old(peers[id].closed), slot, pkt)
        decreases targets
      {
        var id :| id in targets;
        targets := targets - {id};
        peers[id].WriteAudioSlot(slot, pkt);
      }
    }

    /** A measured level; the layout follows a change of speaker. */
    method OnLevel(id: string, dbfs: real, clock: int) returns (speaker: string, changed: bool, panicked: bool)
      requires Valid()
      modifies det, mixer`branches, mixer.placeholders
      ensures Valid()
      ensures PushStep(det.settings, old(det.View()), Sample(id, dbfs, Some(clock)), clock,
                       det.View(), speaker, changed)
      ensures (mixer.View(), panicked) == if changed then Redraw(old(mixer.View()), Wanted())
          else (old(mixer.View()), false)
    {
      speaker, changed := det.Push(Sample(id, dbfs, Some(clock)), clock);
      panicked := false;
      if changed {
        panicked := ApplyLayout();
      }
    }
  }
}
