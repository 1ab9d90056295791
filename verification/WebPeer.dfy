/** A WebRTC participant, reduced to its outgoing audio tracks. */
module WebPeer {
  import SlotTable

  type Packet = seq<bv8>

  /** The packets written to each audio track so far. */
  type Tracks<P> = seq<seq<P>>

  /** One more packet on a track; nothing for a closed peer or a track it does not have. */
  function Written<P>(tracks: Tracks<P>, closed: bool, slot: int, pkt: P): Tracks<P> {
    if closed || !(0 <= slot < |tracks|) then tracks
    else tracks[slot := tracks[slot] + [pkt]]
  }

  class Peer {
    const id: string
    var closed: bool
    var tracks: Tracks<Packet>

    ghost predicate Valid()
      reads this
    {
      |tracks| == SlotTable.SLOTS
    }

    constructor (id: string)
      ensures Valid() && this.id == id && !closed
      ensures forall i | 0 <= i < SlotTable.SLOTS :: tracks[i] == []
    {
      this.id := id;
      closed := false;
      tracks := seq(SlotTable.SLOTS, i => []);
    }

    method WriteAudioSlot(slot: int, pkt: Packet)
      modifies this`tracks
      ensures tracks == Written(old(tracks), closed, slot, pkt)
      ensures !closed && 0 <= slot < |tracks| ==> tracks[slot] == old(tracks[slot]) + [pkt]
      ensures forall k | 0 <= k < |tracks| && (closed || k != slot) :: tracks[k] == old(tracks[k])
    {
      if closed || slot < 0 || slot >= |tracks| {
        return;
      }
      tracks := tracks[slot := tracks[slot] + [pkt]];
    }

    method Close()
      modifies this`closed
      ensures closed
    {
      closed := true;
    }
  }
}
