/** The membership tables of a conference and what joining and leaving do to them. */
module Membership {
  import opened SlotTable

  datatype Kind = WebRTC | SIP

  /** The slot table, the join order, and the ids of the two kinds of participants. */
  datatype Tables = Tables(slots: Table, order: seq<string>, peers: set<string>, sips: set<string>) {
    function Members(): set<string> { peers + sips }
  }

  const EMPTY := Tables(FREE, [], {}, {})

  /** The list without the first occurrence of id. */
  function RemoveID(s: seq<string>, id: string): seq<string> {
    if s == [] then [] else if s[0] == id then s[1..] else [s[0]] + RemoveID(s[1..], id)
  }

  method RemoveIDLoop(s: seq<string>, id: string) returns (r: seq<string>)
    ensures r == RemoveID(s, id)
  {
    for i := 0 to |s|
      invariant RemoveID(s, id) == s[..i] + RemoveID(s[i..], id)
    {
      assert s[i..][1..] == s[i + 1..];
      if s[i] == id {
        return s[..i] + s[i + 1..];
      }
      assert s[..i] + [s[i]] == s[..i + 1];
    }
    assert s[..|s|] == s && s[|s|..] == [];
    return s;
  }

  function Joined(t: Tables, id: string, kind: Kind): Tables {
    var seated := t.(slots := Seat(t.slots, id), order := t.order + [id]);
    if kind == WebRTC then seated.(peers := t.peers + {id}) else seated.(sips := t.sips + {id})
  }

  function Departed(t: Tables, id: string, kind: Kind): Tables {
    var vacated := t.(slots := Vacate(t.slots, id), order := RemoveID(t.order, id));
    if kind == WebRTC then vacated.(peers := t.peers - {id}) else vacated.(sips := t.sips - {id})
  }

  ghost predicate NoDuplicates(s: seq<string>) {
    forall i, j | 0 <= i < j < |s| :: s[i] != s[j]
  }

  lemma {:induction false} RemoveIDMeaning(s: seq<string>, id: string)
    requires NoDuplicates(s)
    ensures NoDuplicates(RemoveID(s, id))
    ensures forall x :: x in RemoveID(s, id) <==> x in s && x != id
  {
    if s != [] {
      assert forall x :: x in s <==> x == s[0] || x in s[1..];
      if s[0] != id {
        RemoveIDMeaning(s[1..], id);
        var r := RemoveID(s[1..], id);
        assert s[0] !in r;
        assert forall x :: x in [s[0]] + r <==> x == s[0] || x in r;
      }
    }
  }

  /** The list without its element k. */
  function Cut(s: seq<string>, k: nat): seq<string> {
    if k < |s| then s[..k] + s[k + 1..] else s
  }

  lemma CutLater(s: seq<string>, k: nat)
    requires s != []
    ensures Cut(s, k + 1) == [s[0]] + Cut(s[1..], k)
  {
    if k < |s[1..]| {
      assert s[1..][k + 1..] == s[k + 2..];
      assert s[..k + 1] == [s[0]] + s[1..][..k];
    }
  }

  /** Exactly the first occurrence is cut out, at k; what stands before and behind it stays in its order. */
  lemma {:induction false} RemoveIDCuts(s: seq<string>, id: string) returns (k: nat)
    ensures k <= |s| && (forall i | 0 <= i < k :: s[i] != id) && (k < |s| ==> s[k] == id)
    ensures RemoveID(s, id) == Cut(s, k)
  {
    if s == [] {
      k := 0;
    } else if s[0] == id {
      k := 0;
      assert s[..0] == [];
    } else {
      k := RemoveIDCuts(s[1..], id);
      CutLater(s, k);
      assert forall i | 0 < i <= k :: s[i] == s[1..][i - 1];
      k := k + 1;
    }
  }

  lemma {:induction false} RemoveLast(s: seq<string>, id: string)
    requires id !in s
    ensures RemoveID(s + [id], id) == s
  {
    if s == [] {
      assert (s + [id])[1..] == [];
    } else {
      assert (s + [id])[1..] == s[1..] + [id];
      RemoveLast(s[1..], id);
    }
  }

  /** Leaving undoes joining: every table is as it was, whatever happened to be in it. */
  lemma LeavingUndoesJoining(t: Tables, id: string, kind: Kind)
    requires id != "" && id !in t.order && id !in t.Members() && !Holds(t.slots, id)
    ensures Departed(Joined(t, id, kind), id, kind) == t
  {
    SeatMeaning(t.slots, id);
    RemoveLast(t.order, id);
    assert t.peers + {id} - {id} == t.peers && t.sips + {id} - {id} == t.sips;
  }
}
