/** The join order is the order of joining, whoever has left in between; and what that means for the picture. */
module JoinOrder {
  import opened Membership
  import opened LayoutEngine
  import opened RoomRuns

  predicate JoinsAs(e: Event, id: string) {
    (e.RegisterPeer? || e.RegisterSIP?) && e.id == id
  }

  /** The last of these events by which id joined, or -1. */
  function LastJoin(events: seq<Event>, id: string): (k: int)
    ensures -1 <= k < |events|
    ensures k >= 0 ==> JoinsAs(events[k], id)
    ensures forall m | k < m < |events| :: !JoinsAs(events[m], id)
  {
    if events == [] then -1
    else if JoinsAs(events[|events| - 1], id) then |events| - 1
    else LastJoin(events[..|events| - 1], id)
  }

  /** Everybody in the list joined, and in this order. */
  ghost predicate InTurn(order: seq<string>, events: seq<Event>) {
    && (forall p | 0 <= p < |order| :: LastJoin(events, order[p]) >= 0)
    && (forall p, q | 0 <= p < q < |order| :: LastJoin(events, order[p]) < LastJoin(events, order[q]))
  }

  lemma JoinKeepsTurn(order: seq<string>, events: seq<Event>, e: Event)
    requires InTurn(order, events) && (e.RegisterPeer? || e.RegisterSIP?) && e.id !in order
    ensures InTurn(order + [e.id], events + [e])
  {
    var events' := events + [e];
    assert events'[..|events|] == events;
    forall p | 0 <= p < |order| ensures LastJoin(events', order[p]) == LastJoin(events, order[p]) {
      assert order[p] != e.id;
    }
  }

  lemma OthersKeepTurn(order: seq<string>, events: seq<Event>, e: Event)
    requires InTurn(order, events) && !e.RegisterPeer? && !e.RegisterSIP?
    ensures InTurn(order, events + [e])
  {
    assert (events + [e])[..|events|] == events;
  }

  lemma CutKeepsTurn(order: seq<string>, events: seq<Event>, k: nat)
    requires InTurn(order, events)
    ensures InTurn(Cut(order, k), events)
  {
    var rest := Cut(order, k);
    forall p | 0 <= p < |rest| ensures LastJoin(events, rest[p]) >= 0 {
      assert rest[p] == order[if p < k then p else p + 1];
    }
    forall p, q | 0 <= p < q < |rest| ensures LastJoin(events, rest[p]) < LastJoin(events, rest[q]) {
      var i, j := if p < k then p else p + 1, if q < k then q else q + 1;
      assert rest[p] == order[i] && rest[q] == order[j] && i < j;
    }
  }

  lemma OrderChanges(s: State, e: Event)
    requires Enabled(s, e)
    ensures Next(s, e).tables.order ==
            if e.RegisterPeer? || e.RegisterSIP? then s.tables.order + [e.id]
            else if e.Leave? then RemoveID(s.tables.order, e.id) else s.tables.order
  {
    TablesFollow(s, e);
  }

  lemma {:induction false} RunIsInTurn(states: seq<State>, events: seq<Event>, i: nat)
    requires Run(states, events) && i < |states|
    ensures InTurn(states[i].tables.order, events[..i])
  {
    if i > 0 {
      var s, e := states[i - 1], events[i - 1];
      RunIsInTurn(states, events, i - 1);
      assert Step(s, e, states[i]);
      OrderChanges(s, e);
      assert events[..i] == events[..i - 1] + [e];
      if e.RegisterPeer? || e.RegisterSIP? {
        RunKeeps(states, events, i - 1);
        assert Agrees(s, e.id);
        JoinKeepsTurn(s.tables.order, events[..i - 1], e);
      } else {
        if e.Leave? {
          var k := RemoveIDCuts(s.tables.order, e.id);
          CutKeepsTurn(s.tables.order, events[..i - 1], k);
        }
        OthersKeepTurn(states[i].tables.order, events[..i - 1], e);
      }
    }
  }

  /** In every state of every interleaving: of two participants the one that joined earlier, by its last joining,
      stands before the other, and conversely. */
  lemma EarlierStandsBefore(states: seq<State>, events: seq<Event>, i: nat, p: nat, q: nat)
    requires Run(states, events) && i < |states|
    requires p < |states[i].tables.order| && q < |states[i].tables.order|
    ensures var a, b := states[i].tables.order[p], states[i].tables.order[q];
            && 0 <= LastJoin(events[..i], a) < i
            && (p < q <==> LastJoin(events[..i], a) < LastJoin(events[..i], b))
  {
    RunIsInTurn(states, events, i);
  }

  /** A newcomer takes the last place: nobody who was there changes place in the grid, and the large picture that
      goes to the first participant stays where it is. */
  lemma JoiningKeepsPlaces(t: Tables, id: string, kind: Kind, spec: Spec)
    requires t.order != []
    ensures var before, after := t.order, Joined(t, id, kind).order;
            && |after| == |before| + 1 && after[|before|] == id
            && (forall i | 0 <= i < |before| :: after[i] == before[i])
            && Rows(|before|) > 0 && Rows(|after|) > 0
            && (forall i | 0 <= i < |before| :: GridCells(spec, after)[i].peer == GridCells(spec, before)[i].peer)
            && GridCells(spec, after)[|before|].peer == id
            && MainSpeaker(spec, after) == MainSpeaker(spec, before)
            && MainPresenter(spec, after) == MainPresenter(spec, before)
  {
    GridShape(|t.order|);
    GridShape(|t.order| + 1);
  }
}
