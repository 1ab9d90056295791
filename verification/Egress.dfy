/** What the SIP participants are handed: each mix goes to every one of them that is there when it is sent, once and
    in the order of mixing. */
module Egress {
  import opened Membership
  import opened RoomRuns

  /** The mixes made by these events, oldest first. */
  function Mixes(events: seq<Event>): seq<set<nat>> {
    if events == [] then []
    else
      var last := events[|events| - 1];
      Mixes(events[..|events| - 1]) + if last.Mix? then [last.sources] else []
  }

  /** How many mixes these events have sent. */
  function Sends(events: seq<Event>): nat {
    if events == [] then 0
    else Sends(events[..|events| - 1]) + if events[|events| - 1].SendMix? then 1 else 0
  }

  lemma StepKeepsQueue(s: State, e: Event, mixes: seq<set<nat>>, sends: nat)
    requires Enabled(s, e) && sends <= |mixes| && s.mixed == mixes[sends..]
    ensures var mixes' := mixes + if e.Mix? then [e.sources] else [];
            var sends' := sends + if e.SendMix? then 1 else 0;
            sends' <= |mixes'| && Next(s, e).mixed == mixes'[sends'..]
  {
    if e.Mix? {
      assert (mixes + [e.sources])[sends..] == mixes[sends..] + [e.sources];
    } else {
      assert mixes + [] == mixes;
    }
  }

  /** The queue holds the mixes made and not yet sent. */
  lemma {:induction false} QueueHolds(states: seq<State>, events: seq<Event>, i: nat)
    requires Run(states, events) && i < |states|
    ensures Sends(events[..i]) <= |Mixes(events[..i])| && states[i].mixed == Mixes(events[..i])[Sends(events[..i])..]
  {
    if i > 0 {
      QueueHolds(states, events, i - 1);
      assert Step(states[i - 1], events[i - 1], states[i]);
      assert events[..i][..i - 1] == events[..i - 1];
      StepKeepsQueue(states[i - 1], events[i - 1], Mixes(events[..i - 1]), Sends(events[..i - 1]));
    }
  }

  /** Somebody is handed something by an event if and only if it is a SIP participant then, the event sends a mix, and
      what it is handed is the oldest mix that no event has sent before. */
  lemma MixReachesEverySIP(states: seq<State>, events: seq<Event>, i: nat, r: string, x: set<nat>)
    requires Run(states, events) && i < |events|
    ensures events[i] == SendMix ==> Sends(events[..i]) < |Mixes(events[..i])|
    ensures ToSIP(r, x) in Deliveries(states[i], events[i]) <==>
            events[i] == SendMix && r in states[i].tables.sips && x == Mixes(events[..i])[Sends(events[..i])]
  {
    QueueHolds(states, events, i);
    RunKeeps(states, events, i);
    assert Step(states[i], events[i], states[i + 1]);
  }

  lemma {:induction false} EarlierMixesStay(events: seq<Event>, i: nat, j: nat)
    requires i <= j <= |events|
    ensures Mixes(events[..i]) <= Mixes(events[..j]) && Sends(events[..i]) <= Sends(events[..j])
    decreases j
  {
    if i < j {
      EarlierMixesStay(events, i, j - 1);
      assert events[..j][..j - 1] == events[..j - 1];
    }
  }

  lemma OneMoreSend(events: seq<Event>, i: nat)
    requires i < |events| && events[i] == SendMix
    ensures Sends(events[..i + 1]) == Sends(events[..i]) + 1
  {
    assert events[..i + 1][..i] == events[..i];
  }

  /** No mix is sent twice, and none overtakes another: of two sends the later one sends a later mix. */
  lemma MixesGoOutInTurn(states: seq<State>, events: seq<Event>, i: nat, j: nat)
    requires Run(states, events) && i < j < |events| && events[i] == SendMix && events[j] == SendMix
    ensures Sends(events[..i]) < Sends(events[..j]) < |Mixes(events[..j])|
    ensures Mixes(events[..i]) <= Mixes(events[..j])
    ensures (forall k | i < k < j :: events[k] != SendMix) ==> Sends(events[..j]) == Sends(events[..i]) + 1
  {
    QueueHolds(states, events, j);
    assert Step(states[j], events[j], states[j + 1]);
    OneMoreSend(events, i);
    EarlierMixesStay(events, i, j);
    EarlierMixesStay(events, i + 1, j);
    if forall k | i < k < j :: events[k] != SendMix { NoSendsBetween(events, i + 1, j); }
  }

  lemma {:induction false} NoSendsBetween(events: seq<Event>, i: nat, j: nat)
    requires i <= j <= |events| && forall k | i <= k < j :: events[k] != SendMix
    ensures Sends(events[..j]) == Sends(events[..i])
    decreases j
  {
    if i < j {
      NoSendsBetween(events, i, j - 1);
      assert events[..j][..j - 1] == events[..j - 1];
    }
  }
}
