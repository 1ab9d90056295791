/** Disposing of mixer branches. Any number of RemovePeer and Stop calls run at once: each takes branches
    out of the table under the mixer's lock and disposes of them after it has let the lock go. */
module Disposal {

  /** A call in progress: the branches it has taken and not yet disposed of. armed: it has found the close
      channel of the first one open, and is about to close it. */
  datatype Call = Call(taken: seq<nat>, armed: bool)

  /** Branches are told apart by the order in which they were registered. closings lists the channels that
      were closed; covered is the number of branches registered before the first Stop. */
  datatype State = State(table: map<string, nat>, closed: bool, next: nat, covered: nat,
                         calls: map<nat, Call>, closings: seq<nat>)

  const START := State(map[], false, 0, 0, map[], [])

  datatype Event =
    | Register(id: string)                // AddPeer, its last step
    | Remove(c: nat, id: string)          // RemovePeer up to the unlock
    | Stop(c: nat, order: seq<nat>)       // Stop up to the unlock: order is how the map was walked
    | Check(c: nat)                       // is the channel closed already?
    | Close(c: nat)
    | Return(c: nat)

  ghost predicate Distinct(s: seq<nat>) {
    forall i, j | 0 <= i < j < |s| :: s[i] != s[j]
  }

  ghost predicate InTable(table: map<string, nat>, n: nat) {
    exists id :: id in table && table[id] == n
  }

  /** order lists the branches of the table, each once. */
  ghost predicate Lists(order: seq<nat>, s: State) {
    Distinct(order) && forall n :: n in order <==> InTable(s.table, n)
  }

  predicate Busy(s: State, c: nat) {
    c in s.calls && s.calls[c].taken != []
  }

  ghost predicate Enabled(s: State, e: Event) {
    match e
    case Register(id) => id !in s.table
    case Remove(c, _) => c !in s.calls
    case Stop(c, order) => c !in s.calls && (s.closed || Lists(order, s))
    case Check(c) => Busy(s, c) && !s.calls[c].armed
    case Close(c) => Busy(s, c) && s.calls[c].armed
    case Return(c) => c in s.calls && !Busy(s, c)
  }

  function Next(s: State, e: Event): State
    requires Enabled(s, e)
  {
    match e
    case Register(id) => s.(table := s.table[id := s.next], next := s.next + 1)
    case Remove(c, id) =>
      if id in s.table then s.(table := s.table - {id}, calls := s.calls[c := Call([s.table[id]], false)]) else s
    case Stop(c, order) =>
      if s.closed then s
      else s.(closed := true, covered := s.next, table := map[], calls := s.calls[c := Call(order, false)])
    case Check(c) =>
      var call := s.calls[c];
      s.(calls := s.calls[c := if call.taken[0] in s.closings then Call(call.taken[1..], false)
          else call.(armed := true)])
    case Close(c) =>
      var call := s.calls[c];
      s.(calls := s.calls[c := Call(call.taken[1..], false)], closings := s.closings + [call.taken[0]])
    case Return(c) => s.(calls := s.calls - {c})
  }

  // ----- who owns a branch ---------------------------------------------------------------------

  ghost predicate Taken(calls: map<nat, Call>, n: nat) {
    exists c :: c in calls && n in calls[c].taken
  }

  ghost predicate CallOk(s: State, call: Call) {
    && Distinct(call.taken) && (call.armed ==> call.taken != [])
    && forall n | n in call.taken :: n < s.next && n !in s.closings
  }

  ghost predicate Apart(a: seq<nat>, b: seq<nat>) {
    forall n | n in a :: n !in b
  }

  /** Every branch is in exactly one place: the table, one call, or among the disposed ones. */
  ghost predicate Owned(s: State) {
    && (forall n: nat | n < s.next :: InTable(s.table, n) || Taken(s.calls, n) || n in s.closings)
    && (forall id | id in s.table :: s.table[id] < s.next && s.table[id] !in s.closings && !Taken(s.calls, s.table[id]))
    && (forall a, b | a in s.table && b in s.table && a != b :: s.table[a] != s.table[b])
    && (forall c | c in s.calls :: CallOk(s, s.calls[c]))
    && (forall c, d | c in s.calls && d in s.calls && c != d :: Apart(s.calls[c].taken, s.calls[d].taken))
    && Distinct(s.closings) && (forall n | n in s.closings :: n < s.next)
    && s.covered <= s.next && (forall id | id in s.table :: s.covered <= s.table[id])
  }

  lemma FreshIsNotTaken(s: State)
    requires forall c | c in s.calls :: CallOk(s, s.calls[c])
    ensures !Taken(s.calls, s.next)
  {}

  lemma RegisterLocates(table: map<string, nat>, id: string, next: nat, n: nat)
    requires id !in table
    ensures InTable(table[id := next], n) <==> InTable(table, n) || n == next
  {
    var table' := table[id := next];
    if InTable(table, n) {
      var k :| k in table && table[k] == n;
      assert table'[k] == n;
    }
    if n == next { assert table'[id] == n; }
  }

  lemma RegisterKeepsOwned(s: State, id: string, s': State)
    requires Owned(s) && id !in s.table
    requires s' == s.(table := s.table[id := s.next], next := s.next + 1)
    ensures Owned(s')
  {
    FreshIsNotTaken(s);
    forall n: nat | n < s'.next ensures InTable(s'.table, n) || Taken(s'.calls, n) || n in s'.closings {
      RegisterLocates(s.table, id, s.next, n);
    }
    forall c | c in s'.calls ensures CallOk(s', s'.calls[c]) {
      assert CallOk(s, s.calls[c]);
    }
  }

  /** Moving branches from the table to a new call. */
  lemma TakeKeepsOwned(s: State, c: nat, ids: set<string>, taken: seq<nat>, s': State)
    requires Owned(s) && c !in s.calls
    requires Distinct(taken)
    requires forall n :: n in taken <==> exists id :: id in s.table && id in ids && s.table[id] == n
    requires s' == s.(table := s.table - ids, calls := s.calls[c := Call(taken, false)],
                      closed := s'.closed, covered := s'.covered)
    requires s'.covered <= s.next && forall id | id in s'.table :: s'.covered <= s.table[id]
    ensures Owned(s')
  {
    forall n: nat | n < s'.next ensures InTable(s'.table, n) || Taken(s'.calls, n) || n in s'.closings {
      if InTable(s.table, n) {
        var k :| k in s.table && s.table[k] == n;
        if k in ids {
          assert n in taken && n in s'.calls[c].taken;
        } else {
          assert k in s'.table && s'.table[k] == n;
        }
      } else if Taken(s.calls, n) {
        var d :| d in s.calls && n in s.calls[d].taken;
        assert d in s'.calls && n in s'.calls[d].taken;
      }
    }
    forall n | n in taken ensures n < s.next && n !in s.closings && !Taken(s.calls, n) {
      var k :| k in s.table && k in ids && s.table[k] == n;
    }
    assert CallOk(s', Call(taken, false));
    forall d | d in s.calls ensures CallOk(s', s.calls[d]) && Apart(s.calls[d].taken, taken)
        && Apart(taken, s.calls[d].taken) {
      assert CallOk(s, s.calls[d]);
      forall n | n in s.calls[d].taken ensures n !in taken { assert Taken(s.calls, n); }
    }
    forall k | k in s'.table ensures !Taken(s'.calls, s'.table[k]) {
      assert !Taken(s.calls, s.table[k]);
    }
  }

  /** Closing the first channel of a call. */
  lemma CloseKeepsOwned(s: State, c: nat, head: nat, rest: seq<nat>, s': State)
    requires Owned(s) && c in s.calls && s.calls[c].taken == [head] + rest
    requires s' == s.(calls := s.calls[c := Call(rest, false)], closings := s.closings + [head])
    ensures Owned(s')
  {
    var taken := s.calls[c].taken;
    assert CallOk(s, s.calls[c]);
    assert taken[0] == head && taken[1..] == rest;
    assert head in taken && Taken(s.calls, head);
    assert Distinct(rest) && head !in rest by {
      assert forall i | 0 <= i < |rest| :: rest[i] == taken[i + 1];
    }
    forall n: nat | n < s'.next ensures InTable(s'.table, n) || Taken(s'.calls, n) || n in s'.closings {
      if Taken(s.calls, n) && n != head {
        var d :| d in s.calls && n in s.calls[d].taken;
        assert d in s'.calls && n in s'.calls[d].taken;
      }
    }
    forall n | n in rest ensures n < s.next && n !in s'.closings {
      assert n in taken;
    }
    forall d | d in s.calls && d != c ensures CallOk(s', s.calls[d]) && Apart(s.calls[d].taken, rest)
        && Apart(rest, s.calls[d].taken) {
      assert CallOk(s, s.calls[d]) && Apart(taken, s.calls[d].taken) && Apart(s.calls[d].taken, taken);
    }
    forall k | k in s'.table ensures !Taken(s'.calls, s'.table[k]) && s'.table[k] !in s'.closings {
      assert !Taken(s.calls, s.table[k]);
    }
  }

  lemma ReturnKeepsOwned(s: State, c: nat)
    requires Owned(s) && c in s.calls && !Busy(s, c)
    ensures Owned(Next(s, Return(c)))
  {
    var s' := Next(s, Return(c));
    forall n: nat | n < s'.next ensures InTable(s'.table, n) || Taken(s'.calls, n) || n in s'.closings {
      if InTable(s.table, n) {
        assert InTable(s'.table, n);
      } else if Taken(s.calls, n) {
        var d :| d in s.calls && n in s.calls[d].taken;
        assert d in s'.calls && n in s'.calls[d].taken;
      }
    }
    forall k | k in s'.table ensures !Taken(s'.calls, s'.table[k]) {
      assert !Taken(s.calls, s.table[k]);
    }
  }

  lemma CheckKeepsOwned(s: State, c: nat)
    requires Owned(s) && Busy(s, c) && !s.calls[c].armed
    ensures Owned(Next(s, Check(c)))
  {
    var s' := Next(s, Check(c));
    assert s.calls[c].taken[0] in s.calls[c].taken;
    assert s'.calls.Keys == s.calls.Keys;
    assert forall d | d in s.calls :: s'.calls[d].taken == s.calls[d].taken;
    forall n: nat ensures Taken(s'.calls, n) == Taken(s.calls, n) && InTable(s'.table, n) == InTable(s.table, n) {
      if Taken(s.calls, n) { var d :| d in s.calls && n in s.calls[d].taken; assert n in s'.calls[d].taken; }
    }
  }

  lemma StepKeepsOwned(s: State, e: Event)
    requires Owned(s) && Enabled(s, e)
    ensures Owned(Next(s, e))
  {
    match e
    case Register(id) => RegisterKeepsOwned(s, id, Next(s, e));
    case Remove(c, id) =>
      if id in s.table {
        TakeKeepsOwned(s, c, {id}, [s.table[id]], Next(s, e));
      }
    case Stop(c, order) =>
      if !s.closed {
        assert s.table - s.table.Keys == map[];
        forall n ensures n in order <==> exists id :: id in s.table && id in s.table.Keys && s.table[id] == n {
          assert n in order <==> InTable(s.table, n);
        }
        TakeKeepsOwned(s, c, s.table.Keys, order, Next(s, e));
      }
    case Check(c) => CheckKeepsOwned(s, c);
    case Close(c) => CloseKeepsOwned(s, c, s.calls[c].taken[0], s.calls[c].taken[1..], Next(s, e));
    case Return(c) => ReturnKeepsOwned(s, c);
  }

  // ----- runs ------------------------------------------------------------------------------------

  ghost predicate Step(s: State, e: Event, s': State) {
    Enabled(s, e) && s' == Next(s, e)
  }

  ghost predicate Run(states: seq<State>, events: seq<Event>) {
    && |states| == |events| + 1
    && states[0] == START
    && forall i | 0 <= i < |events| :: Step(states[i], events[i], states[i + 1])
  }

  lemma {:induction false} RunKeepsOwned(states: seq<State>, events: seq<Event>, i: nat)
    requires Run(states, events) && i < |states|
    ensures Owned(states[i])
  {
    if i > 0 {
      RunKeepsOwned(states, events, i - 1);
      assert Step(states[i - 1], events[i - 1], states[i]);
      StepKeepsOwned(states[i - 1], events[i - 1]);
    }
  }

  /** No channel is ever closed a second time, which would panic; so the check before it never finds one closed. */
  lemma NeverClosedTwice(states: seq<State>, events: seq<Event>, i: nat)
    requires Run(states, events) && i < |events|
    requires events[i].Close? || events[i].Check?
    ensures Busy(states[i], events[i].c) && states[i].calls[events[i].c].taken[0] !in states[i].closings
    ensures Distinct(states[i + 1].closings)
  {
    RunKeepsOwned(states, events, i);
    RunKeepsOwned(states, events, i + 1);
    assert Step(states[i], events[i], states[i + 1]);
  }

  function Times(s: seq<nat>, n: nat): nat {
    multiset(s)[n]
  }

  lemma {:induction false} DistinctTimes(s: seq<nat>, n: nat)
    requires Distinct(s)
    ensures Times(s, n) == if n in s then 1 else 0
  {
    if s != [] {
      var init := s[..|s| - 1];
      assert s == init + [s[|s| - 1]];
      DistinctTimes(init, n);
    }
  }

  /** When all calls have returned, every branch has been disposed of exactly once, unless it is still in
      the table; and none of the branches registered before the first Stop is still there. */
  lemma DisposedExactlyOnce(states: seq<State>, events: seq<Event>, i: nat, n: nat)
    requires Run(states, events) && i < |states|
    requires states[i].calls == map[] && n < states[i].next
    ensures Times(states[i].closings, n) == if InTable(states[i].table, n) then 0 else 1
    ensures n < states[i].covered ==> Times(states[i].closings, n) == 1
  {
    var s := states[i];
    RunKeepsOwned(states, events, i);
    DistinctTimes(s.closings, n);
    if InTable(s.table, n) {
      var id :| id in s.table && s.table[id] == n;
      assert s.table[id] !in s.closings && s.covered <= s.table[id];
    }
  }

  // ----- which branches have to go ---------------------------------------------------------------------

  lemma StepKeepsGone(s: State, e: Event, n: nat)
    requires Enabled(s, e) && n < s.next && !InTable(s.table, n)
    ensures n < Next(s, e).next && !InTable(Next(s, e).table, n)
  {
    match e
    case Register(id) => RegisterLocates(s.table, id, s.next, n);
    case Remove(_, id) =>
      forall k | k in s.table - {id} ensures s.table[k] != n {
        assert s.table[k] == n ==> InTable(s.table, n);
      }
    case _ =>
  }

  lemma StaysGone(states: seq<State>, events: seq<Event>, i: nat, j: nat, n: nat)
    requires Run(states, events) && i <= j < |states| && n < states[i].next && !InTable(states[i].table, n)
    ensures n < states[j].next && !InTable(states[j].table, n)
  {
    for k := i to j
      invariant n < states[k].next && !InTable(states[k].table, n)
    {
      assert Step(states[k], events[k], states[k + 1]);
      StepKeepsGone(states[k], events[k], n);
    }
  }

  /** A branch that a RemovePeer call found under its id is out of the table at once, and disposed of exactly once when
      all calls have returned. */
  lemma RemovedIsDisposed(states: seq<State>, events: seq<Event>, i: nat, j: nat)
    requires Run(states, events) && i < j < |states| && events[i].Remove? && events[i].id in states[i].table
    ensures events[i].id !in states[i + 1].table
    ensures states[j].calls == map[] ==> Times(states[j].closings, states[i].table[events[i].id]) == 1
  {
    var id, n := events[i].id, states[i].table[events[i].id];
    RunKeepsOwned(states, events, i);
    assert Step(states[i], events[i], states[i + 1]);
    assert forall k | k in states[i + 1].table :: k in states[i].table && k != id && states[i].table[k] != n;
    StaysGone(states, events, i + 1, j, n);
    if states[j].calls == map[] { DisposedExactlyOnce(states, events, j, n); }
  }

  /** Every branch registered before the first Stop call is out of the table at once, and disposed of exactly once when
      all calls have returned. */
  lemma StopDisposesAll(states: seq<State>, events: seq<Event>, i: nat, j: nat, n: nat)
    requires Run(states, events) && i < j < |states| && events[i].Stop? && n < states[i].next
    requires forall k | 0 <= k < i :: !events[k].Stop?
    ensures !InTable(states[i + 1].table, n)
    ensures states[j].calls == map[] ==> Times(states[j].closings, n) == 1
  {
    for k := 0 to i
      invariant !states[k].closed
    {
      assert Step(states[k], events[k], states[k + 1]);
    }
    assert Step(states[i], events[i], states[i + 1]);
    StaysGone(states, events, i + 1, j, n);
    if states[j].calls == map[] { DisposedExactlyOnce(states, events, j, n); }
  }
}
