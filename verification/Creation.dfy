/** Creating rooms and their mixers on demand. Two registries, each with a look under a read lock, a second
    look under the write lock and then the construction; the room registry calls the mixer registry while
    it holds its own lock. Any number of callers run at once, each stopping between any two steps. */
module Creation {
  import opened Text

  datatype Place =
    | ReadRoom | WaitRoom | RecheckRoom          // in the room registry
    | ReadPipe | WaitPipe | RecheckPipe | BuildPipe  // in the mixer registry
    | BuildRoom(pipe: nat)
    | Returned(result: Option<nat>)

  /** viaRoom: the caller asks for a room; otherwise it asks the mixer registry directly. */
  datatype Caller = Caller(id: string, viaRoom: bool, at: Place)

  datatype Room = Room(id: string, pipe: nat)

  /** Every room and every mixer ever constructed is listed, and goes by its place in the list. */
  datatype State = State(rooms: map<string, nat>, pipes: map<string, nat>,
                         roomLock: Option<nat>, pipeLock: Option<nat>, callers: map<nat, Caller>,
                         roomsBuilt: seq<Room>, pipesBuilt: seq<string>)

  const START := State(map[], map[], None, None, map[], [], [])

  datatype Event = Begin(c: nat, id: string, viaRoom: bool) | Go(c: nat, ok: bool)

  predicate Enabled(s: State, e: Event) {
    match e
    case Begin(c, _, _) => c !in s.callers
    case Go(c, _) =>
      && c in s.callers
      && match s.callers[c].at
         case ReadRoom => s.roomLock == None
         case WaitRoom => s.roomLock == None
         case ReadPipe => s.pipeLock == None
         case WaitPipe => s.pipeLock == None
         case Returned(_) => false
         case _ => true
  }

  function Move(s: State, c: nat, at: Place): State
    requires c in s.callers
  {
    s.(callers := s.callers[c := s.callers[c].(at := at)])
  }

  /** The mixer registry has answered. */
  function GotPipe(s: State, c: nat, pipe: nat): State
    requires c in s.callers
  {
    Move(s, c, if s.callers[c].viaRoom then BuildRoom(pipe) else Returned(Some(pipe)))
  }

  function Next(s: State, e: Event): State
    requires Enabled(s, e)
  {
    match e
    case Begin(c, id, viaRoom) =>
      s.(callers := s.callers[c := Caller(id, viaRoom, if viaRoom then ReadRoom else ReadPipe)])
    case Go(c, ok) =>
      var id := s.callers[c].id;
      match s.callers[c].at
      case ReadRoom => Move(s, c, if id in s.rooms then Returned(Some(s.rooms[id])) else WaitRoom)
      case WaitRoom => Move(s, c, RecheckRoom).(roomLock := Some(c))
      case RecheckRoom =>
        if id in s.rooms then Move(s, c, Returned(Some(s.rooms[id]))).(roomLock := None) else Move(s, c, ReadPipe)
      case ReadPipe => if id in s.pipes then GotPipe(s, c, s.pipes[id]) else Move(s, c, WaitPipe)
      case WaitPipe => Move(s, c, RecheckPipe).(pipeLock := Some(c))
      case RecheckPipe =>
        if id in s.pipes then GotPipe(s, c, s.pipes[id]).(pipeLock := None) else Move(s, c, BuildPipe)
      case BuildPipe =>
        if ok then
          var built := s.(pipes := s.pipes[id := |s.pipesBuilt|], pipesBuilt := s.pipesBuilt + [id], pipeLock := None);
          GotPipe(built, c, |s.pipesBuilt|)
        else
          Move(s, c, Returned(None)).(pipeLock := None, roomLock := if s.callers[c].viaRoom then None else s.roomLock)
      case BuildRoom(pipe) =>
        Move(s, c, Returned(Some(|s.roomsBuilt|))).(
          rooms := s.rooms[id := |s.roomsBuilt|], roomsBuilt := s.roomsBuilt + [Room(id, pipe)], roomLock := None)
      case Returned(_) => s
  }

  // ----- what every step keeps ------------------------------------------------------------------------

  predicate InPipes(at: Place) {
    at.ReadPipe? || at.WaitPipe? || at.RecheckPipe? || at.BuildPipe?
  }

  predicate HoldsRoomLock(k: Caller) {
    k.at.RecheckRoom? || (k.viaRoom && InPipes(k.at)) || k.at.BuildRoom?
  }

  predicate HoldsPipeLock(k: Caller) {
    k.at.RecheckPipe? || k.at.BuildPipe?
  }

  predicate CallerOk(s: State, c: nat, k: Caller) {
    && (HoldsRoomLock(k) <==> s.roomLock == Some(c))
    && (HoldsPipeLock(k) <==> s.pipeLock == Some(c))
    && (k.at.ReadRoom? || k.at.WaitRoom? || k.at.RecheckRoom? || k.at.BuildRoom? ==> k.viaRoom)
    && (k.viaRoom && (InPipes(k.at) || k.at.BuildRoom?) ==> k.id !in s.rooms)
    && (k.at.BuildPipe? ==> k.id !in s.pipes)
    && (k.at.BuildRoom? ==> k.id in s.pipes && s.pipes[k.id] == k.at.pipe)
    && (k.at.Returned? && k.at.result.Some? ==>
          var registry := if k.viaRoom then s.rooms else s.pipes;
          k.id in registry && registry[k.id] == k.at.result.value)
  }

  predicate PlaceOk(s: State, c: nat) {
    c in s.callers ==> CallerOk(s, c, s.callers[c])
  }

  ghost predicate CallersOk(s: State) {
    forall c: nat :: PlaceOk(s, c)
  }

  /** The registries hold exactly what was built, and a room's mixer is the registered one. */
  ghost predicate RegistriesOk(s: State) {
    && (forall id | id in s.rooms :: s.rooms[id] < |s.roomsBuilt| && s.roomsBuilt[s.rooms[id]].id == id)
    && (forall k | 0 <= k < |s.roomsBuilt| :: s.roomsBuilt[k].id in s.rooms && s.rooms[s.roomsBuilt[k].id] == k)
    && (forall id | id in s.pipes :: s.pipes[id] < |s.pipesBuilt| && s.pipesBuilt[s.pipes[id]] == id)
    && (forall k | 0 <= k < |s.pipesBuilt| :: s.pipesBuilt[k] in s.pipes && s.pipes[s.pipesBuilt[k]] == k)
    && (forall id | id in s.rooms :: id in s.pipes && s.roomsBuilt[s.rooms[id]].pipe == s.pipes[id])
  }

  lemma StepKeepsMover(s: State, e: Event)
    requires Enabled(s, e) && PlaceOk(s, e.c)
    requires s.roomLock == Some(e.c) || s.pipeLock == Some(e.c) ==> e.c in s.callers
    ensures PlaceOk(Next(s, e), e.c)
  {}

  /** What the step of one caller can change for all others: it takes a free lock or frees its own,
      and it adds to a registry only while it holds that registry's lock. */
  predicate Unharmed(s: State, s': State, mover: nat) {
    && (s'.roomLock == s.roomLock || (s.roomLock == None && s'.roomLock == Some(mover))
        || (s.roomLock == Some(mover) && s'.roomLock == None))
    && (s'.pipeLock == s.pipeLock || (s.pipeLock == None && s'.pipeLock == Some(mover))
        || (s.pipeLock == Some(mover) && s'.pipeLock == None))
    && (s'.rooms == s.rooms || s.roomLock == Some(mover))
    && (s'.pipes == s.pipes || s.pipeLock == Some(mover))
  }

  ghost predicate Grows(m: map<string, nat>, m': map<string, nat>) {
    forall id | id in m :: id in m' && m'[id] == m[id]
  }

  lemma StepLeavesOthers(s: State, e: Event, c: nat)
    requires Enabled(s, e) && PlaceOk(s, e.c) && c != e.c
    ensures Unharmed(s, Next(s, e), e.c)
    ensures Grows(s.rooms, Next(s, e).rooms) && Grows(s.pipes, Next(s, e).pipes)
    ensures c in Next(s, e).callers <==> c in s.callers
    ensures c in s.callers ==> Next(s, e).callers[c] == s.callers[c]
  {}

  lemma OthersStayOk(s: State, s': State, mover: nat, c: nat)
    requires PlaceOk(s, c) && c != mover && Unharmed(s, s', mover)
    requires Grows(s.rooms, s'.rooms) && Grows(s.pipes, s'.pipes)
    requires c in s.callers && c in s'.callers && s'.callers[c] == s.callers[c]
    ensures PlaceOk(s', c)
  {}

  /** The step of one caller, seen by caller c. */
  lemma StepKeepsCaller(s: State, e: Event, c: nat)
    requires Enabled(s, e) && PlaceOk(s, c) && PlaceOk(s, e.c)
    requires s.roomLock == Some(e.c) || s.pipeLock == Some(e.c) ==> e.c in s.callers
    ensures PlaceOk(Next(s, e), c)
  {
    if c == e.c {
      StepKeepsMover(s, e);
    } else {
      StepLeavesOthers(s, e, c);
      if c in s.callers { OthersStayOk(s, Next(s, e), e.c, c); }
    }
  }

  ghost predicate LocksOk(s: State) {
    (s.roomLock.Some? ==> s.roomLock.value in s.callers) && (s.pipeLock.Some? ==> s.pipeLock.value in s.callers)
  }

  lemma StepKeepsCallers(s: State, e: Event)
    requires CallersOk(s) && LocksOk(s) && Enabled(s, e)
    ensures CallersOk(Next(s, e)) && LocksOk(Next(s, e))
  {
    forall c: nat ensures PlaceOk(Next(s, e), c) {
      assert PlaceOk(s, c) && PlaceOk(s, e.c);
      StepKeepsCaller(s, e, c);
    }
  }

  lemma NewPipeKeepsRegistries(s: State, id: string, s': State)
    requires RegistriesOk(s) && id !in s.pipes
    requires s'.rooms == s.rooms && s'.roomsBuilt == s.roomsBuilt
    requires s'.pipes == s.pipes[id := |s.pipesBuilt|] && s'.pipesBuilt == s.pipesBuilt + [id]
    ensures RegistriesOk(s')
  {}

  lemma NewRoomKeepsRegistries(s: State, id: string, pipe: nat, s': State)
    requires RegistriesOk(s) && id !in s.rooms && id in s.pipes && s.pipes[id] == pipe
    requires s'.pipes == s.pipes && s'.pipesBuilt == s.pipesBuilt
    requires s'.rooms == s.rooms[id := |s.roomsBuilt|] && s'.roomsBuilt == s.roomsBuilt + [Room(id, pipe)]
    ensures RegistriesOk(s')
  {}

  lemma SameRegistries(s: State, s': State)
    requires RegistriesOk(s)
    requires s'.rooms == s.rooms && s'.roomsBuilt == s.roomsBuilt && s'.pipes == s.pipes
        && s'.pipesBuilt == s.pipesBuilt
    ensures RegistriesOk(s')
  {}

  lemma StepKeepsRegistries(s: State, e: Event)
    requires CallersOk(s) && RegistriesOk(s) && Enabled(s, e)
    ensures RegistriesOk(Next(s, e))
  {
    assert PlaceOk(s, e.c);
    if e.Go? && s.callers[e.c].at.BuildPipe? && e.ok {
      NewPipeKeepsRegistries(s, s.callers[e.c].id, Next(s, e));
    } else if e.Go? && s.callers[e.c].at.BuildRoom? {
      NewRoomKeepsRegistries(s, s.callers[e.c].id, s.callers[e.c].at.pipe, Next(s, e));
    } else {
      SameRegistries(s, Next(s, e));
    }
  }

  // ----- runs --------------------------------------------------------------------------------------------

  ghost predicate Step(s: State, e: Event, s': State) {
    Enabled(s, e) && s' == Next(s, e)
  }

  ghost predicate Run(states: seq<State>, events: seq<Event>) {
    && |states| == |events| + 1
    && states[0] == START
    && forall i | 0 <= i < |events| :: Step(states[i], events[i], states[i + 1])
  }

  lemma {:induction false} RunKeeps(states: seq<State>, events: seq<Event>, i: nat)
    requires Run(states, events) && i < |states|
    ensures CallersOk(states[i]) && LocksOk(states[i]) && RegistriesOk(states[i])
  {
    if i > 0 {
      RunKeeps(states, events, i - 1);
      assert Step(states[i - 1], events[i - 1], states[i]);
      StepKeepsCallers(states[i - 1], events[i - 1]);
      StepKeepsRegistries(states[i - 1], events[i - 1]);
    }
  }

  /** In every interleaving each id has at most one room and one mixer constructed, and whenever
      a room is registered so is its mixer, the one the room was built on. */
  lemma BuiltAtMostOnce(states: seq<State>, events: seq<Event>, i: nat)
    requires Run(states, events) && i < |states|
    ensures var s := states[i];
            && (forall j, k | 0 <= j < k < |s.roomsBuilt| :: s.roomsBuilt[j].id != s.roomsBuilt[k].id)
            && (forall j, k | 0 <= j < k < |s.pipesBuilt| :: s.pipesBuilt[j] != s.pipesBuilt[k])
            && (forall id | id in s.rooms ::
                id in s.pipes && s.rooms[id] < |s.roomsBuilt| && s.roomsBuilt[s.rooms[id]] == Room(id, s.pipes[id]))
  {
    RunKeeps(states, events, i);
  }

  /** Two callers that get a room for the same id get the same room. */
  lemma SameRoomForAll(states: seq<State>, events: seq<Event>, i: nat, a: nat, b: nat)
    requires Run(states, events) && i < |states|
    requires a in states[i].callers && b in states[i].callers
    requires var x, y := states[i].callers[a], states[i].callers[b];
             && x.viaRoom == y.viaRoom && x.id == y.id
             && x.at.Returned? && x.at.result.Some? && y.at.Returned? && y.at.result.Some?
    ensures states[i].callers[a].at.result == states[i].callers[b].at.result
  {
    RunKeeps(states, events, i);
    assert PlaceOk(states[i], a) && PlaceOk(states[i], b);
  }

  /** Nobody is ever stuck behind a lock: while a lock is held, the caller that holds it, or one holding
      the inner lock, can go on. */
  lemma LockHolderCanGo(states: seq<State>, events: seq<Event>, i: nat)
    requires Run(states, events) && i < |states|
    requires states[i].roomLock.Some? || states[i].pipeLock.Some?
    ensures exists c: nat ::
        Enabled(states[i], Go(c, true)) && (states[i].roomLock == Some(c) || states[i].pipeLock == Some(c))
  {
    RunKeeps(states, events, i);
    var s := states[i];
    var c := if s.pipeLock.Some? then s.pipeLock.value else s.roomLock.value;
    assert PlaceOk(s, c);
    assert Enabled(s, Go(c, true));
  }

  // ----- what a caller is answered -------------------------------------------------------------------------

  /** The construction of the mixer that this caller asked for fails. */
  predicate Fails(s: State, e: Event, c: nat) {
    e == Go(c, false) && c in s.callers && s.callers[c].at.BuildPipe?
  }

  predicate Answered(s: State, c: nat, result: Option<nat>) {
    c in s.callers && s.callers[c].at == Returned(result)
  }

  lemma StepAnswersNone(s: State, e: Event, c: nat)
    requires Enabled(s, e)
    ensures Answered(Next(s, e), c, None) <==> Answered(s, c, None) || Fails(s, e, c)
  {
    if e.c != c {
      CallerStays(s, e, c);
    }
  }

  lemma CallerStays(s: State, e: Event, c: nat)
    requires Enabled(s, e) && e.c != c
    ensures c in Next(s, e).callers <==> c in s.callers
    ensures c in s.callers ==> Next(s, e).callers[c] == s.callers[c]
  {}

  /** The construction for caller c failed before moment i. */
  ghost predicate FailedBefore(states: seq<State>, events: seq<Event>, i: nat, c: nat)
    requires i <= |events| <= |states|
  {
    exists k :: 0 <= k < i && Fails(states[k], events[k], c)
  }

  lemma FailedOneLater(states: seq<State>, events: seq<Event>, i: nat, c: nat)
    requires 0 < i <= |events| <= |states|
    ensures FailedBefore(states, events, i, c) <==>
            FailedBefore(states, events, i - 1, c) || Fails(states[i - 1], events[i - 1], c)
  {
    if k :| 0 <= k < i && Fails(states[k], events[k], c) {
      assert k == i - 1 || k < i - 1;
    }
  }

  /** A caller is answered with a failure if and only if its own construction of a mixer failed. */
  lemma {:induction false} FailureIff(states: seq<State>, events: seq<Event>, i: nat, c: nat)
    requires Run(states, events) && i < |states|
    ensures Answered(states[i], c, None) <==> FailedBefore(states, events, i, c)
  {
    if i > 0 {
      FailureIff(states, events, i - 1, c);
      assert Step(states[i - 1], events[i - 1], states[i]);
      StepAnswersNone(states[i - 1], events[i - 1], c);
      FailedOneLater(states, events, i, c);
    }
  }

  /** Every other caller that has returned has what it asked for: the room, or the mixer, that is registered for
      its id and was constructed for it. */
  lemma OthersAreServed(states: seq<State>, events: seq<Event>, i: nat, c: nat)
    requires Run(states, events) && i < |states| && c in states[i].callers && states[i].callers[c].at.Returned?
    requires !FailedBefore(states, events, i, c)
    ensures var s, k := states[i], states[i].callers[c];
            && k.at.result.Some?
            && (k.viaRoom ==>
                  && k.id in s.rooms && s.rooms[k.id] == k.at.result.value < |s.roomsBuilt|
                  && s.roomsBuilt[k.at.result.value].id == k.id)
            && (!k.viaRoom ==>
                  && k.id in s.pipes && s.pipes[k.id] == k.at.result.value < |s.pipesBuilt|
                  && s.pipesBuilt[k.at.result.value] == k.id)
  {
    FailureIff(states, events, i, c);
    RunKeeps(states, events, i);
    assert PlaceOk(states[i], c);
  }

  /** What one step of caller c does with the registries' contents. */
  predicate UsesRegistries(s: State, c: nat, ok: bool, t: State) {
    && c in s.callers && c in t.callers
    && var id, at, after := s.callers[c].id, s.callers[c].at, t.callers[c].at;
       && ((at.ReadRoom? || at.RecheckRoom?) && id in s.rooms ==> after == Returned(Some(s.rooms[id])))
       && ((at.ReadPipe? || at.RecheckPipe?) && id in s.pipes ==> GivesPipe(s.callers[c], s.pipes[id], after))
       && (at.BuildRoom? ==> id in t.rooms && id !in s.rooms && after == Returned(Some(t.rooms[id])))
       && (at.BuildPipe? && ok ==> id in t.pipes && id !in s.pipes && GivesPipe(s.callers[c], t.pipes[id], after))
  }

  /** The mixer goes to the caller, or into the room that the caller is building. */
  predicate GivesPipe(k: Caller, pipe: nat, after: Place) {
    after == if k.viaRoom then BuildRoom(pipe) else Returned(Some(pipe))
  }

  lemma StepUsesRegistries(s: State, c: nat, ok: bool)
    requires Enabled(s, Go(c, ok)) && PlaceOk(s, c)
    ensures UsesRegistries(s, c, ok, Next(s, Go(c, ok)))
  {}

  /** A caller that finds its id registered when it looks is answered what is registered, at once; one that builds
      is answered what it has built and registered. */
  lemma LooksAndBuildsAnswer(states: seq<State>, events: seq<Event>, i: nat)
    requires Run(states, events) && i < |events| && events[i].Go?
    ensures UsesRegistries(states[i], events[i].c, events[i].ok, states[i + 1])
  {
    assert Step(states[i], events[i], states[i + 1]);
    RunKeeps(states, events, i);
    assert PlaceOk(states[i], events[i].c);
    StepUsesRegistries(states[i], events[i].c, events[i].ok);
  }
}
