/** Which media worker serves a conference: heartbeats and bindings that expire in a shared store, and a
    dispatcher that keeps a room where it is for as long as it can. Times are milliseconds; every call reads
    the clock once and is one step of the store. */
module Dispatch {
  import opened Text

  datatype Worker = Worker(id: string, addr: string, cpu: real, rooms: int, lastSeen: int, version: string)

  datatype Heard = Heard(worker: Worker, until: int)
  datatype Binding = Binding(worker: string, until: int)

  /** The keys of the store with the times at which they expire. */
  datatype View = View(workers: map<string, Heard>, rooms: map<string, Binding>)

  predicate Live(v: View, id: string, now: int) {
    id in v.workers && now < v.workers[id].until
  }

  predicate Bound(v: View, room: string, now: int) {
    room in v.rooms && now < v.rooms[room].until
  }

  /** The worker a room is bound to, or "". */
  function Resolved(v: View, room: string, now: int): string {
    if Bound(v, room, now) then v.rooms[room].worker else ""
  }

  /** The room is not bound to a live worker; the id "" reads like no binding. */
  predicate Unplaced(v: View, room: string, now: int) {
    Resolved(v, room, now) == "" || !Live(v, Resolved(v, room, now), now)
  }

  /** ws lists the live workers, each once, in some order. */
  ghost predicate ListsLive(ws: seq<Worker>, v: View, now: int) {
    && (forall i | 0 <= i < |ws| ::
          ws[i].id in v.workers && now < v.workers[ws[i].id].until && ws[i] == v.workers[ws[i].id].worker)
    && (forall id {:trigger Live(v, id, now)} | Live(v, id, now) :: exists i :: 0 <= i < |ws| && ws[i].id == id)
    && (forall i, j | 0 <= i < j < |ws| :: ws[i].id != ws[j].id)
  }

  /** A worker is stored under its own id. */
  ghost predicate WellKeyed(v: View) {
    forall id | id in v.workers :: v.workers[id].worker.id == id
  }

  const WORKER_TTL := 30_000
  const BINDING_TTL := 86_400_000

  class Registry {
    var workers: map<string, Heard>
    var rooms: map<string, Binding>
    const ttl: int

    constructor (ttl: int)
      ensures Store() == View(map[], map[]) && this.ttl == if ttl == 0 then 30_000 else ttl
    {
      workers, rooms := map[], map[];
      this.ttl := if ttl == 0 then WORKER_TTL else ttl;
    }

    function Store(): View
      reads this
    {
      View(workers, rooms)
    }

    method Heartbeat(w: Worker, now: int)
      modifies this`workers
      ensures Store() == WithBeat(old(Store()), w, now, ttl)
    {
      workers := workers[w.id := Heard(w.(lastSeen := now), now + ttl)];
    }

    method List(now: int) returns (out: seq<Worker>)
      requires WellKeyed(Store())
      ensures ListsLive(out, Store(), now)
    {
      out := [];
      var keys := workers.Keys;
      while keys != {}
        invariant keys <= workers.Keys
        invariant forall i | 0 <= i < |out| ::
                    out[i].id in workers && now < workers[out[i].id].until && out[i].id !in keys
                        && out[i] == workers[out[i].id].worker
        invariant forall id {:trigger Live(Store(), id, now)} | Live(Store(), id, now) && id !in keys ::
                    exists i :: 0 <= i < |out| && out[i].id == id
        invariant forall i, j | 0 <= i < j < |out| :: out[i].id != out[j].id
        decreases keys
      {
        var k :| k in keys;
        ghost var before, left := out, keys;
        keys := keys - {k};
        if now < workers[k].until {
          out := out + [workers[k].worker];
          assert out[|before|].id == k;
        }
        forall id | Live(Store(), id, now) && id !in keys ensures exists i :: 0 <= i < |out| && out[i].id == id {
          if id != k {
            var i :| 0 <= i < |before| && before[i].id == id;
            assert out[i].id == id;
          }
        }
      }
    }

    method Bind(room: string, worker: string, now: int, ttl: int)
      modifies this`rooms
      ensures Store() == WithBinding(old(Store()), room, worker, now + ttl)
    {
      rooms := rooms[room := Binding(worker, now + ttl)];
    }

    method Resolve(room: string, now: int) returns (id: string)
      ensures id == Resolved(Store(), room, now)
    {
      if room in rooms && now < rooms[room].until {
        return rooms[room].worker;
      }
      return "";
    }
  }

  /** The store after a heartbeat. */
  function WithBeat(v: View, w: Worker, now: int, ttl: int): View {
    v.(workers := v.workers[w.id := Heard(w.(lastSeen := now), now + ttl)])
  }

  function WithBinding(v: View, room: string, worker: string, until: int): View {
    v.(rooms := v.rooms[room := Binding(worker, until)])
  }

  /** A heartbeat keeps its worker live for exactly the lifetime and nobody else alive. */
  lemma HeartbeatIsHeard(v: View, w: Worker, now: int, ttl: int, id: string, later: int)
    ensures Live(WithBeat(v, w, now, ttl), id, later) <==> if id == w.id then later < now + ttl else Live(v, id, later)
    ensures WellKeyed(v) ==> WellKeyed(WithBeat(v, w, now, ttl))
  {}

  /** A binding is what the room resolves to until it expires; other rooms resolve as before. */
  lemma BindingIsResolved(v: View, room: string, worker: string, until: int, other: string, later: int)
    ensures Resolved(WithBinding(v, room, worker, until), other, later) ==
            if other != room then Resolved(v, other, later) else if later < until then worker else ""
  {}

  // ----- picking -----------------------------------------------------------------------------------

  /** FNV-1a, 32 bits. */
  function Fnv(s: string): bv32 {
    if s == "" then 2166136261
    else (Fnv(s[..|s| - 1]) ^ ((s[|s| - 1] as int % 256) as bv32)) * 16777619
  }

  /** The published value of FNV-1a for the one-byte string "a". */
  lemma FnvOfA()
    ensures Fnv("") == 0x811C9DC5 && Fnv("a") == 0xE40C292C
  {
    var s := "a";
    assert s[..0] == "" && Fnv("") == 2166136261;
    assert s[0] as int % 256 == 97;
    assert (2166136261 as bv32) ^ (97 as bv32) == 2166136228;
  }

  function HashIndex(s: string, n: nat): (i: nat)
    ensures n > 0 ==> i < n
  {
    if n == 0 then 0 else Fnv(s) as int % n
  }

  predicate LighterOrEqual(a: Worker, b: Worker) {
    a.cpu < b.cpu || (a.cpu == b.cpu && a.rooms <= b.rooms)
  }

  ghost predicate SortedByLoad(ws: seq<Worker>) {
    forall i, j | 0 <= i < j < |ws| :: LighterOrEqual(ws[i], ws[j])
  }

  /** By CPU, and by rooms where the CPU is the same. */
  lemma SortedMeans(ws: seq<Worker>)
    ensures SortedByLoad(ws) <==> forall i, j | 0 <= i < j < |ws| ::
              ws[i].cpu < ws[j].cpu || (ws[i].cpu == ws[j].cpu && ws[i].rooms <= ws[j].rooms)
  {}

  /** The worker that the hash of the room picks among the live ones sorted by load. Workers of equal load
      may stand in any order. */
  ghost predicate MayChoose(v: View, room: string, now: int, w: Worker) {
    exists ws: seq<Worker> :: ListsLive(ws, v, now) && SortedByLoad(ws) && |ws| > 0 && ws[HashIndex(room, |ws|)] == w
  }

  /** One Pick: what it may answer and what it does to the store. */
  ghost predicate PickStep(v: View, ttl: int, room: string, now: int, v': View, answer: Option<Worker>) {
    var id := Resolved(v, room, now);
    if id != "" && Live(v, id, now) then
      v' == v && answer == Some(v.workers[id].worker)
    else if forall x :: !Live(v, x, now) then
      v' == v && answer == None
    else
      && answer.Some? && MayChoose(v, room, now, answer.value)
      && v' == WithBinding(v, room, answer.value.id, now + ttl)
  }

  class Dispatcher {
    const reg: Registry
    const ttl: int

    constructor (reg: Registry, ttl: int)
      ensures this.reg == reg && this.ttl == if ttl == 0 then 24 * 60 * 60 * 1000 else ttl
    {
      this.reg := reg;
      this.ttl := if ttl == 0 then BINDING_TTL else ttl;
    }

    method Pick(room: string, now: int) returns (answer: Option<Worker>)
      requires WellKeyed(reg.Store())
      modifies reg`rooms
      ensures PickStep(old(reg.Store()), ttl, room, now, reg.Store(), answer)
    {
      ghost var v := reg.Store();
      var id := reg.Resolve(room, now);
      if id != "" {
        var workers := reg.List(now);
        answer := WithID(workers, id, v, now);
        if answer.Some? {
          return;
        }
      }
      assert reg.Store() == v && Unplaced(v, room, now);
      answer := Place(room, now);
    }

    /** Without a live worker bound to the room: choose one and bind the room to it. */
    method Place(room: string, now: int) returns (answer: Option<Worker>)
      requires WellKeyed(reg.Store()) && Unplaced(reg.Store(), room, now)
      modifies reg`rooms
      ensures PickStep(old(reg.Store()), ttl, room, now, reg.Store(), answer)
    {
      ghost var v := reg.Store();
      answer := Choose(room, now);
      assert reg.Store() == v;
      if answer.None? {
        NoneIsPick(v, ttl, room, now);
        return;
      }
      BindTo(room, answer.value, now);
    }

    method BindTo(room: string, w: Worker, now: int)
      requires Unplaced(reg.Store(), room, now)
      requires MayChoose(reg.Store(), room, now, w) && Live(reg.Store(), w.id, now)
      modifies reg`rooms
      ensures PickStep(old(reg.Store()), ttl, room, now, reg.Store(), Some(w))
    {
      ghost var v := reg.Store();
      reg.Bind(room, w.id, now, ttl);
      BindingIsPick(v, ttl, room, now, w, reg.Store());
    }

    /** The hash of the room picks among the live workers, sorted by load. */
    method Choose(room: string, now: int) returns (answer: Option<Worker>)
      requires WellKeyed(reg.Store())
      ensures answer == None <==> forall id :: !Live(reg.Store(), id, now)
      ensures answer.Some? ==>
          MayChoose(reg.Store(), room, now, answer.value) && Live(reg.Store(), answer.value.id, now)
    {
      ghost var v := reg.Store();
      var workers := reg.List(now);
      if |workers| == 0 {
        return None;
      }
      workers := SortByLoad(workers, v, now);
      answer := Some(workers[HashIndex(room, |workers|)]);
      assert reg.Store() == v && Live(v, answer.value.id, now);
    }
  }

  /** A choice made without a live binding is what Pick does. */
  lemma ChoiceIsPick(v: View, ttl: int, room: string, now: int, w: Worker)
    requires Unplaced(v, room, now)
    requires MayChoose(v, room, now, w) && Live(v, w.id, now)
    ensures PickStep(v, ttl, room, now, WithBinding(v, room, w.id, now + ttl), Some(w))
  {}

  lemma BindingIsPick(v: View, ttl: int, room: string, now: int, w: Worker, v': View)
    requires Unplaced(v, room, now) && MayChoose(v, room, now, w) && Live(v, w.id, now)
    requires v' == WithBinding(v, room, w.id, now + ttl)
    ensures PickStep(v, ttl, room, now, v', Some(w))
  {
    ChoiceIsPick(v, ttl, room, now, w);
  }

  lemma NoneIsPick(v: View, ttl: int, room: string, now: int)
    requires forall id :: !Live(v, id, now)
    ensures PickStep(v, ttl, room, now, v, None)
  {}

  method WithID(ws: seq<Worker>, id: string, ghost v: View, ghost now: int) returns (answer: Option<Worker>)
    requires ListsLive(ws, v, now)
    ensures answer == if Live(v, id, now) then Some(v.workers[id].worker) else None
  {
    for i := 0 to |ws|
      invariant forall k | 0 <= k < i :: ws[k].id != id
    {
      if ws[i].id == id {
        return Some(ws[i]);
      }
    }
    return None;
  }

  /** Insertion sort. */
  method SortByLoad(ws: seq<Worker>, ghost v: View, ghost now: int) returns (out: seq<Worker>)
    requires ListsLive(ws, v, now)
    ensures |out| == |ws| && SortedByLoad(out) && ListsLive(out, v, now)
  {
    out := [];
    for i := 0 to |ws|
      invariant |out| == i && SortedByLoad(out) && multiset(out) == multiset(ws[..i])
    {
      assert ws[..i + 1] == ws[..i] + [ws[i]];
      InsertKeepsSorted(ws[i], out);
      out := InsertByLoad(ws[i], out);
    }
    assert ws[..|ws|] == ws;
    PermutationLists(ws, out, v, now);
  }

  function InsertByLoad(w: Worker, ws: seq<Worker>): (r: seq<Worker>)
    ensures multiset(r) == multiset(ws) + multiset{w} && |r| == |ws| + 1
  {
    if ws == [] then [w]
    else
      assert ws == [ws[0]] + ws[1..];
      if LighterOrEqual(w, ws[0]) then [w] + ws else [ws[0]] + InsertByLoad(w, ws[1..])
  }

  lemma {:induction false} InsertKeepsSorted(w: Worker, ws: seq<Worker>)
    requires SortedByLoad(ws)
    ensures SortedByLoad(InsertByLoad(w, ws))
  {
    if ws != [] && !LighterOrEqual(w, ws[0]) {
      InsertKeepsSorted(w, ws[1..]);
      var rest := InsertByLoad(w, ws[1..]);
      forall k | 0 <= k < |rest| ensures LighterOrEqual(ws[0], rest[k]) {
        assert rest[k] in multiset(rest);
        assert rest[k] == w || rest[k] in ws[1..];
      }
    }
  }

  lemma PermutationLists(a: seq<Worker>, b: seq<Worker>, v: View, now: int)
    requires ListsLive(a, v, now) && multiset(a) == multiset(b)
    ensures ListsLive(b, v, now)
  {
    forall i | 0 <= i < |b|
      ensures b[i].id in v.workers && now < v.workers[b[i].id].until && b[i] == v.workers[b[i].id].worker
    {
      assert b[i] in multiset(a);
    }
    forall id | Live(v, id, now) ensures exists i :: 0 <= i < |b| && b[i].id == id {
      var i :| 0 <= i < |a| && a[i].id == id;
      assert a[i] in multiset(b);
    }
    forall i, j | 0 <= i < j < |b| ensures b[i].id != b[j].id {
      if b[i].id == b[j].id {
        assert b[i] == b[j];
        TwiceInBoth(a, b, i, j);
      }
    }
  }

  lemma TwiceInBoth(a: seq<Worker>, b: seq<Worker>, i: nat, j: nat)
    requires multiset(a) == multiset(b) && i < j < |b| && b[i] == b[j]
    ensures exists k, l :: 0 <= k < l < |a| && a[k] == a[l]
  {
    assert b == b[..j] + [b[j]] + b[j + 1..];
    assert b[..j][i] == b[i];
    assert multiset(a)[b[i]] >= 2;
    var k :| 0 <= k < |a| && a[k] == b[i];
    assert a == a[..k] + [a[k]] + a[k + 1..];
    assert b[i] in multiset(a[..k]) + multiset(a[k + 1..]);
    if b[i] in a[..k] {
      var l :| 0 <= l < k && a[..k][l] == b[i];
      assert a[l] == a[k];
    } else {
      var l :| 0 <= l < |a[k + 1..]| && a[k + 1..][l] == b[i];
      assert a[k + 1 + l] == a[k];
    }
  }

  // ----- the choice by load -------------------------------------------------------------------------

  function LiveIDs(v: View, now: int): set<string> {
    set id | id in v.workers && now < v.workers[id].until
  }

  /** Strictly less CPU, or the same and fewer rooms. */
  predicate Lighter(a: Worker, b: Worker) {
    a.cpu < b.cpu || (a.cpu == b.cpu && a.rooms < b.rooms)
  }

  function LighterIDs(v: View, now: int, w: Worker): set<string> {
    set id | id in LiveIDs(v, now) && Lighter(v.workers[id].worker, w)
  }

  ghost predicate DistinctLoads(v: View, now: int) {
    forall a, b | a in LiveIDs(v, now) && b in LiveIDs(v, now) && a != b ::
      Lighter(v.workers[a].worker, v.workers[b].worker) || Lighter(v.workers[b].worker, v.workers[a].worker)
  }

  function IDs(ws: seq<Worker>): set<string> {
    set i | 0 <= i < |ws| :: ws[i].id
  }

  lemma {:induction false} CountIDs(ws: seq<Worker>)
    requires forall i, j | 0 <= i < j < |ws| :: ws[i].id != ws[j].id
    ensures |IDs(ws)| == |ws|
  {
    if ws != [] {
      var init, last := ws[..|ws| - 1], ws[|ws| - 1];
      CountIDs(init);
      assert IDs(ws) == IDs(init) + {last.id};
      assert last.id !in IDs(init);
    }
  }

  /** When no two live workers have the same load, the choice is the live worker with as many lighter ones as the hash
      of the room, modulo the number of live workers, says. */
  lemma ChoiceByLoad(v: View, room: string, now: int, w: Worker)
    requires MayChoose(v, room, now, w) && DistinctLoads(v, now)
    ensures |LiveIDs(v, now)| > 0
    ensures |LighterIDs(v, now, w)| == Fnv(room) as int % |LiveIDs(v, now)|
  {
    var ws: seq<Worker> :| ListsLive(ws, v, now) && SortedByLoad(ws) && |ws| > 0 && ws[HashIndex(room, |ws|)] == w;
    ListedIDs(ws, v, now);
    CountIDs(ws);
    var k := HashIndex(room, |ws|);
    LighterAreBefore(ws, v, now, k);
    CountIDs(ws[..k]);
  }

  lemma ListedIDs(ws: seq<Worker>, v: View, now: int)
    requires ListsLive(ws, v, now)
    ensures IDs(ws) == LiveIDs(v, now)
  {
    forall id | id in LiveIDs(v, now) ensures id in IDs(ws) {
      assert Live(v, id, now);
    }
  }

  lemma LighterAreBefore(ws: seq<Worker>, v: View, now: int, k: nat)
    requires ListsLive(ws, v, now) && SortedByLoad(ws) && DistinctLoads(v, now) && k < |ws|
    ensures LighterIDs(v, now, ws[k]) == IDs(ws[..k])
  {
    ListedIDs(ws, v, now);
    forall i | 0 <= i < |ws| ensures Lighter(ws[i], ws[k]) <==> i < k {
      assert ws[i].id in LiveIDs(v, now) && ws[k].id in LiveIDs(v, now);
      if i < k { assert LighterOrEqual(ws[i], ws[k]); }
      if i > k { assert LighterOrEqual(ws[k], ws[i]); }
    }
    forall id | id in LighterIDs(v, now, ws[k]) ensures id in IDs(ws[..k]) {
      var i :| 0 <= i < |ws| && ws[i].id == id;
      assert ws[..k][i].id == id;
    }
    forall id | id in IDs(ws[..k]) ensures id in LighterIDs(v, now, ws[k]) {
      var i :| 0 <= i < k && ws[..k][i].id == id;
      assert ws[i].id == id;
    }
  }

  // ----- whole runs ---------------------------------------------------------------------------------

  datatype Event = Beat(w: Worker, now: int) | Picked(room: string, now: int, answer: Option<Worker>)

  datatype Times = Times(worker: int, binding: int)

  ghost predicate Step(ttl: Times, v: View, e: Event, v': View) {
    match e
    case Beat(w, now) => v' == WithBeat(v, w, now, ttl.worker)
    case Picked(room, now, answer) => PickStep(v, ttl.binding, room, now, v', answer)
  }

  /** Heartbeats with any loads and picks of any rooms, at any times; what expires does so between them. */
  ghost predicate Run(ttl: Times, states: seq<View>, events: seq<Event>) {
    && |states| == |events| + 1
    && states[0] == View(map[], map[])
    && (forall i | 0 <= i < |events| :: Step(ttl, states[i], events[i], states[i + 1]))
    && (forall i, j | 0 <= i <= j < |events| :: events[i].now <= events[j].now)
  }

  lemma {:induction false} RunIsWellKeyed(ttl: Times, states: seq<View>, events: seq<Event>, i: nat)
    requires Run(ttl, states, events) && i < |states|
    ensures WellKeyed(states[i])
  {
    for k := 0 to i
      invariant WellKeyed(states[k])
    {
      StepKeepsKeys(ttl, states[k], events[k], states[k + 1]);
    }
  }

  lemma StepKeepsKeys(ttl: Times, v: View, e: Event, v': View)
    requires Step(ttl, v, e, v') && WellKeyed(v)
    ensures WellKeyed(v')
  {}

  /** Every answer is a live worker, and the room is bound to it afterwards; there is none only when
      no worker is live. So a room whose worker has gone is bound to a live one at once. */
  lemma AnswersAreLive(ttl: Times, states: seq<View>, events: seq<Event>, i: nat)
    requires Run(ttl, states, events) && i < |events| && events[i].Picked?
    ensures var e := events[i];
            && (e.answer.Some? ==>
                  && Live(states[i], e.answer.value.id, e.now)
                  && e.answer.value == states[i].workers[e.answer.value.id].worker
                  && e.room in states[i + 1].rooms && states[i + 1].rooms[e.room].worker == e.answer.value.id)
            && (e.answer.None? <==> forall id :: !Live(states[i], id, e.now))
  {
    RunIsWellKeyed(ttl, states, events, i);
    assert Step(ttl, states[i], events[i], states[i + 1]);
  }

  /** The last of these events that is a heartbeat of id, or -1. */
  function LastBeat(events: seq<Event>, id: string): (k: int)
    ensures -1 <= k < |events|
    ensures k >= 0 ==> events[k].Beat? && events[k].w.id == id
    ensures forall m | k < m < |events| :: !(events[m].Beat? && events[m].w.id == id)
  {
    if events == [] then -1
    else
      var last := events[|events| - 1];
      if last.Beat? && last.w.id == id then |events| - 1 else LastBeat(events[..|events| - 1], id)
  }

  /** A worker is live if and only if its last heartbeat is less than the lifetime ago, and what is known of it is what
      it said then. */
  lemma LiveIsHeard(ttl: Times, states: seq<View>, events: seq<Event>, i: nat, id: string, now: int)
    requires Run(ttl, states, events) && i < |states|
    ensures var k := LastBeat(events[..i], id);
            && (Live(states[i], id, now) <==> k >= 0 && now < events[k].now + ttl.worker)
            && (k >= 0 ==> id in states[i].workers)
            && (k >= 0 ==> states[i].workers[id].worker == events[k].w.(lastSeen := events[k].now))
  {
    for m := 0 to i
      invariant HeardAsOf(ttl, states, events, m, id)
    {
      assert Step(ttl, states[m], events[m], states[m + 1]);
      HeardOneLater(ttl, states, events, m, id);
    }
  }

  /** What the store knows of the worker is its last heartbeat. */
  ghost predicate HeardAsOf(ttl: Times, states: seq<View>, events: seq<Event>, i: nat, id: string)
    requires i <= |events| && |states| == |events| + 1
  {
    var k := LastBeat(events[..i], id);
    if k < 0 then id !in states[i].workers
    else
      && id in states[i].workers
      && states[i].workers[id] == Heard(events[k].w.(lastSeen := events[k].now), events[k].now + ttl.worker)
  }

  lemma HeardOneLater(ttl: Times, states: seq<View>, events: seq<Event>, i: nat, id: string)
    requires i < |events| && |states| == |events| + 1 && Step(ttl, states[i], events[i], states[i + 1])
    requires HeardAsOf(ttl, states, events, i, id)
    ensures HeardAsOf(ttl, states, events, i + 1, id)
  {
    assert events[..i + 1][..i] == events[..i];
    WorkersChange(ttl, states[i], events[i], states[i + 1]);
  }

  lemma WorkersChange(ttl: Times, v: View, e: Event, v': View)
    requires Step(ttl, v, e, v')
    ensures e.Beat? ==> v'.workers == v.workers[e.w.id := Heard(e.w.(lastSeen := e.now), e.now + ttl.worker)]
    ensures !e.Beat? ==> v'.workers == v.workers
  {}

  /** A pick leaves the room with the binding it had, still running and to a live worker, or with one that runs for
      the binding's full lifetime from now. */
  lemma PickRenewsOrKeeps(ttl: Times, states: seq<View>, events: seq<Event>, i: nat)
    requires Run(ttl, states, events) && i < |events| && events[i].Picked? && events[i].answer.Some?
    ensures var e, v, v' := events[i], states[i], states[i + 1];
            && e.room in v'.rooms
            && (!Unplaced(v, e.room, e.now) ==> v' == v)
            && (Unplaced(v, e.room, e.now) ==> v'.rooms[e.room] == Binding(e.answer.value.id, e.now + ttl.binding))
            && (forall room | room != e.room && room in v.rooms :: room in v'.rooms && v'.rooms[room] == v.rooms[room])
  {
    assert Step(ttl, states[i], events[i], states[i + 1]);
  }

  /** From pick i on, as long as the worker is live at each pick of the room and the binding has not expired,
      the binding stays as it is. */
  lemma {:induction false} BindingStays(ttl: Times, states: seq<View>, events: seq<Event>, i: nat, j: nat)
    requires Run(ttl, states, events) && i < j < |states|
    requires events[i].Picked? && events[i].answer.Some? && events[i].answer.value.id != ""
    requires var room, id := events[i].room, events[i].answer.value.id;
             forall k | i < k < j && events[k].Picked? && events[k].room == room ::
               Live(states[k], id, events[k].now) && Bound(states[i + 1], room, events[k].now)
    ensures events[i].room in states[j].rooms && events[i].room in states[i + 1].rooms
    ensures states[j].rooms[events[i].room] == states[i + 1].rooms[events[i].room]
    ensures states[j].rooms[events[i].room].worker == events[i].answer.value.id
    decreases j
  {
    if j == i + 1 {
      AnswersAreLive(ttl, states, events, i);
    } else {
      BindingStays(ttl, states, events, i, j - 1);
      RunKeepsBinding(ttl, states, events, j - 1, events[i].room, events[i].answer.value.id);
    }
  }

  lemma RunKeepsBinding(ttl: Times, states: seq<View>, events: seq<Event>, k: nat, room: string, id: string)
    requires Run(ttl, states, events) && k < |events| && id != ""
    requires room in states[k].rooms && states[k].rooms[room].worker == id
    requires events[k].Picked? && events[k].room == room ==>
        Live(states[k], id, events[k].now) && Bound(states[k], room, events[k].now)
    ensures room in states[k + 1].rooms && states[k + 1].rooms[room] == states[k].rooms[room]
  {
    assert Step(ttl, states[k], events[k], states[k + 1]);
    StepKeepsBinding(ttl, states[k], events[k], states[k + 1], room, id);
  }

  lemma StepKeepsBinding(ttl: Times, v: View, e: Event, v': View, room: string, id: string)
    requires Step(ttl, v, e, v') && id != "" && room in v.rooms && v.rooms[room].worker == id
    requires e.Picked? && e.room == room ==> Live(v, id, e.now) && Bound(v, room, e.now)
    ensures room in v'.rooms && v'.rooms[room] == v.rooms[room]
  {}

  /** Once a pick has answered worker w, every later pick of the room answers w too, until w is not live at
      such a pick or the binding has expired. */
  lemma PickIsSticky(ttl: Times, states: seq<View>, events: seq<Event>, i: nat, j: nat)
    requires Run(ttl, states, events) && i < j < |events|
    requires events[i].Picked? && events[i].answer.Some? && events[i].answer.value.id != ""
    requires events[j].Picked? && events[j].room == events[i].room
    requires var room, id := events[i].room, events[i].answer.value.id;
             forall k | i < k <= j && events[k].Picked? && events[k].room == room ::
               Live(states[k], id, events[k].now) && Bound(states[i + 1], room, events[k].now)
    ensures events[j].answer.Some? && events[j].answer.value.id == events[i].answer.value.id
  {
    BindingStays(ttl, states, events, i, j);
    RunIsWellKeyed(ttl, states, events, j);
    assert Step(ttl, states[j], events[j], states[j + 1]);
  }

  lemma MayChooseOfTwo(v: View, room: string, a: Worker, b: Worker)
    requires v.workers.Keys == {a.id, b.id} && a.id != b.id && a.cpu < b.cpu
    requires Live(v, a.id, 0) && Live(v, b.id, 0) && v.workers[a.id].worker == a && v.workers[b.id].worker == b
    ensures MayChoose(v, room, 0, if HashIndex(room, 2) == 0 then a else b)
  {
    var ws := [a, b];
    forall id | Live(v, id, 0) ensures exists i :: 0 <= i < |ws| && ws[i].id == id {
      assert ws[if id == a.id then 0 else 1].id == id;
    }
    assert ListsLive(ws, v, 0) && SortedByLoad(ws);
  }

  /** With two live workers the loads decide which one the room's hash picks. */
  lemma LoadsDecide(v: View, room: string, x: Worker, b: Worker, until: int)
    requires x.id == "" && b.id == "b" && x.cpu != b.cpu && until > 0
    requires v.workers == map["" := Heard(x, until), "b" := Heard(b, until)]
    ensures Live(v, "", 0) && Live(v, "b", 0)
    ensures MayChoose(v, room, 0, if (HashIndex(room, 2) == 0) == (x.cpu < b.cpu) then x else b)
  {
    assert v.workers.Keys == {"", "b"};
    if x.cpu < b.cpu { MayChooseOfTwo(v, room, x, b); } else { MayChooseOfTwo(v, room, b, x); }
  }

  /** The id "" reads like no binding at all: a room picked for a worker of that name moves as soon as the
      loads change, with both workers live and the binding fresh. */
  lemma EmptyIdIsNotSticky(ttl: Times, room: string) returns (states: seq<View>, events: seq<Event>)
    requires ttl.worker > 0 && ttl.binding > 0
    ensures Run(ttl, states, events) && |events| == 5
    ensures events[2].Picked? && events[2].room == room && events[2].answer.Some? && events[2].answer.value.id == ""
    ensures events[4].Picked? && events[4].room == room && events[4].answer.Some? && events[4].answer.value.id != ""
    ensures Live(states[4], "", events[4].now) && Bound(states[3], room, events[4].now)
  {
    var low := HashIndex(room, 2) == 0;
    var b := Worker("b", "", 1.0, 0, 0, "");
    var x := Worker("", "", if low then 0.0 else 2.0, 0, 0, "");
    var y := Worker("", "", if low then 2.0 else 0.0, 0, 0, "");
    var before := map["" := Heard(x, ttl.worker), "b" := Heard(b, ttl.worker)];
    var after := map["" := Heard(y, ttl.worker), "b" := Heard(b, ttl.worker)];
    var bound := map[room := Binding("", ttl.binding)];
    LoadsDecide(View(before, map[]), room, x, b, ttl.worker);
    LoadsDecide(View(after, bound), room, y, b, ttl.worker);
    states, events := MovingRun(ttl, room, x, y, b, before, after, bound);
  }

  /** The first half: both workers are heard of, and the room is bound to the first. */
  lemma BindingRun(ttl: Times, room: string, x: Worker, b: Worker,
                   before: map<string, Heard>, bound: map<string, Binding>)
    returns (states: seq<View>, events: seq<Event>)
    requires x.id == "" && b.id == "b" && x.lastSeen == 0 && b.lastSeen == 0
    requires before == map["" := Heard(x, ttl.worker), "b" := Heard(b, ttl.worker)]
    requires bound == map[room := Binding("", ttl.binding)]
    requires MayChoose(View(before, map[]), room, 0, x) && Live(View(before, map[]), "", 0)
    ensures Run(ttl, states, events) && |events| == 3
    ensures events[2] == Picked(room, 0, Some(x)) && states[3] == View(before, bound)
  {
    var s0, s1, s2 := View(map[], map[]), View(map["" := Heard(x, ttl.worker)], map[]), View(before, map[]);
    BeatStep(ttl, s0, x, s1);
    BeatStep(ttl, s1, b, s2);
    ChoiceIsPick(s2, ttl.binding, room, 0, x);
    PickedStep(ttl, s2, room, x, View(before, bound));
    states, events := Extended(ttl, [s0], [], Beat(x, 0), s1);
    states, events := Extended(ttl, states, events, Beat(b, 0), s2);
    states, events := Extended(ttl, states, events, Picked(room, 0, Some(x)), View(before, bound));
  }

  /** The second half: a heartbeat with another load, and the room moves. */
  lemma MovingRun(ttl: Times, room: string, x: Worker, y: Worker, b: Worker,
                  before: map<string, Heard>, after: map<string, Heard>, bound: map<string, Binding>)
    returns (states: seq<View>, events: seq<Event>)
    requires ttl.binding > 0
    requires x.id == "" && y.id == "" && b.id == "b" && x.lastSeen == 0 && y.lastSeen == 0 && b.lastSeen == 0
    requires before == map["" := Heard(x, ttl.worker), "b" := Heard(b, ttl.worker)]
    requires after == before["" := Heard(y, ttl.worker)]
    requires bound == map[room := Binding("", ttl.binding)]
    requires MayChoose(View(before, map[]), room, 0, x) && Live(View(before, map[]), "", 0)
    requires MayChoose(View(after, bound), room, 0, b)
    requires Live(View(after, bound), "b", 0) && Live(View(after, bound), "", 0)
    ensures Run(ttl, states, events) && |events| == 5
    ensures events[2] == Picked(room, 0, Some(x)) && events[4] == Picked(room, 0, Some(b))
    ensures Live(states[4], "", 0) && Bound(states[3], room, 0)
  {
    var s4, s5 := View(after, bound), View(after, map[room := Binding("b", ttl.binding)]);
    BeatStep(ttl, View(before, bound), y, s4);
    ChoiceIsPick(s4, ttl.binding, room, 0, b);
    PickedStep(ttl, s4, room, b, s5);
    states, events := BindingRun(ttl, room, x, b, before, bound);
    states, events := Extended(ttl, states, events, Beat(y, 0), s4);
    states, events := Extended(ttl, states, events, Picked(room, 0, Some(b)), s5);
  }

  lemma BeatStep(ttl: Times, v: View, w: Worker, v': View)
    requires w.lastSeen == 0 && v' == v.(workers := v.workers[w.id := Heard(w, ttl.worker)])
    ensures Step(ttl, v, Beat(w, 0), v')
  {}

  lemma PickedStep(ttl: Times, v: View, room: string, w: Worker, v': View)
    requires v' == WithBinding(v, room, w.id, 0 + ttl.binding)
    requires PickStep(v, ttl.binding, room, 0, v', Some(w))
    ensures Step(ttl, v, Picked(room, 0, Some(w)), v')
  {}

  lemma Extended(ttl: Times, states: seq<View>, events: seq<Event>, e: Event, v: View)
    returns (states': seq<View>, events': seq<Event>)
    requires Run(ttl, states, events) && Step(ttl, states[|events|], e, v) && (events != []
        ==> events[|events| - 1].now <= e.now)
    ensures Run(ttl, states', events') && |events'| == |events| + 1 && states'[..|states|] == states
    ensures states'[|events'|] == v && events'[..|events|] == events && events'[|events|] == e
  {
    states', events' := states + [v], events + [e];
    forall i | 0 <= i < |events'| ensures Step(ttl, states'[i], events'[i], states'[i + 1]) {
      if i < |events| { assert Step(ttl, states[i], events[i], states[i + 1]); }
    }
    if events != [] {
      assert forall i | 0 <= i < |events| :: events[i].now <= events[|events| - 1].now;
    }
  }
}
