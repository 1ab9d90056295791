/** The slot table of a conference: which participant's sound goes out on which audio track. */
module SlotTable {

  const SLOTS := 20

  const FREE := ["", "", "", "", "", "", "", "", "", "",
                 "", "", "", "", "", "", "", "", "", ""]

  type Table = t: seq<string> | |t| == SLOTS witness FREE

  /** No id holds two slots. */
  ghost predicate Injective(t: Table) {
    forall i, j | 0 <= i < j < SLOTS && t[i] != "" :: t[i] != t[j]
  }

  ghost predicate Holds(t: Table, id: string) {
    exists i :: 0 <= i < SLOTS && t[i] == id
  }

  function FirstFrom(t: Table, id: string, i: nat): (r: int)
    requires i <= SLOTS
    ensures r == -1 || i <= r < SLOTS
    ensures r >= 0 ==> t[r] == id && forall k | i <= k < r :: t[k] != id
    ensures r < 0 ==> forall k | i <= k < SLOTS :: t[k] != id
    decreases SLOTS - i
  {
    if i == SLOTS then -1 else if t[i] == id then i else FirstFrom(t, id, i + 1)
  }

  /** The slot of id, or -1. */
  function SlotOf(t: Table, id: string): int {
    FirstFrom(t, id, 0)
  }

  /** A new participant takes the first free slot, if there is one. */
  function Seat(t: Table, id: string): Table {
    var i := SlotOf(t, "");
    if i < 0 then t else t[i := id]
  }

  function Vacate(t: Table, id: string): Table {
    seq(SLOTS, i requires 0 <= i < SLOTS => if t[i] == id then "" else t[i])
  }

  /** The occupied slots. */
  function Roster(t: Table): map<int, string> {
    map i | 0 <= i < SLOTS && t[i] != "" :: t[i]
  }

  /** The newcomer's slot is the lowest free one and no other slot changes; leaving gives the slot back. */
  lemma SeatMeaning(t: Table, id: string)
    requires id != "" && !Holds(t, id)
    ensures forall k | 0 <= k < SLOTS ::
              Seat(t, id)[k] == if t[k] == "" && (forall j | 0 <= j < k :: t[j] != "") then id else t[k]
    ensures Vacate(Seat(t, id), id) == t
  {
    var after := Vacate(Seat(t, id), id);
    forall k | 0 <= k < SLOTS ensures after[k] == t[k] {
      assert t[k] != id;
    }
  }

  /** A newcomer keeps the table injective if and only if it did not hold a slot before it came,
      or finds no free one. */
  lemma SeatInjectiveIff(t: Table, id: string)
    requires Injective(t)
    ensures Injective(Seat(t, id)) <==> id == "" || !Holds(t, id) || SlotOf(t, "") < 0
  {
    if id != "" && Holds(t, id) && SlotOf(t, "") >= 0 {
      var i :| 0 <= i < SLOTS && t[i] == id;
      var j, after := SlotOf(t, ""), Seat(t, id);
      var lo, hi := if i < j then i else j, if i < j then j else i;
      assert lo < hi && after[lo] == after[hi] == id;
    } else {
      forall i | 0 <= i < SLOTS && id != "" && SlotOf(t, "") >= 0 ensures t[i] != id {
        if t[i] == id { assert Holds(t, id); }
      }
    }
  }

  lemma VacateKeepsInjective(t: Table, id: string)
    requires Injective(t)
    ensures Injective(Vacate(t, id))
    ensures id != "" ==> !Holds(Vacate(t, id), id)
  {}

  /** In an injective table the roster and SlotOf are inverse to each other. */
  lemma RosterInvertsSlotOf(t: Table, id: string, slot: int)
    requires Injective(t) && id != ""
    ensures (slot in Roster(t) && Roster(t)[slot] == id) <==> (slot >= 0 && SlotOf(t, id) == slot)
  {}

  // ----- the operator's assignment --------------------------------------------------------------

  /** One entry of an assignment: out-of-range slots are skipped; id leaves every other slot. */
  function AssignOne(t: Table, slot: int, id: string): Table {
    if !(0 <= slot < SLOTS) then t
    else (if id != "" then Vacate(t, id) else t)[slot := id]
  }

  /** The entries of assign, taken in the given order. */
  function AssignAll(t: Table, assign: map<int, string>, order: seq<int>): Table
    requires forall k | k in order :: k in assign
  {
    if order == [] then t
    else
      var last := order[|order| - 1];
      AssignOne(AssignAll(t, assign, order[..|order| - 1]), last, assign[last])
  }

  /** order lists every key of assign once: one way in which a Go map can be walked. */
  ghost predicate IsWalk(order: seq<int>, assign: map<int, string>) {
    && (forall k :: k in order <==> k in assign)
    && (forall i, j | 0 <= i < j < |order| :: order[i] != order[j])
  }

  predicate InRange(assign: map<int, string>, slot: int) {
    slot in assign && 0 <= slot < SLOTS
  }

  /** No id is given two slots of the table. */
  ghost predicate DistinctIds(assign: map<int, string>) {
    forall a, b | InRange(assign, a) && InRange(assign, b) && a != b && assign[a] != "" :: assign[a] != assign[b]
  }

  /** id is given a slot. */
  ghost predicate Named(assign: map<int, string>, id: string) {
    id != "" && exists a :: InRange(assign, a) && assign[a] == id
  }

  /** The table after an assignment, said without any order. */
  ghost function Assigned(t: Table, assign: map<int, string>): Table {
    seq(SLOTS, i requires 0 <= i < SLOTS =>
      if i in assign then assign[i] else if Named(assign, t[i]) then "" else t[i])
  }

  /** Injectivity survives every order of every assignment, with repeated ids too. */
  lemma {:induction false} AssignKeepsInjective(t: Table, assign: map<int, string>, order: seq<int>)
    requires Injective(t) && forall k | k in order :: k in assign
    ensures Injective(AssignAll(t, assign, order))
  {
    if order != [] {
      AssignKeepsInjective(t, assign, order[..|order| - 1]);
    }
  }

  function Restrict(assign: map<int, string>, order: seq<int>): map<int, string> {
    map k | k in assign && k in order :: assign[k]
  }

  lemma {:induction false} AssignPrefix(t: Table, assign: map<int, string>, order: seq<int>)
    requires DistinctIds(assign)
    requires forall k | k in order :: k in assign
    requires forall i, j | 0 <= i < j < |order| :: order[i] != order[j]
    ensures AssignAll(t, assign, order) == Assigned(t, Restrict(assign, order))
  {
    if order == [] {
      assert forall i | 0 <= i < SLOTS :: Assigned(t, Restrict(assign, order))[i] == t[i];
    } else {
      var init, last := order[..|order| - 1], order[|order| - 1];
      AssignPrefix(t, assign, init);
      AssignedStep(t, assign, init, last);
      assert init + [last] == order;
    }
  }

  lemma AssignedStep(t: Table, assign: map<int, string>, init: seq<int>, last: int)
    requires DistinctIds(assign) && last in assign && last !in init
    requires forall k | k in init :: k in assign
    ensures AssignOne(Assigned(t, Restrict(assign, init)), last, assign[last])
         == Assigned(t, Restrict(assign, init + [last]))
  {
    var r, r' := Restrict(assign, init), Restrict(assign, init + [last]);
    var id := assign[last];
    forall x ensures Named(r', x) <==> Named(r, x) || (x != "" && 0 <= last < SLOTS && x == id) {
      if Named(r, x) {
        var a :| InRange(r, a) && r[a] == x;
        assert InRange(r', a);
      }
      if x != "" && 0 <= last < SLOTS && x == id { assert InRange(r', last); }
      if Named(r', x) {
        var a :| InRange(r', a) && r'[a] == x;
        if a != last { assert InRange(r, a); }
      }
    }
    var before, after := Assigned(t, r), Assigned(t, r');
    forall i | 0 <= i < SLOTS ensures AssignOne(before, last, id)[i] == after[i] {
      if i in r && i != last && InRange(assign, last) { assert InRange(assign, i); }
    }
  }

  /** With distinct ids, every order gives the one table that Assigned describes. */
  lemma AssignmentIsDetermined(t: Table, assign: map<int, string>, order: seq<int>)
    requires DistinctIds(assign) && IsWalk(order, assign)
    ensures AssignAll(t, assign, order) == Assigned(t, assign)
  {
    AssignPrefix(t, assign, order);
    assert forall k :: k in Restrict(assign, order) <==> k in assign;
    assert Restrict(assign, order) == assign;
  }

  /** The same, slot by slot and in plain terms: a slot that was assigned has what was assigned, nobody included; in
      any other slot the old occupant stays unless it was given a slot. */
  lemma AssignmentShows(t: Table, assign: map<int, string>, order: seq<int>, k: int)
    requires DistinctIds(assign) && IsWalk(order, assign) && 0 <= k < SLOTS
    ensures k in assign ==> AssignAll(t, assign, order)[k] == assign[k]
    ensures k !in assign && (exists a :: a in assign && 0 <= a < SLOTS && assign[a] == t[k]) ==>
              AssignAll(t, assign, order)[k] == ""
    ensures k !in assign && !(exists a :: a in assign && 0 <= a < SLOTS && assign[a] == t[k]) ==>
              AssignAll(t, assign, order)[k] == t[k]
  {
    AssignmentIsDetermined(t, assign, order);
    if a :| a in assign && 0 <= a < SLOTS && assign[a] == t[k] { assert InRange(assign, a); }
  }

  lemma HasElement(keys: set<int>)
    ensures keys == {} || exists k :: k in keys
  {
    if forall k :: k !in keys { assert keys == {}; }
  }

  ghost function SomeWalk(keys: set<int>): (order: seq<int>)
    ensures forall k :: k in order <==> k in keys
    ensures forall i, j | 0 <= i < j < |order| :: order[i] != order[j]
  {
    if keys == {} then [] else
      HasElement(keys);
      var k :| k in keys;
      SomeWalk(keys - {k}) + [k]
  }

  lemma LastTwo(t: Table, assign: map<int, string>, rest: seq<int>, a: int, b: int)
    requires forall k | k in rest :: k in assign
    requires InRange(assign, a) && InRange(assign, b) && a != b && assign[a] == assign[b] != ""
    ensures AssignAll(t, assign, rest + [a, b])[a] == ""
    ensures AssignAll(t, assign, rest + [a, b])[b] == assign[b]
  {
    var order := rest + [a, b];
    assert order[..|order| - 1] == rest + [a];
    assert (rest + [a])[..|rest|] == rest;
    assert AssignAll(t, assign, rest + [a])[a] == assign[a];
  }

  /** With a repeated id the order shows, whatever the table was: the two orders that end in a, b
      and in b, a leave the id in different slots. */
  lemma RepeatedIdDependsOnOrder(t: Table, assign: map<int, string>) returns (o1: seq<int>, o2: seq<int>)
    requires !DistinctIds(assign)
    ensures IsWalk(o1, assign) && IsWalk(o2, assign)
    ensures AssignAll(t, assign, o1) != AssignAll(t, assign, o2)
  {
    var a, b :| InRange(assign, a) && InRange(assign, b) && a != b && assign[a] != "" && assign[a] == assign[b];
    var rest := SomeWalk((assign - {a, b}).Keys);
    o1, o2 := rest + [a, b], rest + [b, a];
    EndsInPair(assign, rest, a, b);
    EndsInPair(assign, rest, b, a);
    LastTwo(t, assign, rest, a, b);
    LastTwo(t, assign, rest, b, a);
    assert AssignAll(t, assign, o1)[a] != AssignAll(t, assign, o2)[a];
  }

  lemma EndsInPair(assign: map<int, string>, rest: seq<int>, a: int, b: int)
    requires a in assign && b in assign && a != b
    requires IsWalk(rest, assign - {a, b})
    ensures IsWalk(rest + [a, b], assign)
  {
    var order := rest + [a, b];
    forall k ensures k in order <==> k in assign {
      if k == a { assert order[|rest|] == k; }
      if k == b { assert order[|rest| + 1] == k; }
      if k in rest { assert k in assign - {a, b}; }
      if k in assign && k != a && k != b { assert k in assign - {a, b}; }
    }
  }

  /** All orders agree. */
  ghost predicate Confluent(t: Table, assign: map<int, string>) {
    forall o1, o2 | IsWalk(o1, assign) && IsWalk(o2, assign) ::
      AssignAll(t, assign, o1) == AssignAll(t, assign, o2)
  }

  /** The outcome is independent of the order if and only if no id is named for two slots. */
  lemma ConfluentIff(t: Table, assign: map<int, string>)
    ensures Confluent(t, assign) <==> DistinctIds(assign)
  {
    if DistinctIds(assign) {
      forall o1, o2 | IsWalk(o1, assign) && IsWalk(o2, assign)
        ensures AssignAll(t, assign, o1) == AssignAll(t, assign, o2)
      {
        AssignmentIsDetermined(t, assign, o1);
        AssignmentIsDetermined(t, assign, o2);
      }
    } else {
      var o1, o2 := RepeatedIdDependsOnOrder(t, assign);
    }
  }
}
