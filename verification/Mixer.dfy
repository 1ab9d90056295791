/** The mixer of a conference, reduced to what the conference sees of it: one branch per participant
    and the properties of the compositor pads. */
module Mixer {
  import opened Text
  import opened LayoutEngine
  import SlotTable

  /** Position and size in pixels, and stacking order, of one compositor pad. */
  datatype Pad = Pad(x: int, y: int, w: int, h: int, z: int)

  /** serial tells branches apart that were registered under the same id at different times. */
  datatype Branch = Branch(serial: nat, pcmu: bool, pad: Pad, muted: bool)

  type Branches = map<string, Branch>

  /** The pads of the "no user" pictures, one per slot (None: not found at start), and the branches. */
  datatype Canvas = Canvas(placeholders: seq<Option<Pad>>, branches: Branches)

  const PLACEHOLDER_Z := 5
  const PEER_Z := 10

  /** Go's uint(10 + z) of a 64-bit z. */
  function ZOrder(z: int): int {
    (PEER_Z + z) % 0x1_0000_0000_0000_0000
  }

  function CellPad(c: Cell, z: int): Pad {
    Pad(Truncate(c.x), Truncate(c.y), Truncate(c.w), Truncate(c.h), z)
  }

  function Hidden(p: Pad): Pad {
    Pad(-9999, -9999, 1, 1, p.z)
  }

  /** Nothing of the pad is on the canvas, which starts at 0, 0. */
  predicate OffCanvas(p: Pad) {
    p.x + p.w <= 0 && p.y + p.h <= 0
  }

  function Cleared(ps: seq<Option<Pad>>): seq<Option<Pad>> {
    seq(|ps|, i requires 0 <= i < |ps| => if ps[i].Some? then Some(Hidden(ps[i].value)) else None)
  }

  /** Reporting an unknown participant prints the first 8 bytes of the id; a shorter id panics. */
  predicate Unprintable(bs: Branches, c: Cell) {
    c.peer != "" && c.peer !in bs && |c.peer| < 8
  }

  function DrawPlaceholder(ps: seq<Option<Pad>>, c: Cell): seq<Option<Pad>> {
    if 0 <= c.slot < |ps| && ps[c.slot].Some? then ps[c.slot := Some(CellPad(c, PLACEHOLDER_Z))] else ps
  }

  function DrawPeer(bs: Branches, c: Cell): Branches {
    if c.peer != "" && c.peer in bs then bs[c.peer := bs[c.peer].(pad := CellPad(c, ZOrder(c.z)))] else bs
  }

  /** The same branch, wherever its picture is. */
  predicate SameBranch(a: Branch, b: Branch) {
    a.serial == b.serial && a.pcmu == b.pcmu && a.muted == b.muted
  }

  /** The same pads and the same branches, wherever they are. */
  ghost predicate SameShape(v: Canvas, w: Canvas) {
    && |w.placeholders| == |v.placeholders|
    && (forall k | 0 <= k < |v.placeholders| :: w.placeholders[k].Some? == v.placeholders[k].Some?)
    && w.branches.Keys == v.branches.Keys
    && (forall id | id in v.branches :: SameBranch(w.branches[id], v.branches[id]))
  }

  /** The cells in order; true when one of them made the call panic, which ends it there. */
  function Draw(v: Canvas, cells: seq<Cell>): (r: (Canvas, bool))
    ensures SameShape(v, r.0)
    decreases cells
  {
    if cells == [] then (v, false)
    else
      var c := cells[0];
      var v1 := Canvas(DrawPlaceholder(v.placeholders, c), DrawPeer(v.branches, c));
      if Unprintable(v.branches, c) then (v1, true) else Draw(v1, cells[1..])
  }

  /** One call of UpdateLayout: every placeholder is hidden first. */
  function Redraw(v: Canvas, cells: seq<Cell>): (r: (Canvas, bool))
    ensures SameShape(v, r.0)
  {
    Draw(v.(placeholders := Cleared(v.placeholders)), cells)
  }

  /** One of the given ids has the branch with this serial. */
  ghost predicate Carries(bs: Branches, ids: set<string>, serial: nat) {
    exists id :: id in ids && id in bs && bs[id].serial == serial
  }

  lemma CarriesOneMore(bs: Branches, ids: set<string>, id: string)
    requires id in bs
    ensures forall n :: Carries(bs, ids + {id}, n) <==> Carries(bs, ids, n) || n == bs[id].serial
  {
    forall n ensures Carries(bs, ids + {id}, n) <==> Carries(bs, ids, n) || n == bs[id].serial {
      if n == bs[id].serial { assert id in ids + {id}; }
    }
  }

  class Compositor {
    const placeholders: array<Option<Pad>>
    var branches: Branches
    var closed: bool
    var nextSerial: nat
    /** The close channels that have been closed, in order. */
    var closings: seq<nat>
    const width: int
    const height: int

    ghost predicate Valid()
      reads this
    {
      && placeholders.Length == SlotTable.SLOTS
      && (forall id | id in branches :: branches[id].serial < nextSerial && branches[id].serial !in closings)
      && (forall a, b | a in branches && b in branches && a != b :: branches[a].serial != branches[b].serial)
      && (forall i | 0 <= i < |closings| :: closings[i] < nextSerial)
      && (forall i, j | 0 <= i < j < |closings| :: closings[i] != closings[j])
    }

    function View(): Canvas
      reads this, placeholders
    {
      Canvas(placeholders[..], branches)
    }

    /** found tells which of the placeholder pads exist. */
    constructor (width: int, height: int, found: seq<bool>)
      requires |found| == SlotTable.SLOTS
      ensures Valid() && fresh(placeholders)
      ensures branches == map[] && !closed && nextSerial == 0 && closings == []
      ensures forall i | 0 <= i < SlotTable.SLOTS ::
                placeholders[i] == if found[i] then Some(Pad(-9999, -9999, 1, 1, PLACEHOLDER_Z)) else None
    {
      this.width, this.height := width, height;
      placeholders := new Option<Pad>[SlotTable.SLOTS](i requires 0 <= i < SlotTable.SLOTS =>
        if found[i] then Some(Pad(-9999, -9999, 1, 1, PLACEHOLDER_Z)) else None);
      branches, closed, nextSerial, closings := map[], false, 0, [];
    }

    /** Where a picture is before any layout: half the size in the corner. */
    function FirstPad(): Pad {
      Pad(0, 0, width / 2, height / 2, PEER_Z)
    }

    /** built: whether the media elements of the branch could be created and linked. Names in the log are
        the first 8 bytes of the id, so that the code panics on a shorter id once it has come that far. */
    method AddPeer(id: string, pcmu: bool, built: bool) returns (added: bool)
      requires Valid() && (id !in branches && built ==> |id| >= 8)
      modifies this
      ensures Valid()
      ensures added <==> id !in old(branches) && built
      ensures !added ==> branches == old(branches) && nextSerial == old(nextSerial)
      ensures added ==>
                && branches == old(branches)[id := Branch(old(nextSerial), pcmu, FirstPad(), false)]
                && branches[id].pad == Pad(0, 0, width / 2, height / 2, 10)
                && nextSerial == old(nextSerial) + 1
      ensures closed == old(closed) && closings == old(closings)
    {
      if id in branches || !built {
        return false;
      }
      var b := Branch(nextSerial, pcmu, FirstPad(), false);
      nextSerial := nextSerial + 1;
      branches := branches[id := b];
      return true;
    }

    method RemovePeer(id: string)
      requires Valid()
      modifies this
      ensures Valid()
      ensures branches == old(branches) - {id}
      ensures closings == old(closings) + if id in old(branches) then [old(branches)[id].serial] else []
      ensures closed == old(closed) && nextSerial == old(nextSerial)
    {
      if id !in branches {
        assert branches - {id} == branches;
        return;
      }
      var b := branches[id];
      branches := branches - {id};
      Dispose(b);
    }

    /** Closes the branch's channel unless that has been done. */
    method Dispose(b: Branch)
      modifies this`closings
      ensures closings == old(closings) + if b.serial in old(closings) then [] else [b.serial]
    {
      if b.serial !in closings {
        closings := closings + [b.serial];
      }
    }

    /** The first Stop disposes of every branch; a later one does nothing. */
    method Stop()
      requires Valid()
      modifies this
      ensures Valid() && closed
      ensures old(closed) ==> branches == old(branches) && closings == old(closings)
      ensures !old(closed) ==>
                && branches == map[]
                && (forall n :: n in closings <==> n in old(closings) || Carries(old(branches), old(branches.Keys), n))
    {
      if closed {
        return;
      }
      closed := true;
      var taken := branches;
      branches := map[];
      DisposeAll(taken);
    }

    /** Every branch that was taken out of the table, in an arbitrary order. */
    method DisposeAll(taken: Branches)
      requires forall i | 0 <= i < |closings| :: closings[i] < nextSerial
      requires forall i, j | 0 <= i < j < |closings| :: closings[i] != closings[j]
      requires forall id | id in taken :: taken[id].serial < nextSerial
      modifies this`closings
      ensures forall i | 0 <= i < |closings| :: closings[i] < nextSerial
      ensures forall i, j | 0 <= i < j < |closings| :: closings[i] != closings[j]
      ensures forall n :: n in closings <==> n in old(closings) || Carries(taken, taken.Keys, n)
    {
      var todo := taken.Keys;
      while todo != {}
        invariant todo <= taken.Keys
        invariant forall i | 0 <= i < |closings| :: closings[i] < nextSerial
        invariant forall i, j | 0 <= i < j < |closings| :: closings[i] != closings[j]
        invariant forall n :: n in closings <==> n in old(closings) || Carries(taken, taken.Keys - todo, n)
        decreases todo
      {
        var id :| id in todo;
        ghost var done := taken.Keys - todo;
        todo := todo - {id};
        assert taken.Keys - todo == done + {id};
        CarriesOneMore(taken, done, id);
        Dispose(taken[id]);
      }
      assert taken.Keys - todo == taken.Keys;
    }

    /** applied: whether the pad of a known branch takes the property. False when it does not, or there is
        no such branch. */
    method SetPeerAudioMute(id: string, muted: bool, applied: bool) returns (ok: bool)
      requires Valid() && (id !in branches ==> |id| >= 8)
      modifies this`branches
      ensures Valid()
      ensures ok <==> id in old(branches) && applied
      ensures branches == if ok then old(branches)[id := old(branches)[id].(muted := muted)] else old(branches)
    {
      if id !in branches || !applied {
        return false;
      }
      branches := branches[id := branches[id].(muted := muted)];
      return true;
    }

    /** panicked: the call ended in a panic while it reported an unknown participant. */
    method UpdateLayout(cells: seq<Cell>) returns (panicked: bool)
      requires Valid()
      modifies this`branches, placeholders
      ensures Valid()
      ensures (View(), panicked) == Redraw(old(View()), cells)
      ensures forall k | 0 <= k < SlotTable.SLOTS && placeholders[k].Some? && Unnamed(old(branches), cells, k) ::
                OffCanvas(placeholders[k].value)
    {
      forall k: nat | k < SlotTable.SLOTS && placeholders[k].Some? && Unnamed(branches, cells, k)
        ensures var p := Redraw(View(), cells).0.placeholders[k]; p.Some? && OffCanvas(p.value)
      {
        UnnamedIsOffCanvas(View(), cells, k);
      }
      HidePlaceholders();
      for n := 0 to |cells|
        invariant Valid()
        invariant Draw(View(), cells[n..]) == Redraw(old(View()), cells)
      {
        DrawAt(View(), cells, n);
        var stop := DrawOne(cells[n]);
        if stop {
          return true;
        }
      }
      return false;
    }

    /** Every placeholder goes off the canvas. */
    method HidePlaceholders()
      requires placeholders.Length == SlotTable.SLOTS
      modifies placeholders
      ensures placeholders[..] == Cleared(old(placeholders[..]))
      ensures forall k | 0 <= k < SlotTable.SLOTS && placeholders[k].Some? ::
                OffCanvas(placeholders[k].value) && placeholders[k].value.z == old(placeholders[k].value.z)
    {
      for i := 0 to SlotTable.SLOTS
        invariant forall k | 0 <= k < i :: placeholders[k] == Cleared(old(placeholders[..]))[k]
        invariant forall k | i <= k < SlotTable.SLOTS :: placeholders[k] == old(placeholders[k])
      {
        if placeholders[i].Some? {
          placeholders[i] := Some(Hidden(placeholders[i].value));
        }
      }
    }

    /** One cell: the placeholder of its slot, then the pad of its participant. */
    method DrawOne(c: Cell) returns (panicked: bool)
      requires Valid()
      modifies this`branches, placeholders
      ensures Valid()
      ensures placeholders[..] == DrawPlaceholder(old(placeholders[..]), c)
      ensures branches == DrawPeer(old(branches), c)
      ensures panicked == Unprintable(old(branches), c)
    {
      if 0 <= c.slot < SlotTable.SLOTS && placeholders[c.slot].Some? {
        placeholders[c.slot] := Some(CellPad(c, PLACEHOLDER_Z));
      }
      if c.peer == "" {
        return false;
      }
      if c.peer !in branches {
        return |c.peer| < 8;
      }
      branches := branches[c.peer := branches[c.peer].(pad := CellPad(c, ZOrder(c.z)))];
      return false;
    }
  }

  lemma DrawAt(v: Canvas, cells: seq<Cell>, n: nat)
    requires n < |cells|
    ensures Draw(v, cells[n..]) ==
            var v1 := Canvas(DrawPlaceholder(v.placeholders, cells[n]), DrawPeer(v.branches, cells[n]));
            if Unprintable(v.branches, cells[n]) then (v1, true) else Draw(v1, cells[n + 1..])
  {}

  // ----- what a redraw shows ----------------------------------------------------------------------

  /** The placeholder of a slot after the cells: the last cell of that slot decides. */
  function SlotPad(cells: seq<Cell>, slot: int, before: Pad): Pad
    decreases cells
  {
    if cells == [] then before
    else SlotPad(cells[1..], slot, if cells[0].slot == slot then CellPad(cells[0], PLACEHOLDER_Z) else before)
  }

  /** The pad of a participant after the cells: the last cell that names it decides. */
  function PeerPad(cells: seq<Cell>, id: string, before: Pad): Pad
    decreases cells
  {
    if cells == [] then before
    else PeerPad(cells[1..], id, if cells[0].peer == id then CellPad(cells[0], ZOrder(cells[0].z)) else before)
  }

  ghost predicate Printable(bs: Branches, cells: seq<Cell>) {
    forall i | 0 <= i < |cells| :: !Unprintable(bs, cells[i])
  }

  /** The redraw panics if and only if some cell names an unknown participant with a short id. */
  lemma {:induction false} PanicIff(v: Canvas, cells: seq<Cell>)
    ensures Draw(v, cells).1 <==> !Printable(v.branches, cells)
    ensures Draw(v, cells).1 <==> exists i ::
              0 <= i < |cells| && cells[i].peer != "" && cells[i].peer !in v.branches && |cells[i].peer| < 8
    decreases cells
  {
    if cells != [] {
      var v1 := Canvas(DrawPlaceholder(v.placeholders, cells[0]), DrawPeer(v.branches, cells[0]));
      PanicIff(v1, cells[1..]);
      assert forall i | 0 <= i < |cells[1..]| :: cells[1..][i] == cells[i + 1];
      assert v1.branches.Keys == v.branches.Keys;
      if !Printable(v.branches, cells) && !Unprintable(v.branches, cells[0]) {
        var i :| 0 <= i < |cells| && Unprintable(v.branches, cells[i]);
        assert Unprintable(v1.branches, cells[1..][i - 1]);
      }
    }
  }

  /** The whole canvas after a redraw, pad by pad. */
  lemma {:induction false} DrawShows(v: Canvas, cells: seq<Cell>)
    requires Printable(v.branches, cells)
    ensures var w := Draw(v, cells).0;
            && |w.placeholders| == |v.placeholders|
            && (forall k | 0 <= k < |v.placeholders| ::
                  w.placeholders[k] == if v.placeholders[k].None? then None
                                       else Some(SlotPad(cells, k, v.placeholders[k].value)))
            && w.branches.Keys == v.branches.Keys
            && (forall id | id in v.branches ::
                  w.branches[id] == if id == "" then v.branches[id]
                                    else v.branches[id].(pad := PeerPad(cells, id, v.branches[id].pad)))
    decreases cells
  {
    if cells != [] {
      var v1 := Canvas(DrawPlaceholder(v.placeholders, cells[0]), DrawPeer(v.branches, cells[0]));
      assert forall i | 0 <= i < |cells[1..]| :: cells[1..][i] == cells[i + 1];
      assert v1.branches.Keys == v.branches.Keys;
      DrawShows(v1, cells[1..]);
    }
  }

  /** The last cell of a slot decides where its placeholder is. */
  lemma {:induction false} LastSlotCellWins(cells: seq<Cell>, i: nat, before: Pad)
    requires i < |cells|
    requires forall j | i < j < |cells| :: cells[j].slot != cells[i].slot
    ensures SlotPad(cells, cells[i].slot, before) == CellPad(cells[i], PLACEHOLDER_Z)
    decreases cells
  {
    if i == 0 {
      NoSlotCell(cells[1..], cells[0].slot, CellPad(cells[0], PLACEHOLDER_Z));
    } else {
      LastSlotCellWins(cells[1..], i - 1,
                       if cells[0].slot == cells[i].slot then CellPad(cells[0], PLACEHOLDER_Z) else before);
    }
  }

  lemma {:induction false} NoSlotCell(cells: seq<Cell>, slot: int, before: Pad)
    requires forall j | 0 <= j < |cells| :: cells[j].slot != slot
    ensures SlotPad(cells, slot, before) == before
    decreases cells
  {
    if cells != [] { NoSlotCell(cells[1..], slot, before); }
  }

  /** The last cell that names a participant decides where its picture is. */
  lemma {:induction false} LastPeerCellWins(cells: seq<Cell>, i: nat, before: Pad)
    requires i < |cells|
    requires forall j | i < j < |cells| :: cells[j].peer != cells[i].peer
    ensures PeerPad(cells, cells[i].peer, before) == CellPad(cells[i], ZOrder(cells[i].z))
    decreases cells
  {
    if i == 0 {
      NoPeerCell(cells[1..], cells[0].peer, CellPad(cells[0], ZOrder(cells[0].z)));
    } else {
      LastPeerCellWins(cells[1..], i - 1,
                       if cells[0].peer == cells[i].peer then CellPad(cells[0], ZOrder(cells[0].z)) else before);
    }
  }

  /** A participant no cell names stays where it was. */
  lemma {:induction false} NoPeerCell(cells: seq<Cell>, id: string, before: Pad)
    requires forall j | 0 <= j < |cells| :: cells[j].peer != id
    ensures PeerPad(cells, id, before) == before
    decreases cells
  {
    if cells != [] { NoPeerCell(cells[1..], id, before); }
  }

  // ----- drawings that panic ---------------------------------------------------------------------------

  lemma RedrawShows(v: Canvas, cells: seq<Cell>)
    requires Printable(v.branches, cells)
    ensures var w := Redraw(v, cells).0;
            && |w.placeholders| == |v.placeholders|
            && (forall k | 0 <= k < |v.placeholders| ::
                  w.placeholders[k] == if v.placeholders[k].None? then None
                                       else Some(SlotPad(cells, k, Hidden(v.placeholders[k].value))))
            && w.branches.Keys == v.branches.Keys
            && (forall id | id in v.branches ::
                  w.branches[id] == if id == "" then v.branches[id]
                                    else v.branches[id].(pad := PeerPad(cells, id, v.branches[id].pad)))
  {
    DrawShows(v.(placeholders := Cleared(v.placeholders)), cells);
  }

  /** The cells a redraw gets through: of the one that panics, only the placeholder. */
  function Reached(bs: Branches, cells: seq<Cell>): (r: seq<Cell>)
    ensures Printable(bs, r)
    decreases cells
  {
    if cells == [] then []
    else if Unprintable(bs, cells[0]) then [cells[0].(peer := "")]
    else [cells[0]] + Reached(bs, cells[1..])
  }

  lemma {:induction false} DrawReached(v: Canvas, bs: Branches, cells: seq<Cell>)
    requires v.branches.Keys == bs.Keys
    ensures Draw(v, cells).0 == Draw(v, Reached(bs, cells)).0
    decreases cells
  {
    if cells != [] {
      var r := Reached(bs, cells);
      if Unprintable(bs, cells[0]) {
        assert r[1..] == [];
      } else {
        assert r[1..] == Reached(bs, cells[1..]);
        var v1 := Canvas(DrawPlaceholder(v.placeholders, cells[0]), DrawPeer(v.branches, cells[0]));
        DrawReached(v1, bs, cells[1..]);
      }
    }
  }

  /** How many cells a drawing gets to: the one that panics is the last. */
  function Drawn(bs: Branches, cells: seq<Cell>): (n: nat)
    ensures n <= |cells|
    ensures forall i | 0 <= i < n - 1 :: !Unprintable(bs, cells[i])
    ensures n < |cells| ==> n > 0 && Unprintable(bs, cells[n - 1])
    decreases cells
  {
    if cells == [] then 0 else if Unprintable(bs, cells[0]) then 1 else 1 + Drawn(bs, cells[1..])
  }

  /** A drawing without a panic draws all cells, and one that panics ends at the cell that made it. */
  lemma DrawnIff(bs: Branches, cells: seq<Cell>)
    ensures Printable(bs, cells) <==>
            Drawn(bs, cells) == |cells| && (cells == [] || !Unprintable(bs, cells[|cells| - 1]))
  {}

  lemma {:induction false} ReachedIsDrawn(bs: Branches, cells: seq<Cell>, slot: int, before: Pad)
    ensures SlotPad(Reached(bs, cells), slot, before) == SlotPad(cells[..Drawn(bs, cells)], slot, before)
    decreases cells
  {
    var n := Drawn(bs, cells);
    if cells == [] {
      assert cells[..n] == [];
    } else {
      var next := if cells[0].slot == slot then CellPad(cells[0], PLACEHOLDER_Z) else before;
      assert cells[..n][0] == cells[0];
      if Unprintable(bs, cells[0]) {
        assert cells[..n][1..] == [] && Reached(bs, cells)[1..] == [];
      } else {
        assert cells[..n][1..] == cells[1..][..n - 1];
        assert Reached(bs, cells)[1..] == Reached(bs, cells[1..]);
        ReachedIsDrawn(bs, cells[1..], slot, next);
      }
    }
  }

  /** After any drawing, panicking or not, each placeholder lies where the last drawn cell of its slot says,
      the cell that panicked included, and is hidden when no drawn cell is for its slot. */
  lemma PlaceholdersFollowDrawnCells(v: Canvas, cells: seq<Cell>, k: nat)
    requires k < |v.placeholders|
    ensures Redraw(v, cells).0.placeholders[k] ==
            if v.placeholders[k].None? then None
            else Some(SlotPad(cells[..Drawn(v.branches, cells)], k, Hidden(v.placeholders[k].value)))
  {
    DrawReached(v.(placeholders := Cleared(v.placeholders)), v.branches, cells);
    RedrawShows(v, Reached(v.branches, cells));
    if v.placeholders[k].Some? {
      ReachedIsDrawn(v.branches, cells, k, Hidden(v.placeholders[k].value));
    }
  }

  /** No cell that is drawn is for slot k. */
  ghost predicate Unnamed(bs: Branches, cells: seq<Cell>, k: int) {
    forall i | 0 <= i < Drawn(bs, cells) :: cells[i].slot != k
  }

  /** After any redraw, panicking or not, a placeholder whose slot no drawn cell names is off the canvas. */
  lemma UnnamedIsOffCanvas(v: Canvas, cells: seq<Cell>, k: nat)
    requires k < |v.placeholders| && v.placeholders[k].Some? && Unnamed(v.branches, cells, k)
    ensures var p := Redraw(v, cells).0.placeholders[k]; p.Some? && OffCanvas(p.value)
  {
    PlaceholdersFollowDrawnCells(v, cells, k);
    NoSlotCell(cells[..Drawn(v.branches, cells)], k, Hidden(v.placeholders[k].value));
  }

  /** A placeholder that one layout has put on the canvas goes off it with the next that has no cell for its slot. */
  lemma NextLayoutHides(v: Canvas, first: seq<Cell>, second: seq<Cell>, k: nat)
    requires k < |v.placeholders| && v.placeholders[k].Some? && Unnamed(v.branches, second, k)
    ensures var p := Redraw(Redraw(v, first).0, second).0.placeholders[k]; p.Some? && OffCanvas(p.value)
  {
    var w := Redraw(v, first).0;
    DrawnDependsOnIds(v.branches, w.branches, second);
    UnnamedIsOffCanvas(w, second, k);
  }

  lemma {:induction false} DrawnDependsOnIds(a: Branches, b: Branches, cells: seq<Cell>)
    requires a.Keys == b.Keys
    ensures Drawn(a, cells) == Drawn(b, cells)
    decreases cells
  {
    if cells != [] { DrawnDependsOnIds(a, b, cells[1..]); }
  }

  // ----- drawing twice ---------------------------------------------------------------------------------

  /** Either some cell decides, whatever was there before, or the pad stays as it was. */
  lemma {:induction false} PadsDecideOrKeep(cells: seq<Cell>, slot: int, id: string, a: Pad, b: Pad)
    ensures SlotPad(cells, slot, a) == SlotPad(cells, slot, b) || (SlotPad(cells, slot, a) == a
        && SlotPad(cells, slot, b) == b)
    ensures PeerPad(cells, id, a) == PeerPad(cells, id, b) || (PeerPad(cells, id, a) == a && PeerPad(cells, id, b) == b)
    decreases cells
  {
    if cells != [] {
      PadsDecideOrKeep(cells[1..], slot, id, a, b);
    }
  }

  lemma PrintableDependsOnIds(a: Branches, b: Branches, cells: seq<Cell>)
    requires a.Keys == b.Keys && Printable(a, cells)
    ensures Printable(b, cells)
  {}

  lemma RedrawTwicePrintable(v: Canvas, cells: seq<Cell>)
    requires Printable(v.branches, cells)
    ensures Redraw(Redraw(v, cells).0, cells).0 == Redraw(v, cells).0
  {
    var w := Redraw(v, cells).0;
    RedrawShows(v, cells);
    PrintableDependsOnIds(v.branches, w.branches, cells);
    RedrawShows(w, cells);
    var x := Redraw(w, cells).0;
    forall k | 0 <= k < |v.placeholders| ensures x.placeholders[k] == w.placeholders[k] {
      if v.placeholders[k].Some? {
        var a := Hidden(v.placeholders[k].value);
        PadsDecideOrKeep(cells, k, "", a, Hidden(SlotPad(cells, k, a)));
      }
    }
    forall id | id in v.branches ensures x.branches[id] == w.branches[id] {
      var a := v.branches[id].pad;
      PadsDecideOrKeep(cells, 0, id, a, PeerPad(cells, id, a));
    }
    assert x.placeholders == w.placeholders && x.branches == w.branches;
  }

  /** Drawing the same cells again changes nothing, also when the drawing panics part of the way. */
  lemma RedrawIsIdempotent(v: Canvas, cells: seq<Cell>)
    ensures Redraw(Redraw(v, cells).0, cells) == Redraw(v, cells)
  {
    var reached := Reached(v.branches, cells);
    var v0 := v.(placeholders := Cleared(v.placeholders));
    var w := Redraw(v, cells).0;
    DrawReached(v0, v.branches, cells);
    RedrawShows(v, reached);
    var w0 := w.(placeholders := Cleared(w.placeholders));
    DrawReached(w0, v.branches, cells);
    RedrawTwicePrintable(v, reached);
    PanicIff(v0, cells);
    PanicIff(w0, cells);
    assert Printable(v.branches, cells) <==> Printable(w.branches, cells) by {
      if Printable(v.branches, cells) { PrintableDependsOnIds(v.branches, w.branches, cells); }
      if Printable(w.branches, cells) { PrintableDependsOnIds(w.branches, v.branches, cells); }
    }
  }

  /** A participant's picture covers the placeholder of its slot exactly when z > -5, or when z < -10:
      there the unsigned conversion wraps around. */
  lemma AbovePlaceholder(z: int)
    requires -0x8000_0000_0000_0000 <= z < 0x8000_0000_0000_0000
    ensures ZOrder(z) > PLACEHOLDER_Z <==> z > -5 || z < -10
  {}

  /** Among each other pictures are stacked by z, as long as the unsigned order does not wrap around. */
  lemma PicturesStackByZ(z: int, higher: int)
    requires -10 <= z < 0x8000_0000_0000_0000 && -10 <= higher < 0x8000_0000_0000_0000
    ensures ZOrder(z) < ZOrder(higher) <==> z < higher
    ensures ZOrder(z) == 10 + z
  {}
}
