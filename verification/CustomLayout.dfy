/** Which cells a conference asks the compositor for. */
module CustomLayout {
  import opened Text
  import opened SlotTable
  import opened LayoutEngine
  import opened Mixer

  /** A cell drawn by the operator: id is "slot-N", "speaker" or a participant's id; with vad set,
      whoever is speaking takes the cell over. */
  datatype CustomCell = CustomCell(id: string, x: real, y: real, w: real, h: real, z: int, vad: bool)

  const SLOT_PREFIX := "slot-"

  /** The slot whose placeholder the cell moves, or -1. */
  function SlotIndex(id: string): int {
    if HasPrefix(id, SLOT_PREFIX) then
      match Atoi(id[|SLOT_PREFIX|..])
      case Some(n) => if 0 <= n < SLOTS then n else -1
      case None => -1
    else -1
  }

  /** The participant that the id stands for, or "". */
  function ResolveCellID(id: string, slots: Table, speaker: string): string {
    if id == "speaker" then speaker
    else if HasPrefix(id, SLOT_PREFIX) then
      var n := Atoi(id[|SLOT_PREFIX|..]);
      if n.None? || n.value < 0 || n.value >= SLOTS then "" else slots[n.value]
    else id
  }

  function CellFor(c: CustomCell, slots: Table, speaker: string): Cell {
    var peer := if c.vad && speaker != "" then speaker else ResolveCellID(c.id, slots, speaker);
    Cell(peer, c.x, c.y, c.w, c.h, c.z, SlotIndex(c.id))
  }

  function CustomCells(cs: seq<CustomCell>, slots: Table, speaker: string): seq<Cell> {
    seq(|cs|, i requires 0 <= i < |cs| => CellFor(cs[i], slots, speaker))
  }

  /** The cells for the compositor: the operator's when there are any, else those of the layout engine. */
  function WantedCells(mode: Mode, cs: seq<CustomCell>, order: seq<string>, slots: Table, speaker: string,
                       width: nat, height: nat): seq<Cell> {
    if mode == Custom && cs != [] then CustomCells(cs, slots, speaker)
    else Layout(Spec(mode, width, height, [], speaker, ""), order)
  }

  /** What each mode asks for: the operator's cells as they are drawn, nothing when custom mode has none, and else the
      layout of the participants in their join order with the current speaker. */
  lemma WantedInEachMode(mode: Mode, cs: seq<CustomCell>, order: seq<string>, slots: Table, speaker: string,
                         width: nat, height: nat)
    ensures var cells := WantedCells(mode, cs, order, slots, speaker, width, height);
            && (mode == Custom ==> |cells| == |cs|)
            && (mode == Custom ==> forall i | 0 <= i < |cs| ::
                  && cells[i].x == cs[i].x && cells[i].y == cs[i].y && cells[i].w == cs[i].w && cells[i].h == cs[i].h
                  && cells[i].z == cs[i].z && cells[i].slot == SlotIndex(cs[i].id))
            && (mode == ActiveSpeaker && order != [] ==>
                  cells != [] && cells[0].peer == if speaker == "" then order[0] else speaker)
            && (mode == Lecture && order != [] ==> cells != [] && cells[0].peer == order[0])
            && (mode == Grid ==> Owners(cells) == order)
  {
    var spec := Spec(mode, width, height, [], speaker, "");
    OtherModesShow(spec, order);
    if order != [] && mode == ActiveSpeaker { ActiveSpeakerShows(spec, order); }
    if order != [] && mode == Lecture { LectureShows(spec, order); }
    if order != [] && mode == Grid { GridTiles(spec, order); }
  }

  // ----- the two readings of a cell id -----------------------------------------------------------------

  /** For every string, the placeholder's reading of an id and the participant's reading agree. */
  lemma ReadingsAgree(id: string, slots: Table, speaker: string)
    ensures SlotIndex(id) >= 0 ==> ResolveCellID(id, slots, speaker) == slots[SlotIndex(id)]
    ensures SlotIndex(id) < 0 && HasPrefix(id, SLOT_PREFIX) ==> ResolveCellID(id, slots, speaker) == ""
    ensures !HasPrefix(id, SLOT_PREFIX) ==>
              SlotIndex(id) == -1 && ResolveCellID(id, slots, speaker) == if id == "speaker" then speaker else id
  {
    if HasPrefix(id, SLOT_PREFIX) {
      assert id[..5][1] == 'l' && "speaker"[1] == 'p';
    }
  }

  /** Slot n goes by the name "slot-n". */
  lemma SlotNames(n: nat)
    requires n < SLOTS
    ensures SlotIndex(SLOT_PREFIX + Decimal(n)) == n
  {
    var id := SLOT_PREFIX + Decimal(n);
    assert id[..|SLOT_PREFIX|] == SLOT_PREFIX && id[|SLOT_PREFIX|..] == Decimal(n);
    AtoiOfDecimal(n);
  }

  // ----- what the operator's cells look like on the canvas ---------------------------------------------------

  /** The last of the operator's cells for a slot. */
  ghost predicate LastForSlot(cs: seq<CustomCell>, i: nat) {
    && i < |cs|
    && SlotIndex(cs[i].id) >= 0
    && forall j | i < j < |cs| :: SlotIndex(cs[j].id) != SlotIndex(cs[i].id)
  }

  /** The pixels of a cell, at the stacking order of placeholders. */
  function Frame(c: CustomCell): Pad {
    Pad(Truncate(c.x), Truncate(c.y), Truncate(c.w), Truncate(c.h), PLACEHOLDER_Z)
  }

  ghost predicate Standard(v: Canvas) {
    |v.placeholders| == SLOTS && "" !in v.branches
  }

  /** How many of the operator's cells a redraw draws: all of them unless one makes it panic. */
  function DrawnCells(v: Canvas, cs: seq<CustomCell>, slots: Table, speaker: string): (n: nat)
    ensures n <= |cs|
  {
    Drawn(v.branches, CustomCells(cs, slots, speaker))
  }

  /** After a redraw with custom cells, the placeholder of a slot lies where the last drawn cell for that slot says. */
  lemma PlaceholderFollowsLastCell(v: Canvas, cs: seq<CustomCell>, slots: Table, speaker: string, i: nat)
    requires Standard(v) && LastForSlot(cs[..DrawnCells(v, cs, slots, speaker)], i)
    requires v.placeholders[SlotIndex(cs[i].id)].Some?
    ensures Redraw(v, CustomCells(cs, slots, speaker)).0.placeholders[SlotIndex(cs[i].id)] == Some(Frame(cs[i]))
  {
    var cells, k, n := CustomCells(cs, slots, speaker), SlotIndex(cs[i].id), DrawnCells(v, cs, slots, speaker);
    PlaceholdersFollowDrawnCells(v, cells, k);
    assert forall j | 0 <= j < n :: cells[..n][j].slot == SlotIndex(cs[..n][j].id);
    LastSlotCellWins(cells[..n], i, Hidden(v.placeholders[k].value));
  }

  /** A slot without a drawn cell has its placeholder hidden. */
  lemma PlaceholderWithoutCellIsHidden(v: Canvas, cs: seq<CustomCell>, slots: Table, speaker: string, k: nat)
    requires Standard(v) && k < SLOTS && v.placeholders[k].Some?
    requires forall i | 0 <= i < DrawnCells(v, cs, slots, speaker) :: SlotIndex(cs[i].id) != k
    ensures Redraw(v, CustomCells(cs, slots, speaker)).0.placeholders[k] == Some(Hidden(v.placeholders[k].value))
  {
    var cells, n := CustomCells(cs, slots, speaker), DrawnCells(v, cs, slots, speaker);
    PlaceholdersFollowDrawnCells(v, cells, k);
    NoSlotCell(cells[..n], k, Hidden(v.placeholders[k].value));
  }

  lemma {:induction false} SlotPadIgnoresPeers(a: seq<Cell>, b: seq<Cell>, slot: int, before: Pad)
    requires |a| == |b|
    requires forall i | 0 <= i < |a| :: a[i].(peer := "") == b[i].(peer := "")
    ensures SlotPad(a, slot, before) == SlotPad(b, slot, before)
    decreases a
  {
    if a != [] {
      assert a[0].(peer := "") == b[0].(peer := "");
      SlotPadIgnoresPeers(a[1..], b[1..], slot, if a[0].slot == slot then CellPad(a[0], PLACEHOLDER_Z) else before);
    }
  }

  /** Where the placeholders are depends on the cell list and on how far the drawing gets: not on who sits in
      which slot, not on who speaks, and not on which branches exist. */
  lemma PlaceholdersDependOnCellsOnly(v: Canvas, w: Canvas, cs: seq<CustomCell>,
                                      slots: Table, speaker: string, slots': Table, speaker': string)
    requires Standard(v) && Standard(w) && Cleared(v.placeholders) == Cleared(w.placeholders)
    requires DrawnCells(v, cs, slots, speaker) == DrawnCells(w, cs, slots', speaker')
    ensures Redraw(v, CustomCells(cs, slots, speaker)).0.placeholders
         == Redraw(w, CustomCells(cs, slots', speaker')).0.placeholders
  {
    var a, b := CustomCells(cs, slots, speaker), CustomCells(cs, slots', speaker');
    var n := Drawn(v.branches, a);
    var x, y := Redraw(v, a).0.placeholders, Redraw(w, b).0.placeholders;
    forall k | 0 <= k < SLOTS ensures x[k] == y[k] {
      assert Cleared(v.placeholders)[k] == Cleared(w.placeholders)[k];
      PlaceholdersFollowDrawnCells(v, a, k);
      PlaceholdersFollowDrawnCells(w, b, k);
      if v.placeholders[k].Some? {
        SlotPadIgnoresPeers(a[..n], b[..n], k, Hidden(v.placeholders[k].value));
      }
    }
  }

  /** Nothing after cell i shows the same participant. */
  ghost predicate LastForPeer(cs: seq<CustomCell>, slots: Table, speaker: string, i: nat) {
    && i < |cs|
    && forall j | i < j < |cs| :: CellFor(cs[j], slots, speaker).peer != CellFor(cs[i], slots, speaker).peer
  }

  /** For a slot cell that no speaker has taken over: when it is the last for its slot and for the
      participant in the slot, that participant's picture fills exactly the placeholder's rectangle,
      and covers it if and only if z > -5 (or the unsigned order has wrapped around, z < -10). */
  lemma OccupantCoversPlaceholder(v: Canvas, cs: seq<CustomCell>, slots: Table, speaker: string, i: nat)
    requires Standard(v) && LastForSlot(cs, i) && LastForPeer(cs, slots, speaker, i)
    requires !cs[i].vad || speaker == ""
    requires slots[SlotIndex(cs[i].id)] in v.branches
    requires v.placeholders[SlotIndex(cs[i].id)].Some?
    requires Printable(v.branches, CustomCells(cs, slots, speaker))
    requires -0x8000_0000_0000_0000 <= cs[i].z < 0x8000_0000_0000_0000
    ensures var w, k := Redraw(v, CustomCells(cs, slots, speaker)).0, SlotIndex(cs[i].id);
            var picture, placeholder := w.branches[slots[k]].pad, w.placeholders[k].value;
            && picture.(z := placeholder.z) == placeholder == Frame(cs[i])
            && (picture.z > placeholder.z <==> cs[i].z > -5 || cs[i].z < -10)
  {
    var cells, k := CustomCells(cs, slots, speaker), SlotIndex(cs[i].id);
    ReadingsAgree(cs[i].id, slots, speaker);
    assert cells[i].peer == slots[k];
    RedrawShows(v, cells);
    DrawnIff(v.branches, cells);
    assert cs[..|cs|] == cs;
    PlaceholderFollowsLastCell(v, cs, slots, speaker, i);
    LastPeerCellWins(cells, i, v.branches[slots[k]].pad);
    AbovePlaceholder(cs[i].z);
  }

  /** Cell j shows the speaker, by its own id or as the occupant of its slot. */
  predicate ShowsSpeaker(c: CustomCell, slots: Table, speaker: string) {
    c.vad || ResolveCellID(c.id, slots, speaker) == speaker
  }

  /** Whoever speaks takes over the cells marked for it, whoever else they are for: its picture fills the last of
      the cells that show it. */
  lemma SpeakerTakesOverCell(v: Canvas, cs: seq<CustomCell>, slots: Table, speaker: string, i: nat)
    requires Standard(v) && i < |cs| && cs[i].vad && speaker in v.branches
    requires forall j | i < j < |cs| :: !ShowsSpeaker(cs[j], slots, speaker)
    requires Printable(v.branches, CustomCells(cs, slots, speaker))
    ensures var picture := Redraw(v, CustomCells(cs, slots, speaker)).0.branches[speaker].pad;
            picture.(z := PLACEHOLDER_Z) == Frame(cs[i])
  {
    var cells := CustomCells(cs, slots, speaker);
    assert cells[i].peer == speaker;
    RedrawShows(v, cells);
    LastPeerCellWins(cells, i, v.branches[speaker].pad);
  }

  /** While nobody speaks, such a cell shows what its id stands for, like any other. */
  lemma SilenceShowsOccupant(c: CustomCell, slots: Table)
    ensures CellFor(c, slots, "") == CellFor(c.(vad := false), slots, "")
    ensures CellFor(c, slots, "").peer == ResolveCellID(c.id, slots, "")
  {}
}
