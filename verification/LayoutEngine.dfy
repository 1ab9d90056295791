/** Where each participant's picture goes on the mixed canvas. */
module LayoutEngine {

  datatype Mode = Grid | ActiveSpeaker | Lecture | PiP | Custom | Other(name: string)

  /** slot is the slot the cell is bound to, or -1. */
  datatype Cell = Cell(peer: string, x: real, y: real, w: real, h: real, z: int, slot: int)

  datatype Spec = Spec(mode: Mode, width: nat, height: nat, cells: seq<Cell>, speaker: string, presenter: string)

  // ----- grid ---------------------------------------------------------------------------------

  function CeilSqrtFrom(c: nat, n: nat): (r: nat)
    requires c == 0 || (c - 1) * (c - 1) < n
    ensures n <= r * r && (r == 0 || (r - 1) * (r - 1) < n)
    decreases if n > c * c then n - c * c else 0
  {
    if n <= c * c then c else CeilSqrtFrom(c + 1, n)
  }

  /** The columns of a grid of n cells: the square root of n, rounded up. */
  function Columns(n: nat): (cols: nat)
    requires n > 0
    ensures cols > 0 && (cols - 1) * (cols - 1) < n <= cols * cols
  {
    CeilSqrtFrom(0, n)
  }

  /** The rows: n divided by the columns, rounded up. */
  function Rows(n: nat): nat
    requires n > 0
  {
    (n + Columns(n) - 1) / Columns(n)
  }

  /** Cell i of a table with the given columns and rows, filled row by row. */
  function TableCell(spec: Spec, peer: string, i: nat, cols: nat, rows: nat): Cell
    requires cols > 0 && rows > 0
  {
    Cell(peer, Edge(i % cols, cols, spec.width), Edge(i / cols, rows, spec.height),
         Part(cols, spec.width), Part(rows, spec.height), 0, -1)
  }

  /** Where part k of n equal parts of a side starts. */
  function Edge(k: nat, n: nat, size: nat): real
    requires n > 0
  {
    k as real * Part(n, size)
  }

  /** One of n equal parts of a side. */
  function Part(n: nat, size: nat): real
    requires n > 0
  {
    size as real / n as real
  }

  function GridCells(spec: Spec, peers: seq<string>): seq<Cell>
    requires peers != [] && Rows(|peers|) > 0
  {
    var cols, rows := Columns(|peers|), Rows(|peers|);
    seq(|peers|, i requires 0 <= i < |peers| => TableCell(spec, peers[i], i, cols, rows))
  }

  /** The grid is as square as it can be, and its last row is never empty. */
  lemma GridShape(n: nat)
    requires n > 0
    ensures var cols, rows := Columns(n), Rows(n);
            && (cols - 1) * (cols - 1) < n <= cols * cols
            && (rows - 1) * cols < n <= rows * cols
            && cols - 1 <= rows <= cols
            && rows > 0
  {
    var cols, rows := Columns(n), Rows(n);
    CeilQuotient(n, cols);
    if rows > cols { Scale(cols, rows - 1, cols); }
    if rows < cols - 1 {
      Scale(rows, cols - 2, cols);
      BelowSquare(cols);
    }
  }

  lemma BelowSquare(c: int)
    ensures (c - 2) * c < (c - 1) * (c - 1)
  {}

  lemma CeilQuotient(n: nat, d: nat)
    requires n > 0 && d > 0
    ensures var q := (n + d - 1) / d; (q - 1) * d < n <= q * d && q > 0
  {}

  lemma Scale(a: int, b: int, d: int)
    requires a <= b && d >= 0
    ensures a * d <= b * d
  {}

  method ComputeGrid(spec: Spec, peers: seq<string>) returns (out: seq<Cell>)
    requires peers != []
    ensures Rows(|peers|) > 0 && out == GridCells(spec, peers)
  {
    GridShape(|peers|);
    var n := |peers|;
    var cols := Columns(n);
    var rows := Rows(n);
    var w, h := Part(cols, spec.width), Part(rows, spec.height);
    out := [];
    for i := 0 to n
      invariant |out| == i
      invariant forall k | 0 <= k < i :: out[k] == TableCell(spec, peers[k], k, cols, rows)
    {
      var c, r := i % cols, i / cols;
      out := out + [Cell(peers[i], c as real * w, r as real * h, w, h, 0, -1)];
    }
  }

  // ----- geometry --------------------------------------------------------------------------------

  predicate Inside(c: Cell, spec: Spec) {
    0.0 <= c.x && 0.0 <= c.y && c.x + c.w <= spec.width as real && c.y + c.h <= spec.height as real
  }

  predicate Disjoint(a: Cell, b: Cell) {
    a.x + a.w <= b.x || b.x + b.w <= a.x || a.y + a.h <= b.y || b.y + b.h <= a.y
  }

  ghost predicate Tiled(cells: seq<Cell>, spec: Spec) {
    && (forall i | 0 <= i < |cells| :: Inside(cells[i], spec))
    && (forall i, j | 0 <= i < j < |cells| :: Disjoint(cells[i], cells[j]))
  }

  lemma AllParts(n: nat, size: nat)
    requires n > 0
    ensures n as real * Part(n, size) == size as real
    ensures Part(n, size) >= 0.0
  {}

  /** Part k of n ends where part k + 1 starts, so before any later part m and before the edge. */
  lemma PartEnds(k: nat, m: nat, n: nat, size: nat)
    requires k < m <= n
    ensures 0.0 <= Edge(k, n, size)
    ensures Edge(k, n, size) + Part(n, size) <= Edge(m, n, size) <= size as real
    ensures Edge(k, n, size) + Part(n, size) == Edge(k + 1, n, size)
    ensures Edge(n, n, size) == size as real
    ensures Part(n, size) >= 0.0
  {
    EdgeSteps(k, n, size);
    EdgeGrows(0, k, n, size);
    EdgeGrows(k + 1, m, n, size);
    EdgeGrows(m, n, n, size);
  }

  lemma EdgeSteps(k: nat, n: nat, size: nat)
    requires n > 0
    ensures Edge(k, n, size) + Part(n, size) == Edge(k + 1, n, size)
    ensures Edge(0, n, size) == 0.0 && Edge(n, n, size) == size as real
    ensures Part(n, size) >= 0.0
  {}

  lemma EdgeGrows(k: nat, m: nat, n: nat, size: nat)
    requires n > 0 && k <= m
    ensures Edge(k, n, size) <= Edge(m, n, size)
  {}

  lemma TableInside(spec: Spec, peer: string, i: nat, cols: nat, rows: nat)
    requires cols > 0 && rows > 0 && i / cols < rows
    ensures Inside(TableCell(spec, peer, i, cols, rows), spec)
  {
    PartEnds(i % cols, cols, cols, spec.width);
    PartEnds(i / cols, rows, rows, spec.height);
  }

  lemma TableDisjoint(spec: Spec, p: string, q: string, i: nat, j: nat, cols: nat, rows: nat)
    requires cols > 0 && rows > 0 && i < j && j / cols < rows
    ensures Disjoint(TableCell(spec, p, i, cols, rows), TableCell(spec, q, j, cols, rows))
  {
    RowMajor(i, j, cols);
    if i / cols < j / cols {
      PartEnds(i / cols, j / cols, rows, spec.height);
    } else {
      PartEnds(i % cols, j % cols, cols, spec.width);
    }
  }

  lemma RowMajor(i: nat, j: nat, cols: nat)
    requires cols > 0 && i < j
    ensures i / cols < j / cols || (i / cols == j / cols && i % cols < j % cols)
  {
    assert i == (i / cols) * cols + i % cols && j == (j / cols) * cols + j % cols;
    if i / cols > j / cols { Scale(j / cols + 1, i / cols, cols); }
  }

  lemma RowInRange(i: nat, cols: nat, rows: nat)
    requires cols > 0 && i < rows * cols
    ensures i / cols < rows
  {}

  /** For every n: all cells lie on the canvas, no two overlap, and cell i belongs to peer i. */
  lemma GridTiles(spec: Spec, peers: seq<string>)
    requires peers != []
    ensures Rows(|peers|) > 0
    ensures Tiled(GridCells(spec, peers), spec)
    ensures |GridCells(spec, peers)| == |peers|
    ensures forall i | 0 <= i < |peers| :: GridCells(spec, peers)[i].peer == peers[i]
  {
    GridShape(|peers|);
    TableTiles(spec, peers, Columns(|peers|), Rows(|peers|));
  }

  lemma TableTiles(spec: Spec, peers: seq<string>, cols: nat, rows: nat)
    requires cols > 0 && rows > 0 && |peers| <= rows * cols
    ensures Tiled(seq(|peers|, i requires 0 <= i < |peers| => TableCell(spec, peers[i], i, cols, rows)), spec)
  {
    forall i | 0 <= i < |peers| ensures i / cols < rows && Inside(TableCell(spec, peers[i], i, cols, rows), spec) {
      RowInRange(i, cols, rows);
      TableInside(spec, peers[i], i, cols, rows);
    }
    forall i, j | 0 <= i < j < |peers|
      ensures Disjoint(TableCell(spec, peers[i], i, cols, rows), TableCell(spec, peers[j], j, cols, rows))
    {
      TableDisjoint(spec, peers[i], peers[j], i, j, cols, rows);
    }
  }

  // ----- pixels -------------------------------------------------------------------------------------

  /** Go's int(r) of a real number: the fraction is dropped. */
  function Truncate(r: real): int {
    if r >= 0.0 then r.Floor else 0 - (0.0 - r).Floor
  }

  /** Toward zero, by less than one. */
  lemma TruncatesTowardZero(r: real)
    ensures r >= 0.0 ==> Truncate(r) as real <= r < Truncate(r) as real + 1.0
    ensures r <= 0.0 ==> Truncate(r) as real - 1.0 < r <= Truncate(r) as real
  {}

  lemma TruncateSum(a: real, b: real)
    requires a >= 0.0 && b >= 0.0
    ensures Truncate(a) + Truncate(b) <= Truncate(a + b) <= Truncate(a) + Truncate(b) + 1
  {}

  /** In whole pixels, part k of n neither overlaps part k + 1 nor leaves more than one pixel before it;
      the last part ends at most one pixel short of the edge. */
  lemma PixelSeams(k: nat, n: nat, size: nat)
    requires k < n
    ensures 0 <= Truncate(Edge(k + 1, n, size)) - (Truncate(Edge(k, n, size)) + Truncate(Part(n, size))) <= 1
    ensures k + 1 == n ==> 0 <= size - (Truncate(Edge(k, n, size)) + Truncate(Part(n, size))) <= 1
  {
    PartEnds(k, n, n, size);
    TruncateSum(Edge(k, n, size), Part(n, size));
  }

  lemma PixelsStayInside(c: Cell, spec: Spec)
    requires Inside(c, spec) && c.w >= 0.0 && c.h >= 0.0
    ensures PixelInside(c, spec)
  {}

  lemma PixelsStayApart(a: Cell, b: Cell)
    requires Disjoint(a, b) && a.w >= 0.0 && a.h >= 0.0 && b.w >= 0.0 && b.h >= 0.0
    requires a.x >= 0.0 && a.y >= 0.0 && b.x >= 0.0 && b.y >= 0.0
    ensures PixelDisjoint(a, b)
  {}

  predicate PixelInside(c: Cell, spec: Spec) {
    && 0 <= Truncate(c.x) && Truncate(c.x) + Truncate(c.w) <= spec.width
    && 0 <= Truncate(c.y) && Truncate(c.y) + Truncate(c.h) <= spec.height
  }

  predicate PixelDisjoint(a: Cell, b: Cell) {
    || Truncate(a.x) + Truncate(a.w) <= Truncate(b.x) || Truncate(b.x) + Truncate(b.w) <= Truncate(a.x)
    || Truncate(a.y) + Truncate(a.h) <= Truncate(b.y) || Truncate(b.y) + Truncate(b.h) <= Truncate(a.y)
  }

  /** A grid is still a tiling when its cells are cut down to whole pixels. */
  lemma GridTilesInPixels(spec: Spec, peers: seq<string>)
    requires peers != []
    ensures Rows(|peers|) > 0
    ensures var cells := GridCells(spec, peers);
            && (forall i | 0 <= i < |cells| :: PixelInside(cells[i], spec))
            && (forall i, j | 0 <= i < j < |cells| :: PixelDisjoint(cells[i], cells[j]))
  {
    GridTiles(spec, peers);
    var cells := GridCells(spec, peers);
    AllParts(Columns(|peers|), spec.width);
    AllParts(Rows(|peers|), spec.height);
    forall i | 0 <= i < |cells| ensures PixelInside(cells[i], spec) {
      PixelsStayInside(cells[i], spec);
    }
    forall i, j | 0 <= i < j < |cells| ensures PixelDisjoint(cells[i], cells[j]) {
      PixelsStayApart(cells[i], cells[j]);
    }
  }

  // ----- the cells of a grid next to each other -------------------------------------------------------

  lemma NextInRow(i: nat, cols: nat)
    requires cols > 0 && i % cols + 1 < cols
    ensures (i + 1) % cols == i % cols + 1 && (i + 1) / cols == i / cols
  {
    DivMod(i / cols, i % cols + 1, cols);
  }

  lemma NextRow(i: nat, cols: nat)
    requires cols > 0
    ensures (i + cols) % cols == i % cols && (i + cols) / cols == i / cols + 1
  {
    DivMod(i / cols + 1, i % cols, cols);
    assert (i / cols + 1) * cols + i % cols == i + cols;
  }

  lemma DivMod(q: nat, r: nat, d: nat)
    requires d > 0 && r < d
    ensures (q * d + r) / d == q && (q * d + r) % d == r
  {
    var n := q * d + r;
    assert n == (n / d) * d + n % d;
    if n / d < q { Scale(n / d + 1, q, d); }
    if n / d > q { Scale(q + 1, n / d, d); }
  }

  /** b goes on to the right where a ends, at the same height. */
  predicate RightOf(a: Cell, b: Cell) {
    a.x + a.w == b.x && a.y == b.y && a.h == b.h
  }

  predicate Below(a: Cell, b: Cell) {
    a.y + a.h == b.y && a.x == b.x && a.w == b.w
  }

  /** Grid cells share their edges with their neighbours; the outer ones reach the edges of the canvas. */
  lemma GridCellsTouch(spec: Spec, peers: seq<string>, i: nat)
    requires i < |peers|
    ensures Rows(|peers|) > 0
    ensures var cells, cols, rows := GridCells(spec, peers), Columns(|peers|), Rows(|peers|);
            && (i % cols == 0 ==> cells[i].x == 0.0) && (i < cols ==> cells[i].y == 0.0)
            && (i % cols + 1 < cols && i + 1 < |peers| ==> RightOf(cells[i], cells[i + 1]))
            && (i % cols + 1 == cols ==> cells[i].x + cells[i].w == spec.width as real)
            && (i + cols < |peers| ==> Below(cells[i], cells[i + cols]))
            && (i / cols + 1 == rows ==> cells[i].y + cells[i].h == spec.height as real)
  {
    GridShape(|peers|);
    var cols, rows := Columns(|peers|), Rows(|peers|);
    TableStarts(spec, peers[i], i, cols, rows);
    TableEnds(spec, peers[i], i, cols, rows);
    if i % cols + 1 < cols && i + 1 < |peers| { TableRight(spec, peers[i], peers[i + 1], i, cols, rows); }
    if i + cols < |peers| { TableBelow(spec, peers[i], peers[i + cols], i, cols, rows); }
  }

  lemma TableStarts(spec: Spec, p: string, i: nat, cols: nat, rows: nat)
    requires cols > 0 && rows > 0
    ensures i % cols == 0 ==> TableCell(spec, p, i, cols, rows).x == 0.0
    ensures i < cols ==> TableCell(spec, p, i, cols, rows).y == 0.0
  {
    EdgeSteps(0, cols, spec.width);
    EdgeSteps(0, rows, spec.height);
    if i < cols { DivMod(0, i, cols); }
  }

  lemma TableEnds(spec: Spec, p: string, i: nat, cols: nat, rows: nat)
    requires cols > 0 && rows > 0
    ensures var c := TableCell(spec, p, i, cols, rows);
            && (i % cols + 1 == cols ==> c.x + c.w == spec.width as real)
            && (i / cols + 1 == rows ==> c.y + c.h == spec.height as real)
  {
    EdgeSteps(i % cols, cols, spec.width);
    EdgeSteps(i / cols, rows, spec.height);
  }

  lemma TableRight(spec: Spec, p: string, q: string, i: nat, cols: nat, rows: nat)
    requires cols > 0 && rows > 0 && i % cols + 1 < cols
    ensures RightOf(TableCell(spec, p, i, cols, rows), TableCell(spec, q, i + 1, cols, rows))
  {
    NextInRow(i, cols);
    EdgeSteps(i % cols, cols, spec.width);
  }

  lemma TableBelow(spec: Spec, p: string, q: string, i: nat, cols: nat, rows: nat)
    requires cols > 0 && rows > 0
    ensures Below(TableCell(spec, p, i, cols, rows), TableCell(spec, q, i + cols, cols, rows))
  {
    NextRow(i, cols);
    EdgeSteps(i / cols, rows, spec.height);
  }

  /** Each cell of a grid has its share of the canvas: together they fill it when no place is left empty. */
  lemma GridArea(spec: Spec, peers: seq<string>)
    requires peers != []
    ensures Rows(|peers|) > 0
    ensures HasShares(GridCells(spec, peers), Rows(|peers|) * Columns(|peers|), spec)
    ensures |peers| == Rows(|peers|) * Columns(|peers|) ==>
              Area(GridCells(spec, peers)) == spec.width as real * spec.height as real
  {
    GridShape(|peers|);
    TableArea(spec, peers, Columns(|peers|), Rows(|peers|));
  }

  /** The cells take up as many of so many equal parts of the canvas as there are cells. */
  predicate HasShares(cells: seq<Cell>, places: nat, spec: Spec) {
    Area(cells) * places as real == |cells| as real * (spec.width as real * spec.height as real)
  }

  lemma TableArea(spec: Spec, peers: seq<string>, cols: nat, rows: nat)
    requires cols > 0 && rows > 0
    ensures var cells := seq(|peers|, i requires 0 <= i < |peers| => TableCell(spec, peers[i], i, cols, rows));
            && HasShares(cells, rows * cols, spec)
            && (|peers| == rows * cols ==> Area(cells) == spec.width as real * spec.height as real)
  {
    var cells := seq(|peers|, i requires 0 <= i < |peers| => TableCell(spec, peers[i], i, cols, rows));
    TableShares(spec, peers, cols, rows);
    SharesFill(Area(cells), |peers|, cols, rows, spec.width, spec.height);
  }

  lemma SharesFill(area: real, n: nat, cols: nat, rows: nat, width: nat, height: nat)
    requires cols > 0 && rows > 0 && area == n as real * (Part(cols, width) * Part(rows, height))
    ensures area * (rows * cols) as real == n as real * (width as real * height as real)
    ensures n == rows * cols ==> area == width as real * height as real
  {
    ShareOfCanvas(cols, rows, width, height);
    AreaOfShares(area, n as real, (rows * cols) as real, Part(cols, width) * Part(rows, height),
                 width as real * height as real);
  }

  lemma TableShares(spec: Spec, peers: seq<string>, cols: nat, rows: nat)
    requires cols > 0 && rows > 0
    ensures Area(seq(|peers|, i requires 0 <= i < |peers| => TableCell(spec, peers[i], i, cols, rows)))
         == |peers| as real * (Part(cols, spec.width) * Part(rows, spec.height))
  {
    var cells := seq(|peers|, i requires 0 <= i < |peers| => TableCell(spec, peers[i], i, cols, rows));
    EqualAreas(cells, Part(cols, spec.width) * Part(rows, spec.height));
  }

  lemma ShareOfCanvas(cols: nat, rows: nat, width: nat, height: nat)
    requires cols > 0 && rows > 0
    ensures Part(cols, width) * Part(rows, height) * (rows * cols) as real == width as real * height as real
  {
    AllParts(cols, width);
    AllParts(rows, height);
    var a, b, c, d := cols as real, Part(cols, width), rows as real, Part(rows, height);
    assert (rows * cols) as real == c * a;
    Rearrange(a, b, c, d);
  }

  lemma Rearrange(a: real, b: real, c: real, d: real)
    ensures b * d * (c * a) == (a * b) * (c * d)
  {}

  lemma AreaOfShares(area: real, n: real, places: real, share: real, whole: real)
    requires area == n * share && share * places == whole
    ensures area * places == n * whole && (n == places ==> area == whole)
  {
    assert n * share * places == n * (share * places);
  }

  /** In whole pixels neighbours in a grid do not overlap and leave one pixel between them at most. */
  lemma GridPixelSeams(spec: Spec, peers: seq<string>, i: nat)
    requires i < |peers|
    ensures Rows(|peers|) > 0
    ensures var cells, cols, rows := GridCells(spec, peers), Columns(|peers|), Rows(|peers|);
            var right := Truncate(cells[i].x) + Truncate(cells[i].w);
            var bottom := Truncate(cells[i].y) + Truncate(cells[i].h);
            && (i % cols + 1 < cols && i + 1 < |peers| ==> 0 <= Truncate(cells[i + 1].x) - right <= 1)
            && (i % cols + 1 == cols ==> 0 <= spec.width - right <= 1)
            && (i + cols < |peers| ==> 0 <= Truncate(cells[i + cols].y) - bottom <= 1)
            && (i / cols + 1 == rows ==> 0 <= spec.height - bottom <= 1)
  {
    GridCellsTouch(spec, peers, i);
    GridTiles(spec, peers);
    var c := GridCells(spec, peers)[i];
    AllParts(Columns(|peers|), spec.width);
    AllParts(Rows(|peers|), spec.height);
    TruncateSum(c.x, c.w);
    TruncateSum(c.y, c.h);
  }

  // ----- one large picture and a row or column of small ones ----------------------------------------

  /** The peers other than one, in their order. */
  function Others(peers: seq<string>, one: string): (r: seq<string>)
    ensures one !in r
    ensures multiset(r) == multiset(peers)[one := 0]
  {
    if peers == [] then []
    else
      var last, init := peers[|peers| - 1], peers[..|peers| - 1];
      assert peers == init + [last];
      if last != one then Others(init, one) + [last] else Others(init, one)
  }

  /** Byte-wise order of strings. */
  predicate StringLeq(a: string, b: string) {
    a == "" || (b != "" && (a[0] < b[0] || (a[0] == b[0] && StringLeq(a[1..], b[1..]))))
  }

  /** The first byte in which two strings differ decides, and a string stands before its extensions. */
  lemma {:induction false} FirstDifferenceDecides(prefix: string, a: string, b: string)
    requires a == "" || b == "" || a[0] != b[0]
    ensures StringLeq(prefix + a, prefix + b) <==> a == "" || (b != "" && a[0] < b[0])
  {
    if prefix == "" {
      assert prefix + a == a && prefix + b == b;
    } else {
      assert (prefix + a)[1..] == prefix[1..] + a && (prefix + b)[1..] == prefix[1..] + b;
      FirstDifferenceDecides(prefix[1..], a, b);
    }
  }

  ghost predicate Sorted(s: seq<string>) {
    forall i, j | 0 <= i < j < |s| :: StringLeq(s[i], s[j])
  }

  function Insert(x: string, s: seq<string>): (r: seq<string>)
    ensures multiset(r) == multiset(s) + multiset{x}
  {
    if s == [] then [x]
    else
      assert s == [s[0]] + s[1..];
      if StringLeq(x, s[0]) then [x] + s else [s[0]] + Insert(x, s[1..])
  }

  /** sort.Strings. */
  function SortStrings(s: seq<string>): (r: seq<string>)
    ensures multiset(r) == multiset(s)
  {
    if s == [] then []
    else
      assert s == [s[0]] + s[1..];
      Insert(s[0], SortStrings(s[1..]))
  }

  /** The speaker on the upper 80 %, the others side by side below. */
  function ThumbCell(spec: Spec, peer: string, i: nat, n: nat): Cell
    requires n > 0
  {
    var mainH := spec.height as real * 0.8;
    Cell(peer, Edge(i, n, spec.width), mainH, Part(n, spec.width), spec.height as real - mainH, 0, -1)
  }

  function ThumbCells(spec: Spec, thumbs: seq<string>): seq<Cell> {
    seq(|thumbs|, i requires 0 <= i < |thumbs| => ThumbCell(spec, thumbs[i], i, |thumbs|))
  }

  function MainSpeaker(spec: Spec, peers: seq<string>): string
    requires peers != []
  {
    if spec.speaker == "" then peers[0] else spec.speaker
  }

  function LargeCell(spec: Spec, speaker: string): Cell {
    Cell(speaker, 0.0, 0.0, spec.width as real, spec.height as real * 0.8, 1, -1)
  }

  function ActiveSpeakerCells(spec: Spec, peers: seq<string>): seq<Cell>
    requires peers != []
  {
    var speaker := MainSpeaker(spec, peers);
    [LargeCell(spec, speaker)] + ThumbCells(spec, SortStrings(Others(peers, speaker)))
  }

  method FilterOthers(peers: seq<string>, one: string) returns (out: seq<string>)
    ensures out == Others(peers, one)
  {
    out := [];
    for i := 0 to |peers|
      invariant out == Others(peers[..i], one)
    {
      assert peers[..i + 1][..i] == peers[..i];
      if peers[i] != one {
        out := out + [peers[i]];
      }
    }
    assert peers[..|peers|] == peers;
  }

  method ComputeActiveSpeaker(spec: Spec, peers: seq<string>) returns (out: seq<Cell>)
    requires peers != []
    ensures out == ActiveSpeakerCells(spec, peers)
  {
    var speaker := spec.speaker;
    if speaker == "" {
      speaker := peers[0];
    }
    var thumbs := FilterOthers(peers, speaker);
    thumbs := SortStrings(thumbs);
    out := [Cell(speaker, 0.0, 0.0, spec.width as real, spec.height as real * 0.8, 1, -1)];
    if |thumbs| > 0 {
      var row := ThumbRow(spec, thumbs);
      out := out + row;
    }
  }

  method ThumbRow(spec: Spec, thumbs: seq<string>) returns (out: seq<Cell>)
    requires thumbs != []
    ensures out == ThumbCells(spec, thumbs)
  {
    var n := |thumbs|;
    var mainH := spec.height as real * 0.8;
    var thW, thH := Part(n, spec.width), spec.height as real - mainH;
    out := [];
    for i := 0 to n
      invariant |out| == i
      invariant forall k | 0 <= k < i :: out[k] == ThumbCell(spec, thumbs[k], k, n)
    {
      out := out + [Cell(thumbs[i], i as real * thW, mainH, thW, thH, 0, -1)];
    }
  }

  /** The presenter on the left 70 %, the others below each other on the right. */
  function AudienceCell(spec: Spec, peer: string, i: nat, n: nat): Cell
    requires n > 0
  {
    var pW := spec.width as real * 0.7;
    Cell(peer, pW, Edge(i, n, spec.height), spec.width as real - pW, Part(n, spec.height), 0, -1)
  }

  function AudienceCells(spec: Spec, others: seq<string>): seq<Cell> {
    seq(|others|, i requires 0 <= i < |others| => AudienceCell(spec, others[i], i, |others|))
  }

  function MainPresenter(spec: Spec, peers: seq<string>): string
    requires peers != []
  {
    if spec.presenter == "" then peers[0] else spec.presenter
  }

  function LectureCells(spec: Spec, peers: seq<string>): seq<Cell>
    requires peers != []
  {
    var presenter := MainPresenter(spec, peers);
    [Cell(presenter, 0.0, 0.0, spec.width as real * 0.7, spec.height as real, 1, -1)] +
    AudienceCells(spec, Others(peers, presenter))
  }

  method ComputeLecture(spec: Spec, peers: seq<string>) returns (out: seq<Cell>)
    requires peers != []
    ensures out == LectureCells(spec, peers)
  {
    var presenter := spec.presenter;
    if presenter == "" {
      presenter := peers[0];
    }
    var others := FilterOthers(peers, presenter);
    out := [Cell(presenter, 0.0, 0.0, spec.width as real * 0.7, spec.height as real, 1, -1)];
    if |others| > 0 {
      var column := AudienceColumn(spec, others);
      out := out + column;
    }
  }

  method AudienceColumn(spec: Spec, others: seq<string>) returns (out: seq<Cell>)
    requires others != []
    ensures out == AudienceCells(spec, others)
  {
    var n := |others|;
    var pW := spec.width as real * 0.7;
    var rightW, rowH := spec.width as real - pW, Part(n, spec.height);
    out := [];
    for i := 0 to n
      invariant |out| == i
      invariant forall k | 0 <= k < i :: out[k] == AudienceCell(spec, others[k], k, n)
    {
      out := out + [Cell(others[i], pW, i as real * rowH, rightW, rowH, 0, -1)];
    }
  }

  /** One picture over the whole canvas, a second one in its corner. */
  function PiPCells(spec: Spec, peers: seq<string>): seq<Cell>
    requires peers != []
  {
    var main := MainSpeaker(spec, peers);
    [Cell(main, 0.0, 0.0, spec.width as real, spec.height as real, 1, -1)] +
    if |peers| > 1 then
      var small := if spec.presenter != "" then spec.presenter else peers[1];
      var sw, sh := spec.width as real * 0.25, spec.height as real * 0.25;
      [Cell(small, spec.width as real - sw - 16.0, spec.height as real - sh - 16.0, sw, sh, 5, -1)]
    else []
  }

  /** The cells of a layout: none without peers, and the grid for a mode it does not know. */
  function Layout(spec: Spec, peers: seq<string>): seq<Cell> {
    if peers == [] then []
    else match spec.mode
      case Custom => spec.cells
      case ActiveSpeaker => ActiveSpeakerCells(spec, peers)
      case Lecture => LectureCells(spec, peers)
      case PiP => PiPCells(spec, peers)
      case _ => GridShape(|peers|); GridCells(spec, peers)
  }

  method Compute(spec: Spec, peers: seq<string>) returns (out: seq<Cell>)
    ensures out == Layout(spec, peers)
  {
    if |peers| == 0 {
      return [];
    }
    match spec.mode {
      case Custom => out := spec.cells;
      case ActiveSpeaker => out := ComputeActiveSpeaker(spec, peers);
      case Lecture => out := ComputeLecture(spec, peers);
      case PiP => out := PiPCells(spec, peers);
      case _ => out := ComputeGrid(spec, peers);
    }
  }

  // ----- what these layouts conserve ---------------------------------------------------------------

  function Owners(cells: seq<Cell>): seq<string> {
    seq(|cells|, i requires 0 <= i < |cells| => cells[i].peer)
  }

  function Area(cells: seq<Cell>): real {
    if cells == [] then 0.0 else cells[0].w * cells[0].h + Area(cells[1..])
  }

  ghost predicate Distinct(s: seq<string>) {
    forall i, j | 0 <= i < j < |s| :: s[i] != s[j]
  }

  lemma {:induction false} DistinctCounts(s: seq<string>, x: string)
    requires Distinct(s)
    ensures multiset(s)[x] == if x in s then 1 else 0
  {
    if s != [] {
      assert s == [s[0]] + s[1..];
      DistinctCounts(s[1..], x);
    }
  }

  /** With distinct peers, each peer owns exactly one cell if and only if the one in the large
      picture is one of them; a speaker who has left gets a cell of its own besides. */
  lemma OneCellEach(peers: seq<string>, main: string, rest: seq<string>)
    requires Distinct(peers) && multiset(rest) == multiset(peers)[main := 0]
    ensures multiset([main] + rest) == multiset(peers) <==> main in peers
    ensures main !in peers ==> multiset([main] + rest) == multiset(peers) + multiset{main}
  {
    DistinctCounts(peers, main);
    if multiset([main] + rest) == multiset(peers) {
      assert main in multiset([main] + rest);
    }
  }

  lemma {:induction false} EqualAreas(cells: seq<Cell>, area: real)
    requires forall i | 0 <= i < |cells| :: cells[i].w * cells[i].h == area
    ensures Area(cells) == |cells| as real * area
  {
    if cells != [] {
      EqualAreas(cells[1..], area);
      assert |cells| as real == 1.0 + |cells[1..]| as real;
    }
  }

  lemma FillSide(n: nat, size: nat, breadth: real)
    requires n > 0
    ensures n as real * (Part(n, size) * breadth) == size as real * breadth
  {}

  lemma ThumbsTiled(spec: Spec, thumbs: seq<string>)
    ensures Tiled(ThumbCells(spec, thumbs), spec)
  {
    var n, cells := |thumbs|, ThumbCells(spec, thumbs);
    forall i | 0 <= i < n ensures Inside(cells[i], spec) {
      PartEnds(i, n, n, spec.width);
    }
    forall i, j | 0 <= i < j < n ensures Disjoint(cells[i], cells[j]) {
      PartEnds(i, j, n, spec.width);
    }
  }

  lemma ThumbsArea(spec: Spec, thumbs: seq<string>)
    requires thumbs != []
    ensures Area(ThumbCells(spec, thumbs)) == spec.width as real * (spec.height as real - spec.height as real * 0.8)
  {
    var n, breadth := |thumbs|, spec.height as real - spec.height as real * 0.8;
    EqualAreas(ThumbCells(spec, thumbs), Part(n, spec.width) * breadth);
    FillSide(n, spec.width, breadth);
  }

  lemma AudienceTiled(spec: Spec, others: seq<string>)
    ensures Tiled(AudienceCells(spec, others), spec)
  {
    var n, cells := |others|, AudienceCells(spec, others);
    forall i | 0 <= i < n ensures Inside(cells[i], spec) {
      PartEnds(i, n, n, spec.height);
    }
    forall i, j | 0 <= i < j < n ensures Disjoint(cells[i], cells[j]) {
      PartEnds(i, j, n, spec.height);
    }
  }

  lemma AudienceArea(spec: Spec, others: seq<string>)
    requires others != []
    ensures Area(AudienceCells(spec, others)) == spec.height as real * (spec.width as real - spec.width as real * 0.7)
  {
    var n, breadth := |others|, spec.width as real - spec.width as real * 0.7;
    EqualAreas(AudienceCells(spec, others), breadth * Part(n, spec.height));
    FillSide(n, spec.height, breadth);
  }

  lemma AreaOfCons(c: Cell, cells: seq<Cell>)
    ensures Area([c] + cells) == c.w * c.h + Area(cells)
  {}

  lemma ThumbOwners(spec: Spec, main: Cell, thumbs: seq<string>)
    ensures Owners([main] + ThumbCells(spec, thumbs)) == [main.peer] + thumbs
  {}

  lemma AudienceOwners(spec: Spec, main: Cell, others: seq<string>)
    ensures Owners([main] + AudienceCells(spec, others)) == [main.peer] + others
  {}

  lemma WithMain(spec: Spec, main: Cell, cells: seq<Cell>)
    requires Inside(main, spec) && Tiled(cells, spec)
    requires forall i | 0 <= i < |cells| :: Disjoint(main, cells[i])
    ensures Tiled([main] + cells, spec)
  {}

  /** Every peer is shown exactly once if and only if the speaker is one of them. */
  lemma ActiveSpeakerConserves(spec: Spec, peers: seq<string>)
    requires peers != [] && Distinct(peers)
    ensures var cells, speaker := ActiveSpeakerCells(spec, peers), MainSpeaker(spec, peers);
            && (multiset(Owners(cells)) == multiset(peers) <==> speaker in peers)
            && (speaker !in peers ==> multiset(Owners(cells)) == multiset(peers) + multiset{speaker})
  {
    var speaker := MainSpeaker(spec, peers);
    var thumbs := SortStrings(Others(peers, speaker));
    ActiveSpeakerOwners(spec, peers);
    OneCellEach(peers, speaker, thumbs);
  }

  lemma ActiveSpeakerOwners(spec: Spec, peers: seq<string>)
    requires peers != []
    ensures Owners(ActiveSpeakerCells(spec, peers)) ==
            [MainSpeaker(spec, peers)] + SortStrings(Others(peers, MainSpeaker(spec, peers)))
  {
    var speaker := MainSpeaker(spec, peers);
    ThumbOwners(spec, LargeCell(spec, speaker), SortStrings(Others(peers, speaker)));
  }

  lemma ActiveSpeakerFillsCanvas(spec: Spec, peers: seq<string>)
    requires peers != []
    ensures Tiled(ActiveSpeakerCells(spec, peers), spec)
    ensures Others(peers, MainSpeaker(spec, peers)) != [] ==>
              Area(ActiveSpeakerCells(spec, peers)) == spec.width as real * spec.height as real
  {
    var speaker := MainSpeaker(spec, peers);
    SortKeepsEmpty(Others(peers, speaker));
    MainAndThumbs(spec, LargeCell(spec, speaker), SortStrings(Others(peers, speaker)));
  }

  lemma MainAndThumbs(spec: Spec, main: Cell, thumbs: seq<string>)
    requires main == LargeCell(spec, main.peer)
    ensures Tiled([main] + ThumbCells(spec, thumbs), spec)
    ensures thumbs != [] ==> Area([main] + ThumbCells(spec, thumbs)) == spec.width as real * spec.height as real
  {
    if thumbs == [] {
      assert ThumbCells(spec, thumbs) == [];
    } else {
      ThumbsArea(spec, thumbs);
      AreaOfCons(main, ThumbCells(spec, thumbs));
      SplitArea(spec.width as real, spec.height as real, 0.8);
    }
    ThumbsTiled(spec, thumbs);
    WithMain(spec, main, ThumbCells(spec, thumbs));
  }

  lemma OthersOfTwo(peers: seq<string>, one: string)
    requires Distinct(peers) && |peers| >= 2
    ensures Others(peers, one) != []
  {}

  lemma SortKeepsEmpty(s: seq<string>)
    ensures SortStrings(s) == [] <==> s == []
  {}

  lemma LectureConserves(spec: Spec, peers: seq<string>)
    requires peers != [] && Distinct(peers)
    ensures var cells, presenter := LectureCells(spec, peers), MainPresenter(spec, peers);
            && (multiset(Owners(cells)) == multiset(peers) <==> presenter in peers)
            && (presenter !in peers ==> multiset(Owners(cells)) == multiset(peers) + multiset{presenter})
  {
    var presenter := MainPresenter(spec, peers);
    var main := Cell(presenter, 0.0, 0.0, spec.width as real * 0.7, spec.height as real, 1, -1);
    var others := Others(peers, presenter);
    AudienceOwners(spec, main, others);
    OneCellEach(peers, presenter, others);
  }

  lemma LectureFillsCanvas(spec: Spec, peers: seq<string>)
    requires peers != []
    ensures Tiled(LectureCells(spec, peers), spec)
    ensures Others(peers, MainPresenter(spec, peers)) != [] ==>
              Area(LectureCells(spec, peers)) == spec.width as real * spec.height as real
  {
    var presenter := MainPresenter(spec, peers);
    var main := Cell(presenter, 0.0, 0.0, spec.width as real * 0.7, spec.height as real, 1, -1);
    MainAndAudience(spec, main, Others(peers, presenter));
  }

  lemma MainAndAudience(spec: Spec, main: Cell, others: seq<string>)
    requires main == Cell(main.peer, 0.0, 0.0, spec.width as real * 0.7, spec.height as real, 1, -1)
    ensures Tiled([main] + AudienceCells(spec, others), spec)
    ensures others != [] ==> Area([main] + AudienceCells(spec, others)) == spec.width as real * spec.height as real
  {
    if others == [] {
      assert AudienceCells(spec, others) == [];
    } else {
      AudienceArea(spec, others);
      AreaOfCons(main, AudienceCells(spec, others));
      SplitArea(spec.height as real, spec.width as real, 0.7);
    }
    AudienceTiled(spec, others);
    WithMain(spec, main, AudienceCells(spec, others));
  }

  /** With two peers or more, both layouts use up the canvas to the last bit. */
  lemma TwoPeersFillCanvas(spec: Spec, peers: seq<string>)
    requires Distinct(peers) && |peers| >= 2
    ensures Area(ActiveSpeakerCells(spec, peers)) == spec.width as real * spec.height as real
    ensures Area(LectureCells(spec, peers)) == spec.width as real * spec.height as real
  {
    OthersOfTwo(peers, MainSpeaker(spec, peers));
    ActiveSpeakerFillsCanvas(spec, peers);
    OthersOfTwo(peers, MainPresenter(spec, peers));
    LectureFillsCanvas(spec, peers);
  }

  lemma SplitArea(a: real, b: real, part: real)
    ensures a * (b * part) + a * (b - b * part) == a * b
  {}

  /** Picture in picture has one picture over the whole canvas and a second one, a quarter as wide and as high, in its
      lower right corner, 16 pixels from the edges. It shows two different peers if and only if the one in the corner
      is not the large one too, as the second to join is when it speaks; and the corner picture fits on the canvas
      if and only if three quarters of either side leave room for the 16 pixels of margin. */
  lemma PiPShows(spec: Spec, peers: seq<string>)
    requires Distinct(peers) && |peers| >= 2
    ensures var cells := PiPCells(spec, peers);
            && |cells| == 2 && Inside(cells[0], spec) && cells[0].z < cells[1].z
            && (cells[0].peer != cells[1].peer <==>
                  if spec.presenter == "" then spec.speaker == "" || spec.speaker != peers[1]
                  else spec.presenter != MainSpeaker(spec, peers))
            && cells[1].w == spec.width as real / 4.0 && cells[1].x + cells[1].w + 16.0 == spec.width as real
            && cells[1].h == spec.height as real / 4.0 && cells[1].y + cells[1].h + 16.0 == spec.height as real
            && cells[0].w == spec.width as real && cells[0].h == spec.height as real
            && (Inside(cells[1], spec) <==> spec.width as real * 0.75 >= 16.0 && spec.height as real * 0.75 >= 16.0)
  {}

  // ----- what each mode shows -----------------------------------------------------------------------------

  /** Without peers there is nothing; a mode that is not known is the grid; custom cells are taken as they are. */
  lemma OtherModesShow(spec: Spec, peers: seq<string>)
    ensures peers == [] ==> Layout(spec, peers) == []
    ensures peers != [] && spec.mode == Custom ==> Layout(spec, peers) == spec.cells
    ensures peers != [] && (spec.mode == Grid || spec.mode.Other?) ==>
              Rows(|peers|) > 0 && Layout(spec, peers) == GridCells(spec, peers)
    ensures spec.mode != Custom ==> forall i | 0 <= i < |Layout(spec, peers)| :: Layout(spec, peers)[i].slot == -1
  {
    if peers != [] { GridShape(|peers|); }
  }

  /** The large picture of active speaker mode: the speaker, or the first to join when nobody has spoken, on the upper
      four fifths of the canvas. */
  lemma ActiveSpeakerShows(spec: Spec, peers: seq<string>)
    requires peers != [] && spec.mode == ActiveSpeaker
    ensures var cells := Layout(spec, peers);
            && cells != [] && |cells| == 1 + |Others(peers, cells[0].peer)|
            && cells[0].peer == (if spec.speaker == "" then peers[0] else spec.speaker)
            && cells[0].x == 0.0 && cells[0].y == 0.0 && cells[0].w == spec.width as real
            && cells[0].h == spec.height as real * 0.8 && cells[0].z == 1
  {
    SortKeepsLength(Others(peers, MainSpeaker(spec, peers)));
  }

  lemma SortKeepsLength(s: seq<string>)
    ensures |SortStrings(s)| == |s|
  {
    assert |multiset(SortStrings(s))| == |SortStrings(s)|;
  }

  /** The small pictures lie below it side by side, equally wide, from the left edge of the canvas to the right. */
  lemma ThumbsTouch(spec: Spec, thumbs: seq<string>, i: nat)
    requires i < |thumbs|
    ensures var cells := ThumbCells(spec, thumbs);
            && cells[i].peer == thumbs[i] && cells[i].z == 0
            && cells[i].y == spec.height as real * 0.8 && cells[i].y + cells[i].h == spec.height as real
            && (i == 0 ==> cells[i].x == 0.0)
            && (i + 1 < |thumbs| ==> RightOf(cells[i], cells[i + 1]) && cells[i].w == cells[i + 1].w)
            && (i + 1 == |thumbs| ==> cells[i].x + cells[i].w == spec.width as real)
  {
    EdgeSteps(i, |thumbs|, spec.width);
  }

  /** The small pictures are those of the others, in the order of their ids. */
  lemma SmallPicturesAreSorted(spec: Spec, peers: seq<string>)
    requires peers != [] && spec.mode == ActiveSpeaker
    ensures var owners := Owners(Layout(spec, peers));
            owners != [] && Sorted(owners[1..]) && multiset(owners[1..]) == multiset(peers)[owners[0] := 0]
  {
    ActiveSpeakerOwners(spec, peers);
    SortStringsSorts(Others(peers, MainSpeaker(spec, peers)));
  }

  /** The large picture of lecture mode: the presenter, or the first to join, on the left seven tenths. */
  lemma LectureShows(spec: Spec, peers: seq<string>)
    requires peers != [] && spec.mode == Lecture
    ensures var cells := Layout(spec, peers);
            && cells != [] && Owners(cells[1..]) == Others(peers, cells[0].peer)
            && cells[0].peer == (if spec.presenter == "" then peers[0] else spec.presenter)
            && cells[0].x == 0.0 && cells[0].y == 0.0 && cells[0].w == spec.width as real * 0.7
            && cells[0].h == spec.height as real && cells[0].z == 1
  {
    var others := Others(peers, MainPresenter(spec, peers));
    assert Layout(spec, peers)[1..] == AudienceCells(spec, others);
    assert Owners(AudienceCells(spec, others)) == others;
  }

  /** The audience is to the right of it, one below the other, equally high, from top to bottom of the canvas. */
  lemma AudienceTouches(spec: Spec, others: seq<string>, i: nat)
    requires i < |others|
    ensures var cells := AudienceCells(spec, others);
            && cells[i].peer == others[i] && cells[i].z == 0
            && cells[i].x == spec.width as real * 0.7 && cells[i].x + cells[i].w == spec.width as real
            && (i == 0 ==> cells[i].y == 0.0)
            && (i + 1 < |others| ==> Below(cells[i], cells[i + 1]) && cells[i].h == cells[i + 1].h)
            && (i + 1 == |others| ==> cells[i].y + cells[i].h == spec.height as real)
  {
    EdgeSteps(i, |others|, spec.height);
  }

  /** The two modes are these pictures and no others. */
  lemma LargeAndSmall(spec: Spec, peers: seq<string>)
    requires peers != []
    ensures spec.mode == ActiveSpeaker ==>
              Layout(spec, peers)[1..] == ThumbCells(spec, SortStrings(Others(peers, MainSpeaker(spec, peers))))
    ensures spec.mode == Lecture ==>
              Layout(spec, peers)[1..] == AudienceCells(spec, Others(peers, MainPresenter(spec, peers)))
  {}

  // ----- the join order does not matter -----------------------------------------------------------------

  lemma {:induction false} LeqTotal(a: string, b: string)
    ensures StringLeq(a, b) || StringLeq(b, a)
    ensures StringLeq(a, b) && StringLeq(b, a) ==> a == b
  {
    if a != "" && b != "" && a[0] == b[0] {
      LeqTotal(a[1..], b[1..]);
      assert a == [a[0]] + a[1..] && b == [b[0]] + b[1..];
    }
  }

  lemma {:induction false} LeqTransitive(a: string, b: string, c: string)
    requires StringLeq(a, b) && StringLeq(b, c)
    ensures StringLeq(a, c)
  {
    if a != "" && b != "" && c != "" && a[0] == b[0] == c[0] {
      LeqTransitive(a[1..], b[1..], c[1..]);
    }
  }

  lemma {:induction false} InsertSorts(x: string, s: seq<string>)
    requires Sorted(s)
    ensures Sorted(Insert(x, s))
  {
    if s != [] {
      LeqTotal(x, s[0]);
      if StringLeq(x, s[0]) {
        forall j | 0 <= j < |s| ensures StringLeq(x, s[j]) {
          if j > 0 { LeqTransitive(x, s[0], s[j]); }
        }
      } else {
        InsertSorts(x, s[1..]);
        var rest := Insert(x, s[1..]);
        forall j | 0 <= j < |rest| ensures StringLeq(s[0], rest[j]) {
          assert rest[j] in multiset(rest);
          assert rest[j] == x || rest[j] in s[1..];
        }
      }
    }
  }

  lemma {:induction false} SortStringsSorts(s: seq<string>)
    ensures Sorted(SortStrings(s))
  {
    if s != [] {
      SortStringsSorts(s[1..]);
      InsertSorts(s[0], SortStrings(s[1..]));
    }
  }

  lemma {:induction false} SortedIsUnique(a: seq<string>, b: seq<string>)
    requires Sorted(a) && Sorted(b) && multiset(a) == multiset(b)
    ensures a == b
  {
    assert |multiset(a)| == |a| && |multiset(b)| == |b|;
    if a != [] {
      assert a[0] in multiset(b) && b[0] in multiset(a);
      LeqTotal(a[0], a[0]);
      LeqTotal(a[0], b[0]);
      assert a[0] == b[0];
      assert a == [a[0]] + a[1..] && b == [b[0]] + b[1..];
      assert multiset(a[1..]) == multiset(a) - multiset{a[0]};
      assert multiset(b[1..]) == multiset(b) - multiset{b[0]};
      SortedIsUnique(a[1..], b[1..]);
    }
  }

  /** For a speaker who is known, the picture is the same in whatever order the peers joined. */
  lemma ActiveSpeakerIgnoresJoinOrder(spec: Spec, peers: seq<string>, reordered: seq<string>)
    requires peers != [] && reordered != [] && spec.speaker != ""
    requires multiset(peers) == multiset(reordered)
    ensures ActiveSpeakerCells(spec, peers) == ActiveSpeakerCells(spec, reordered)
  {
    var a, b := Others(peers, spec.speaker), Others(reordered, spec.speaker);
    SortStringsSorts(a);
    SortStringsSorts(b);
    SortedIsUnique(SortStrings(a), SortStrings(b));
  }
}
