/** The flat-top hexagon grid, internal/geo/hexgrid.go: the lattice ranges against the envelope test,
    and why the hexagons tile the plane. */
module HexLattice {

  /** A grid cell with its centre. */
  datatype Hex = Hex(col: int, row: int, x: real, y: real)

  datatype Point = Point(x: real, y: real)

  datatype Box = Box(minX: real, minY: real, maxX: real, maxY: real) {
    predicate Contains(p: Point) {
      minX <= p.x <= maxX && minY <= p.y <= maxY
    }
  }

  /** Edge length and height of every hexagon; the height is sqrt(3) times the edge. */
  datatype Shape = Shape(edge: real, height: real)

  ghost predicate ValidShape(s: Shape) {
    s.edge > 0.0 && s.height > 0.0
  }

  /** The cell of the lattice at a column and row: odd columns are half a row further up. */
  function HexAt(s: Shape, col: int, row: int): Hex {
    Hex(col, row, Times(col, 1.5 * s.edge),
        Times(row, s.height) + if col % 2 != 0 then s.height / 2.0 else 0.0)
  }

  function Times(n: int, d: real): real {
    n as real * d
  }

  /** The cell's envelope touches the box. */
  predicate Touches(s: Shape, b: Box, hex: Hex) {
    && hex.x + s.edge >= b.minX && hex.x - s.edge <= b.maxX
    && hex.y + s.height / 2.0 >= b.minY && hex.y - s.height / 2.0 <= b.maxY
  }

  /** hexPolygon's six vertices, at angles 0, 60, ... 300 degrees. */
  function Vertices(s: Shape, x: real, y: real): (ring: seq<Point>)
    ensures |ring| == 6
  {
    [Point(x + s.edge, y), Point(x + s.edge / 2.0, y + s.height / 2.0), Point(x - s.edge / 2.0, y + s.height / 2.0),
     Point(x - s.edge, y), Point(x - s.edge / 2.0, y - s.height / 2.0), Point(x + s.edge / 2.0, y - s.height / 2.0)]
  }

  /** q is no further left, right, down or up than the vertices of the hexagon. */
  ghost predicate Enveloped(s: Shape, hex: Hex, q: Point) {
    var ring := Vertices(s, hex.x, hex.y);
    && (exists i, j :: 0 <= i < 6 && 0 <= j < 6 && ring[i].x <= q.x <= ring[j].x)
    && (exists i, j :: 0 <= i < 6 && 0 <= j < 6 && ring[i].y <= q.y <= ring[j].y)
  }

  /** The hexagon's envelope and the box have a point in common. */
  ghost predicate Meets(s: Shape, b: Box, hex: Hex) {
    exists q: Point :: b.Contains(q) && Enveloped(s, hex, q)
  }

  /** Columns are one and a half edges apart and rows a height, and odd columns are half a height further up. */
  ghost predicate Centred(s: Shape, hex: Hex) {
    && hex.x == hex.col as real * (1.5 * s.edge)
    && hex.y == (if hex.col % 2 == 0 then hex.row as real else hex.row as real + 0.5) * s.height
  }

  lemma CentreOf(s: Shape, col: int, row: int)
    ensures Centred(s, HexAt(s, col, row))
  {
    assert (row as real + 0.5) * s.height == row as real * s.height + s.height / 2.0;
  }

  lemma EnvelopedIff(s: Shape, hex: Hex, q: Point)
    requires ValidShape(s)
    ensures Enveloped(s, hex, q) <==>
            && hex.x - s.edge <= q.x <= hex.x + s.edge
            && hex.y - s.height / 2.0 <= q.y <= hex.y + s.height / 2.0
  {
    var ring := Vertices(s, hex.x, hex.y);
    assert ring[3].x == hex.x - s.edge && ring[0].x == hex.x + s.edge;
    assert ring[4].y == hex.y - s.height / 2.0 && ring[1].y == hex.y + s.height / 2.0;
    assert forall i :: 0 <= i < 6 ==>
        hex.x - s.edge <= ring[i].x <= hex.x + s.edge &&
        hex.y - s.height / 2.0 <= ring[i].y <= hex.y + s.height / 2.0;
  }

  lemma TouchesIff(s: Shape, b: Box, hex: Hex)
    requires ValidShape(s) && b.minX <= b.maxX && b.minY <= b.maxY
    ensures Touches(s, b, hex) <==> Meets(s, b, hex)
  {
    hide Enveloped;
    if Touches(s, b, hex) {
      var q := Point(if hex.x - s.edge > b.minX then hex.x - s.edge else b.minX,
                     if hex.y - s.height / 2.0 > b.minY then hex.y - s.height / 2.0 else b.minY);
      EnvelopedIff(s, hex, q);
      assert b.Contains(q);
    }
    if q: Point :| b.Contains(q) && Enveloped(s, hex, q) {
      EnvelopedIff(s, hex, q);
    }
  }

  // ------------------------------------------------------------------ ranges

  function Ceil(x: real): int {
    -(-x).Floor
  }

  lemma QuotientBelow(a: real, d: real, m: real, md: real)
    requires d > 0.0 && md == m * d && a < md
    ensures a / d < m
  {
    var q := a / d;
    assert q * d == a;
    if q >= m {
      assert q * d >= m * d;
    }
  }

  lemma QuotientAtLeast(a: real, d: real, m: real, md: real)
    requires d > 0.0 && md == m * d && md <= a
    ensures m <= a / d
  {
    var q := a / d;
    assert q * d == a;
    if q < m {
      assert q * d < m * d;
    }
  }

  lemma AtLeastStart(a: real, d: real, n: int)
    requires d > 0.0 && Times(n, d) + d / 2.0 >= a
    ensures (a / d).Floor <= n
  {
    QuotientBelow(a, d, n as real + 1.0, Times(n, d) + d);
  }

  lemma AtMostEnd(a: real, d: real, n: int)
    requires d > 0.0 && Times(n, d) <= a
    ensures n <= Ceil(a / d)
  {
    QuotientAtLeast(a, d, n as real, Times(n, d));
  }

  lemma StartBeforeEnd(a: real, b: real, d: real)
    requires d > 0.0 && a <= b
    ensures (a / d).Floor <= Ceil(b / d)
  {
    var q, r := a / d, b / d;
    if q > r {
      assert q * d > r * d;
    }
  }

  datatype Ranges = Ranges(startCol: int, endCol: int, startRow: int, endRow: int)

  function RangesOf(s: Shape, b: Box): Ranges
    requires s.edge > 0.0 && s.height > 0.0
  {
    var colSpacing := 1.5 * s.edge;
    Ranges(((b.minX - s.edge) / colSpacing).Floor, Ceil((b.maxX + s.edge) / colSpacing),
           ((b.minY - s.height / 2.0) / s.height).Floor, Ceil((b.maxY + s.height / 2.0) / s.height))
  }

  /** The floor and ceil ranges miss no cell that touches the box, in even or odd columns. */
  lemma RangesMissNothing(s: Shape, b: Box, col: int, row: int)
    requires ValidShape(s) && Touches(s, b, HexAt(s, col, row))
    ensures var r := RangesOf(s, b); r.startCol <= col <= r.endCol && r.startRow <= row <= r.endRow
  {
    hide Times;
    AtLeastStart(b.minX - s.edge, 1.5 * s.edge, col);
    AtMostEnd(b.maxX + s.edge, 1.5 * s.edge, col);
    AtLeastStart(b.minY - s.height / 2.0, s.height, row);
    AtMostEnd(b.maxY + s.height / 2.0, s.height, row);
  }

  // -------------------------------------------------------------------- grid

  ghost predicate Before(a: Hex, b: Hex) {
    a.col < b.col || (a.col == b.col && a.row < b.row)
  }

  /** Columns in order, and rows in order within a column: no cell is listed twice. */
  ghost predicate Ordered(hexes: seq<Hex>) {
    forall i, j :: 0 <= i < j < |hexes| ==> Before(hexes[i], hexes[j])
  }

  /** The cells of the range before (col, row) that touch the box, and no others. */
  ghost predicate Listed(s: Shape, b: Box, r: Ranges, hexes: seq<Hex>, col: int, row: int) {
    && Ordered(hexes)
    && (forall i :: 0 <= i < |hexes| ==>
          hexes[i] == HexAt(s, hexes[i].col, hexes[i].row) && Touches(s, b, hexes[i]) &&
            Before(hexes[i], HexAt(s, col, row)))
    && (forall c, w ::
          (r.startCol <= c && r.startRow <= w <= r.endRow && Before(HexAt(s, c, w), HexAt(s, col, row)) &&
           Touches(s, b, HexAt(s, c, w))) ==> HexAt(s, c, w) in hexes)
  }

  lemma ListOne(s: Shape, b: Box, r: Ranges, hexes: seq<Hex>, col: int, row: int)
    requires Listed(s, b, r, hexes, col, row)
    ensures Listed(s, b, r, if Touches(s, b, HexAt(s, col, row)) then hexes + [HexAt(s, col, row)] else hexes, col,
                   row + 1)
  {
    hide Touches;
    var hex := HexAt(s, col, row);
    var more := if Touches(s, b, hex) then hexes + [hex] else hexes;
    forall c, w | r.startCol <= c && r.startRow <= w <= r.endRow && Before(HexAt(s, c, w), HexAt(s, col, row + 1)) &&
                  Touches(s, b, HexAt(s, c, w))
      ensures HexAt(s, c, w) in more
    {
      if c == col && w == row {
        assert more == hexes + [hex];
      } else {
        assert HexAt(s, c, w) in hexes;
      }
    }
  }

  lemma ListColumn(s: Shape, b: Box, r: Ranges, hexes: seq<Hex>, col: int)
    requires Listed(s, b, r, hexes, col, r.endRow + 1)
    ensures Listed(s, b, r, hexes, col + 1, r.startRow)
  {
    hide Touches;
  }

  /** HexGrid. Every cell of the infinite lattice whose envelope touches the box is listed, once, and
      nothing else is; the listed hexagons leave no point of the box uncovered. */
  method HexGrid(b: Box, edge: real, root3: real) returns (hexes: seq<Hex>)
    requires root3 > 0.0
    ensures edge <= 0.0 || b.maxX <= b.minX || b.maxY <= b.minY ==> hexes == []
    ensures Ordered(hexes)
    ensures edge > 0.0 && b.maxX > b.minX && b.maxY > b.minY ==>
              var s := Shape(edge, root3 * edge);
              && (forall i :: 0 <= i < |hexes| ==>
                    hexes[i] == HexAt(s, hexes[i].col, hexes[i].row) && Centred(s, hexes[i]) && Meets(s, b, hexes[i]))
              && (forall col, row :: Meets(s, b, HexAt(s, col, row)) ==> HexAt(s, col, row) in hexes)
              && (forall p: Point :: b.Contains(p) ==> exists hex :: hex in hexes && InHexagon(s, hex, p))
  {
    hide Listed, HexAt, InHexagon, RangesOf, Meets, Centred;
    hexes := [];
    if edge <= 0.0 || b.maxX <= b.minX || b.maxY <= b.minY {
      return;
    }
    var s := Shape(edge, root3 * edge);
    var r := RangesOf(s, b);
    ListNothing(s, b);
    for col := r.startCol to r.endCol + 1
      invariant Listed(s, b, r, hexes, col, r.startRow)
    {
      for row := r.startRow to r.endRow + 1
        invariant Listed(s, b, r, hexes, col, row)
      {
        ListOne(s, b, r, hexes, col, row);
        var hex := HexAt(s, col, row);
        if hex.x + edge < b.minX || hex.x - edge > b.maxX || hex.y + s.height / 2.0 < b.minY ||
          hex.y - s.height / 2.0 > b.maxY {
          continue;
        }
        hexes := hexes + [hex];
      }
      ListColumn(s, b, r, hexes, col);
    }
    ListedAll(s, b, hexes);
    forall col, row
      ensures Touches(s, b, HexAt(s, col, row)) <==> Meets(s, b, HexAt(s, col, row))
      ensures Centred(s, HexAt(s, col, row))
    {
      TouchesIff(s, b, HexAt(s, col, row));
      CentreOf(s, col, row);
    }
  }

  lemma ListNothing(s: Shape, b: Box)
    requires ValidShape(s) && b.minX <= b.maxX && b.minY <= b.maxY
    ensures var r := RangesOf(s, b);
            r.startCol <= r.endCol && r.startRow <= r.endRow && Listed(s, b, r, [], r.startCol, r.startRow)
  {
    StartBeforeEnd(b.minX - s.edge, b.maxX + s.edge, 1.5 * s.edge);
    StartBeforeEnd(b.minY - s.height / 2.0, b.maxY + s.height / 2.0, s.height);
  }

  lemma ListedAll(s: Shape, b: Box, hexes: seq<Hex>)
    requires ValidShape(s) && Listed(s, b, RangesOf(s, b), hexes, RangesOf(s, b).endCol + 1, RangesOf(s, b).startRow)
    ensures Ordered(hexes)
    ensures forall i :: 0 <= i < |hexes| ==> hexes[i] == HexAt(s, hexes[i].col, hexes[i].row) && Touches(s, b, hexes[i])
    ensures forall col, row :: Touches(s, b, HexAt(s, col, row)) ==> HexAt(s, col, row) in hexes
    ensures forall p: Point :: b.Contains(p) ==> exists hex :: hex in hexes && InHexagon(s, hex, p)
  {
    hide Touches, InHexagon, RangesOf;
    forall col, row | Touches(s, b, HexAt(s, col, row))
      ensures HexAt(s, col, row) in hexes
    {
      RangesMissNothing(s, b, col, row);
    }
    forall p: Point | b.Contains(p)
      ensures exists hex :: hex in hexes && InHexagon(s, hex, p)
    {
      HexagonsCover(s, p);
      var col, row :| InHexagon(s, HexAt(s, col, row), p);
      HexagonInEnvelope(s, b, HexAt(s, col, row), p);
    }
  }

  // ------------------------------------------------------------------ tiling

  /** Positive when p is to the left of the line from a to b. */
  function Side(a: Point, b: Point, p: Point): real {
    (b.x - a.x) * (p.y - a.y) - (b.y - a.y) * (p.x - a.x)
  }

  /** Positive when p is on the inner side of side i of the hexagon. */
  function Inward(s: Shape, hex: Hex, i: nat, p: Point): real
    requires i < 6
  {
    var ring := Vertices(s, hex.x, hex.y);
    Side(ring[i], ring[if i == 5 then 0 else i + 1], p)
  }

  /** p is in the closed hexagon. */
  ghost predicate InHexagon(s: Shape, hex: Hex, p: Point) {
    forall i :: 0 <= i < 6 ==> Inward(s, hex, i, p) >= 0.0
  }

  /** p is in the open hexagon. */
  ghost predicate InsideHexagon(s: Shape, hex: Hex, p: Point) {
    forall i :: 0 <= i < 6 ==> Inward(s, hex, i, p) > 0.0
  }

  /** With the height sqrt(3) times the edge, all sides and all radii equal the edge. */
  lemma HexagonIsRegular(edge: real, root3: real, x: real, y: real, i: nat)
    requires root3 * root3 == 3.0 && i < 6
    ensures var ring := Vertices(Shape(edge, root3 * edge), x, y);
            Distance2(ring[i], ring[if i == 5 then 0 else i + 1]) == edge * edge == Distance2(Point(x, y), ring[i])
  {
    var h := root3 * edge;
    assert h * h == 3.0 * (edge * edge) by {
      assert h * h == (root3 * root3) * (edge * edge);
    }
  }

  function Distance2(a: Point, b: Point): real {
    (a.x - b.x) * (a.x - b.x) + (a.y - b.y) * (a.y - b.y)
  }

  function Abs(x: real): real {
    if x < 0.0 then -x else x
  }

  function Mul(a: real, b: real): real {
    a * b
  }

  lemma MulSum(k: real, a: real, b: real)
    ensures Mul(k, a) + Mul(k, b) == Mul(k, a + b)
  {
  }

  lemma MulParts(k: real, a: real)
    ensures Mul(k, 1.5 * a) == 1.5 * Mul(k, a) && Mul(k, 3.0 * a) == 3.0 * Mul(k, a) &&
            Mul(k, a / 2.0) == Mul(k, a) / 2.0
    ensures Mul(a, k) == Mul(k, a)
  {
  }

  lemma MulAbs(k: real, d: real)
    requires k > 0.0
    ensures Mul(k, Abs(d)) == Abs(Mul(k, d))
  {
  }

  lemma MulOrder(k: real, a: real, b: real)
    requires k > 0.0
    ensures a <= b <==> Mul(k, a) <= Mul(k, b)
    ensures a < b <==> Mul(k, a) < Mul(k, b)
  {
    var gap := b - a;
    assert Mul(k, b) - Mul(k, a) == k * gap;
  }

  /** How far out p lies towards the slanted sides: edge * height on them. */
  function Slant(s: Shape, hex: Hex, p: Point): real {
    Mul(s.height, Abs(p.x - hex.x)) + Mul(s.edge, Abs(p.y - hex.y))
  }

  lemma SideFromCentre(x: real, y: real, a: real, b: real, c: real, d: real, p: Point)
    ensures Side(Point(x + a, y + b), Point(x + c, y + d), p) == (c - a) * (p.y - y - b) - (d - b) * (p.x - x - a)
  {
  }

  lemma Inwards(s: Shape, hex: Hex, p: Point)
    ensures var full, hx, ey := Mul(s.edge, s.height), Mul(s.height, p.x - hex.x), Mul(s.edge, p.y - hex.y);
            && 2.0 * Inward(s, hex, 0, p) == full - hx - ey
            && Inward(s, hex, 1, p) == full / 2.0 - ey
            && 2.0 * Inward(s, hex, 2, p) == full + hx - ey
            && 2.0 * Inward(s, hex, 3, p) == full + hx + ey
            && Inward(s, hex, 4, p) == full / 2.0 + ey
            && 2.0 * Inward(s, hex, 5, p) == full - hx + ey
  {
    var e, h := s.edge, s.height;
    var x, y := hex.x, hex.y;
    SideFromCentre(x, y, e, 0.0, e / 2.0, h / 2.0, p);
    SideFromCentre(x, y, e / 2.0, h / 2.0, -e / 2.0, h / 2.0, p);
    SideFromCentre(x, y, -e / 2.0, h / 2.0, -e, 0.0, p);
    SideFromCentre(x, y, -e, 0.0, -e / 2.0, -h / 2.0, p);
    SideFromCentre(x, y, -e / 2.0, -h / 2.0, e / 2.0, -h / 2.0, p);
    SideFromCentre(x, y, e / 2.0, -h / 2.0, e, 0.0, p);
  }

  /** The hexagon by its two widths. */
  lemma HexagonBySlant(s: Shape, hex: Hex, p: Point)
    requires ValidShape(s)
    ensures InHexagon(s, hex, p) <==>
            Slant(s, hex, p) <= Mul(s.edge, s.height) && Abs(p.y - hex.y) <= s.height / 2.0
    ensures InsideHexagon(s, hex, p) <==>
            Slant(s, hex, p) < Mul(s.edge, s.height) && Abs(p.y - hex.y) < s.height / 2.0
  {
    hide Inward, Mul;
    var dx, dy := p.x - hex.x, p.y - hex.y;
    Inwards(s, hex, p);
    MulAbs(s.height, dx);
    MulAbs(s.edge, dy);
    MulOrder(s.edge, Abs(dy), s.height / 2.0);
    MulParts(s.edge, s.height);
  }

  /** Half a row further up, alternately in even and odd columns. */
  lemma CentreByHalfRow(s: Shape, col: int, half: int)
    requires col % 2 == half % 2
    ensures HalfRowHex(s, col, half).y == Times(half, s.height / 2.0)
  {
    var row, odd := if half % 2 == 0 then half / 2 else (half - 1) / 2, half % 2;
    assert half == 2 * row + odd;
    HalfRows(row, odd, s.height);
  }

  lemma HalfRows(row: int, odd: int, height: real)
    requires odd == 0 || odd == 1
    ensures Times(2 * row + odd, height / 2.0) == Times(row, height) + if odd == 1 then height / 2.0 else 0.0
  {
    var r := row as real;
    assert (2 * row) as real == 2.0 * r;
    assert (2 * row + odd) as real == 2.0 * r + odd as real;
    assert (2.0 * r) * (height / 2.0) == r * height;
  }

  /** Some lattice line lies at or before x, and the next one after it. */
  lemma Straddle(x: real, d: real) returns (n: int)
    requires d > 0.0
    ensures Times(n, d) <= x < Times(n + 1, d) && Times(n + 1, d) == Times(n, d) + d
  {
    n := (x / d).Floor;
    TimesNext(n, d);
    if Times(n, d) > x {
      QuotientBelow(x, d, n as real, Times(n, d));
    }
    if x >= Times(n + 1, d) {
      QuotientAtLeast(x, d, (n + 1) as real, Times(n + 1, d));
    }
  }

  lemma TimesNext(n: int, d: real)
    ensures Times(n + 1, d) == Times(n, d) + d
  {
    assert (n + 1) as real == n as real + 1.0;
    assert (n as real + 1.0) * d == n as real * d + d;
  }

  function HalfRowHex(s: Shape, col: int, half: int): Hex {
    HexAt(s, col, if half % 2 == 0 then half / 2 else (half - 1) / 2)
  }

  /** Two neighbouring columns whose nearest centres lie half a row apart leave no gap. */
  lemma OneOfTwoHolds(s: Shape, p: Point, left: Hex, right: Hex)
    requires ValidShape(s) && right.x == left.x + 1.5 * s.edge && left.x <= p.x <= right.x
    requires Abs(p.y - left.y) + Abs(p.y - right.y) == s.height / 2.0
    ensures InHexagon(s, left, p) || InHexagon(s, right, p)
  {
    hide InHexagon, InsideHexagon, Mul;
    HexagonBySlant(s, left, p);
    HexagonBySlant(s, right, p);
    MulSum(s.height, p.x - left.x, right.x - p.x);
    MulSum(s.edge, Abs(p.y - left.y), Abs(p.y - right.y));
    MulParts(s.height, s.edge);
    MulParts(s.edge, s.height);
  }

  /** The hexagons leave no gap: every point of the plane is in one. */
  lemma HexagonsCover(s: Shape, p: Point)
    requires ValidShape(s)
    ensures exists col, row :: InHexagon(s, HexAt(s, col, row), p)
  {
    hide InHexagon, Times;
    var col := Straddle(p.x, 1.5 * s.edge);
    var half := Straddle(p.y, s.height / 2.0);
    var near, far := if col % 2 == half % 2 then half else half + 1, if col % 2 == half % 2 then half + 1 else half;
    CentreByHalfRow(s, col, near);
    CentreByHalfRow(s, col + 1, far);
    var left, right := HalfRowHex(s, col, near), HalfRowHex(s, col + 1, far);
    OneOfTwoHolds(s, p, left, right);
    assert InHexagon(s, HexAt(s, left.col, left.row), p) || InHexagon(s, HexAt(s, right.col, right.row), p);
  }

  lemma HexagonInEnvelope(s: Shape, b: Box, hex: Hex, p: Point)
    requires ValidShape(s) && InHexagon(s, hex, p) && b.Contains(p)
    ensures Touches(s, b, hex)
  {
    hide InHexagon, InsideHexagon, Mul;
    HexagonBySlant(s, hex, p);
    MulSum(s.edge, 0.0, 0.0);
    MulOrder(s.edge, 0.0, Abs(p.y - hex.y));
    MulOrder(s.height, Abs(p.x - hex.x), s.edge);
    MulParts(s.height, s.edge);
  }

  /** The hexagons do not overlap: a point inside one is in no other, not even on its border. */
  lemma HexagonsDisjoint(s: Shape, col: int, row: int, col2: int, row2: int, p: Point)
    requires ValidShape(s) && InsideHexagon(s, HexAt(s, col, row), p) && InHexagon(s, HexAt(s, col2, row2), p)
    ensures col == col2 && row == row2
  {
    hide InHexagon, InsideHexagon, Mul, Slant, Times, Close;
    var a, b := HexAt(s, col, row), HexAt(s, col2, row2);
    HexagonBySlant(s, a, p);
    HexagonBySlant(s, b, p);
    Apart(s, a, b, p);
    ColumnsApart(s, col, row, col2, row2);
  }

  /** Centres of overlapping hexagons are close: closer than two edges across, and closer still on a slant. */
  lemma Apart(s: Shape, a: Hex, b: Hex, p: Point)
    requires ValidShape(s)
    requires Slant(s, a, p) < Mul(s.edge, s.height) && Abs(p.y - a.y) < s.height / 2.0
    requires Slant(s, b, p) <= Mul(s.edge, s.height) && Abs(p.y - b.y) <= s.height / 2.0
    ensures Close(s, a, b)
  {
    hide Mul;
    var aAcross, bAcross, aUp, bUp := Abs(p.x - a.x), Abs(p.x - b.x), Abs(p.y - a.y), Abs(p.y - b.y);
    MulSum(s.height, aAcross, bAcross);
    MulSum(s.edge, aUp, bUp);
    MulOrder(s.height, Abs(a.x - b.x), aAcross + bAcross);
    MulOrder(s.edge, Abs(a.y - b.y), aUp + bUp);
  }

  ghost predicate Close(s: Shape, a: Hex, b: Hex) {
    && Abs(a.y - b.y) < s.height
    && Mul(s.height, Abs(a.x - b.x)) + Mul(s.edge, Abs(a.y - b.y)) < 2.0 * Mul(s.edge, s.height)
  }

  lemma TimesFar(n: int, d: real)
    requires d > 0.0
    ensures n >= 2 ==> Times(n, d) >= 2.0 * d
    ensures n >= 1 ==> Times(n, d) >= d
    ensures n <= -1 ==> Times(n, d) <= -d
    ensures n <= -2 ==> Times(n, d) <= -2.0 * d
  {
    var m := n as real;
    if n >= 2 { TimesOrder(2.0, m, d, Times(n, d)); }
    if n >= 1 { TimesOrder(1.0, m, d, Times(n, d)); }
    if n <= -1 { TimesOrder(1.0, -m, d, -Times(n, d)); }
    if n <= -2 { TimesOrder(2.0, -m, d, -Times(n, d)); }
  }

  lemma TimesOrder(a: real, b: real, d: real, bd: real)
    requires a <= b && d > 0.0 && bd == b * d
    ensures a * d <= bd
  {
    var gap := b - a;
    assert gap * d >= 0.0;
  }

  lemma TimesDifference(n: int, m: int, d: real)
    ensures Times(n, d) - Times(m, d) == Times(n - m, d)
  {
  }

  /** Distinct lattice centres are far apart, one way or the other. */
  lemma ColumnsApart(s: Shape, col: int, row: int, col2: int, row2: int)
    requires ValidShape(s) && Close(s, HexAt(s, col, row), HexAt(s, col2, row2))
    ensures col == col2 && row == row2
  {
    hide Times, Mul;
    var a, b := HexAt(s, col, row), HexAt(s, col2, row2);
    TimesDifference(col, col2, 1.5 * s.edge);
    TimesDifference(row, row2, s.height);
    TimesFar(col - col2, 1.5 * s.edge);
    TimesFar(row - row2, s.height);
    var dx, dy := Abs(a.x - b.x), Abs(a.y - b.y);
    MulParts(s.height, s.edge);
    MulParts(s.edge, s.height);
    MulOrder(s.edge, 0.0, dy);
    MulOrder(s.edge, 0.0, s.height);
    MulSum(s.edge, 0.0, 0.0);
    if col - col2 >= 2 || col - col2 <= -2 {
      MulOrder(s.height, 3.0 * s.edge, dx);
    } else if col != col2 {
      MulOrder(s.height, 1.5 * s.edge, dx);
      assert col % 2 != 0 <==> col2 % 2 == 0;
      HalfApart(s, row - row2, if col % 2 != 0 then 1 else -1, dy);
      MulOrder(s.edge, s.height / 2.0, dy);
    }
  }

  /** Rows of neighbouring columns differ by an odd number of half rows. */
  lemma HalfApart(s: Shape, n: int, sign: int, dy: real)
    requires ValidShape(s) && (sign == 1 || sign == -1) &&
             dy == Abs(Times(n, s.height) + sign as real * (s.height / 2.0))
    ensures dy >= s.height / 2.0
  {
    hide Times;
    TimesFar(n, s.height);
    if n == 0 {
      assert Times(0, s.height) == 0.0 by { TimesDifference(0, 0, s.height); }
    }
  }
}
