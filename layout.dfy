/** What every dot grid of both scripts shares: the rule that classifies day
    `n` against a reference day, and the geometry of a grid filled row by row. */
module Layout {
  import opened Numeric

  /** The three looks of a dot. */
  datatype DayState = Completed | Today | Remaining

  /** One painted dot: its 1-based day, where it goes, and how it looks. */
  datatype Dot<P> = Dot(day: int, place: P, state: DayState)

  /** The rule of every grid loop: days before the reference day are
      completed, the reference day itself is today, later days remain. */
  function Classify(day: int, reference: int): (state: DayState)
    ensures state == Completed <==> day < reference
    ensures state == Today <==> day == reference
    ensures state == Remaining <==> day > reference
  {
    if day < reference then Completed else if day == reference then Today else Remaining
  }

  /** Dot `k` stands for day `k + 1` and is classified against `reference`. */
  ghost predicate ClassifiedDots<P>(dots: seq<Dot<P>>, reference: int) {
    forall k :: 0 <= k < |dots| ==> dots[k].day == k + 1 && dots[k].state == Classify(k + 1, reference)
  }

  /** How many dots look like `s`. */
  function CountState<P>(dots: seq<Dot<P>>, s: DayState): nat {
    if dots == [] then 0
    else CountState(dots[..|dots| - 1], s) + (if dots[|dots| - 1].state == s then 1 else 0)
  }

  function Clamp(x: int, lo: int, hi: int): int
    requires lo <= hi
  {
    Max(lo, Min(x, hi))
  }

  /** In a grid of days `1..n` classified against `reference`, exactly one dot
      is today when `1 <= reference <= n` and none otherwise, `reference - 1`
      dots (clamped to the grid) are completed, and the rest remain. */
  lemma {:induction false} ClassificationCounts<P>(dots: seq<Dot<P>>, reference: int)
    requires ClassifiedDots(dots, reference)
    ensures CountState(dots, Today) == if 1 <= reference <= |dots| then 1 else 0
    ensures CountState(dots, Completed) == Clamp(reference - 1, 0, |dots|)
    ensures CountState(dots, Remaining) == |dots| - Clamp(reference, 0, |dots|)
  {
    if dots != [] {
      ClassificationCounts(dots[..|dots| - 1], reference);
    }
  }

  // ----- Row-major grids -----

  datatype Cell = Cell(row: int, col: int)

  /** Dot `index` of a grid with `cols` columns, filled row by row. */
  function CellOf(index: int, cols: int): (cell: Cell)
    requires cols > 0
    ensures 0 <= cell.col < cols && index == cols * cell.row + cell.col
  {
    Cell(index / cols, index % cols)
  }

  /** `Math.ceil(total / cols)`: the rows a grid of `total` dots needs. */
  function GridRows(total: int, cols: int): (rows: int)
    requires cols > 0
    ensures cols * (rows - 1) < total <= cols * rows
  {
    CeilDiv(total, cols)
  }

  /** Distinct dots get distinct cells. */
  lemma CellOfInjective(i: int, j: int, cols: int)
    requires cols > 0 && CellOf(i, cols) == CellOf(j, cols)
    ensures i == j
  {
    assert i == cols * (i / cols) + i % cols;
    assert j == cols * (j / cols) + j % cols;
  }

  /** Every dot of a grid of `total` dots lands inside its `GridRows` rows and
      `cols` columns. */
  lemma CellInsideGrid(i: int, total: int, cols: int)
    requires cols > 0 && 0 <= i < total
    ensures 0 <= CellOf(i, cols).row < GridRows(total, cols)
    ensures 0 <= CellOf(i, cols).col < cols
  {
    var cell := CellOf(i, cols);
    ProductBound(cols, cell.row, GridRows(total, cols), i);
    ProductBound(cols, -1, cell.row, -cols);
  }

  lemma ProductBound(k: int, a: int, b: int, x: int)
    requires k > 0 && k * a <= x < k * b
    ensures a < b
  {
    if a >= b {
      MulMono(k, b, a);
    }
  }

  /** A year fills 27 rows of 14, 13 rows of 30 and 18 rows of 21 dots. */
  lemma YearGridRows(totalDays: int)
    requires totalDays == 365 || totalDays == 366
    ensures GridRows(totalDays, 14) == 27
    ensures GridRows(totalDays, 30) == 13
    ensures GridRows(totalDays, 21) == 18
  {
  }

  // ----- Dot sizes and centring -----

  /** `Math.round(dotSize * 0.5)`: half the dot size, rounded up on a tie. */
  function DotGap(dotSize: nat): (gap: nat)
    ensures dotSize <= 2 * gap <= dotSize + 1
  {
    (dotSize + 1) / 2
  }

  /** Extent of `count` dots separated by `count - 1` gaps. */
  function GridSpan(count: int, dotSize: int, gap: int): int {
    count * (dotSize + gap) - gap
  }

  /** The offset that leaves equal margins around `span` in `extent`:
      `(extent - span) / 2`. */
  function CentredStart(extent: int, span: int): real {
    (extent - span) as real / 2.0
  }

  /** The centre of dot `index` along one axis of a grid starting at `start`. */
  function DotCentre(start: real, index: int, dotSize: int, gap: int): real {
    start + (index * (dotSize + gap)) as real + dotSize as real / 2.0
  }

  /** A centred grid leaves equal margins, and dot `i` and dot `count - 1 - i`
      mirror each other about the middle of the extent. */
  lemma CentredGridIsSymmetric(extent: int, count: int, dotSize: int, gap: int, i: int)
    requires 0 <= i < count
    ensures 2.0 * CentredStart(extent, GridSpan(count, dotSize, gap)) + GridSpan(count, dotSize, gap) as real == extent as real
    ensures var start := CentredStart(extent, GridSpan(count, dotSize, gap));
      DotCentre(start, i, dotSize, gap) + DotCentre(start, count - 1 - i, dotSize, gap) == extent as real
  {
    var step := dotSize + gap;
    assert i * step + (count - 1 - i) * step == count * step - step;
  }
}
