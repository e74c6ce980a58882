/**
 * The animated logo: an 8 by 8 grid of cells drawing the letter P, whose
 * cells appear one by one in a random order.
 */
module Logo {
  import opened Text
  import opened Collections

  /** The letter P on the grid: 1 marks a cell of the letter, 0 the background. */
  const Grid: seq<seq<int>> := [
    [0, 0, 0, 0, 0, 0, 0, 0],
    [0, 0, 1, 1, 1, 1, 0, 0],
    [0, 0, 1, 0, 0, 1, 0, 0],
    [0, 0, 1, 0, 0, 1, 0, 0],
    [0, 0, 1, 1, 1, 1, 0, 0],
    [0, 0, 1, 0, 0, 0, 0, 0],
    [0, 0, 1, 0, 0, 0, 0, 0],
    [0, 0, 0, 0, 0, 0, 0, 0]
  ]

  const Size: nat := 8

  /** One cell of the grid, with the key that identifies it among its siblings. */
  datatype Cell = Cell(row: nat, col: nat, key: string, isPrimary: bool)

  /** The key of the cell at `row`, `col`: `<row>-<col>`. */
  function Key(row: nat, col: nat): string {
    NatToDecimal(row) + "-" + NatToDecimal(col)
  }

  /** The cell at `row`, `col`. */
  function CellAt(row: nat, col: nat): Cell
    requires row < Size && col < Size
  {
    Cell(row, col, Key(row, col), Grid[row][col] == 1)
  }

  /** All cells, row by row, left to right. */
  function AllCells(): (cells: seq<Cell>)
    ensures |cells| == Size * Size
    ensures forall k :: 0 <= k < |cells| ==> cells[k] == CellAt(k / Size, k % Size)
  {
    seq(Size * Size, k requires 0 <= k < Size * Size => CellAt(k / Size, k % Size))
  }

  /** Single-digit keys are three characters: the row digit, a dash, the column digit. */
  lemma KeyShape(row: nat, col: nat)
    requires row < 10 && col < 10
    ensures Key(row, col) == [DigitChar(row), '-', DigitChar(col)]
  {
  }

  /** Cells at different places have different keys. */
  lemma KeysDistinct(i: nat, j: nat)
    requires i < j < |AllCells()|
    ensures AllCells()[i].key != AllCells()[j].key
  {
    var cells := AllCells();
    var ri, ci, rj, cj := i / Size, i % Size, j / Size, j % Size;
    KeyShape(ri, ci);
    KeyShape(rj, cj);
    assert i == Size * ri + ci && j == Size * rj + cj;
    if ri != rj {
      assert cells[i].key[0] != cells[j].key[0];
    } else {
      assert ci != cj;
      assert cells[i].key[2] != cells[j].key[2];
    }
  }

  predicate IsPrimary(c: Cell) {
    c.isPrimary
  }

  /** Whether the `k`-th cell in row-major order is marked on the grid. */
  predicate Marked(k: nat)
    requires k < Size * Size
  {
    Grid[k / Size][k % Size] == 1
  }

  /** The number of marked cells among the first `n` cells in row-major order. */
  function MarkedBefore(n: nat): nat
    requires n <= Size * Size
  {
    if n == 0 then 0 else MarkedBefore(n - 1) + (if Marked(n - 1) then 1 else 0)
  }

  /** The `k`-th cell is primary exactly when the grid marks its place. */
  lemma CellPrimary(k: nat)
    requires k < Size * Size
    ensures IsPrimary(AllCells()[k]) <==> Marked(k)
  {
  }

  /** The first `n` cells hold as many primary cells as the grid has marks there. */
  lemma {:induction false} PrimariesBefore(n: nat)
    requires n <= Size * Size
    ensures Count(AllCells()[..n], IsPrimary) == MarkedBefore(n)
  {
    if n > 0 {
      PrimariesBefore(n - 1);
      CountPrefix(AllCells(), n, IsPrimary);
      CellPrimary(n - 1);
    }
  }

  /** The first half of the grid holds eight marks. */
  lemma UpperMarks()
    ensures MarkedBefore(32) == 8
  {
    assert MarkedBefore(8) == 0;
    assert MarkedBefore(16) == 4;
    assert MarkedBefore(24) == 6;
  }

  /** The whole grid holds fourteen marks. */
  lemma AllMarks()
    ensures MarkedBefore(64) == 14
  {
    UpperMarks();
    assert MarkedBefore(40) == 12;
    assert MarkedBefore(48) == 13;
    assert MarkedBefore(56) == 14;
  }

  /** The letter is drawn by fourteen cells. */
  lemma FourteenPrimaries()
    ensures Count(AllCells(), IsPrimary) == 14
  {
    PrimariesBefore(Size * Size);
    assert AllCells()[..Size * Size] == AllCells();
    AllMarks();
  }

  /** `Math.floor(u * (i + 1))` for a draw `u` of `Math.random()`: an index from 0 to `i`. */
  function PickIndex(u: real, i: nat): (j: nat)
    requires 0.0 <= u < 1.0
    ensures j <= i
  {
    var m := (i + 1) as real;
    var x := u * m;
    assert 0.0 <= x by {
      assert m > 0.0;
    }
    assert x < m by {
      assert m - x == (1.0 - u) * m;
      assert (1.0 - u) * m > 0.0;
    }
    x.Floor
  }

  /** One swap the shuffle made: positions `i` and `j`. */
  datatype Swap = Swap(i: nat, j: nat)

  /**
   * Shuffling a copy of `input` by Fisher and Yates: from the last
   * position down to the second, swap each with a position at or before it
   * chosen by the draw `random(i)`. The copy is a permutation of the input,
   * and the swaps record every exchange, highest position first.
   */
  method Shuffle<T>(input: seq<T>, random: nat -> real) returns (shuffled: seq<T>, swaps: seq<Swap>)
    requires forall i: nat :: 0.0 <= random(i) < 1.0
    ensures |shuffled| == |input| && multiset(shuffled) == multiset(input)
    ensures |swaps| == if |input| == 0 then 0 else |input| - 1
    ensures forall k :: 0 <= k < |swaps| ==> swaps[k].i == |input| - 1 - k && swaps[k].j <= swaps[k].i
  {
    shuffled := input;
    swaps := [];
    if |input| == 0 {
      return;
    }
    var i := |input| - 1;
    while i > 0
      invariant 0 <= i < |input|
      invariant |shuffled| == |input| && multiset(shuffled) == multiset(input)
      invariant |swaps| == |input| - 1 - i
      invariant forall k :: 0 <= k < |swaps| ==> swaps[k].i == |input| - 1 - k && swaps[k].j <= swaps[k].i
    {
      var j := PickIndex(random(i), i);
      var a, b := shuffled[i], shuffled[j];
      shuffled := shuffled[i := b][j := a];
      swaps := swaps + [Swap(i, j)];
      i := i - 1;
    }
  }

  /** However the cells are shuffled, fourteen of them draw the letter. */
  lemma ShuffledCellsKeepLetter(cells: seq<Cell>)
    requires multiset(cells) == multiset(AllCells())
    ensures Count(cells, IsPrimary) == 14
  {
    FourteenPrimaries();
    FilterPermutation(cells, AllCells(), IsPrimary);
  }
}
