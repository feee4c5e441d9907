/**
 * The Minesweeper app: the difficulty table, the empty board, mine placement
 * around the first click with the neighbour counts, the recursive reveal,
 * clicking and flagging cells, the win and loss checks and the timer.
 *
 * The board is a grid of cell records that every handler copies and
 * replaces, so it is a value of type `seq<seq<Cell>>` here. The random mine
 * coordinates are an oracle: a sequence of draws, each inside the grid.
 */
module Minesweeper {
  datatype Cell = Cell(isMine: bool, isRevealed: bool, isFlagged: bool, adjacentMines: nat)

  datatype Status = Playing | Won | Lost

  datatype Difficulty = Beginner | Intermediate | Expert

  /** One row of `DIFFICULTIES`; the cell size is presentation and left out. */
  datatype Level = Level(rows: nat, cols: nat, mines: nat)

  /**
   * `DIFFICULTIES`: 9×9 with 10 mines, 16×16 with 40, 16×30 with 99. Every
   * board is at least 3×3 and leaves room for its mines outside the nine
   * cells around any first click.
   */
  function Settings(d: Difficulty): (l: Level)
    ensures l.rows >= 3 && l.cols >= 3 && l.mines > 0
    ensures l.mines + 9 <= l.rows * l.cols
    ensures d == Beginner ==> l.rows * l.cols == 81
  {
    match d
    case Beginner => Level(9, 9, 10)
    case Intermediate => Level(16, 16, 40)
    case Expert => Level(16, 30, 99)
  }

  type Board = seq<seq<Cell>>

  predicate IsGrid(b: Board, rows: nat, cols: nat) {
    |b| == rows && forall r :: 0 <= r < rows ==> |b[r]| == cols
  }

  predicate InBounds(r: int, c: int, rows: nat, cols: nat) {
    0 <= r < rows && 0 <= c < cols
  }

  /** Cell `(nr, nc)` is one of the eight around `(r, c)`. */
  predicate Near(r: int, c: int, nr: int, nc: int) {
    -1 <= nr - r <= 1 && -1 <= nc - c <= 1 && (nr != r || nc != c)
  }

  const Untouched := Cell(false, false, false, 0)

  /** The board `initializeBoard` builds: no mine, hidden, unflagged, count 0. */
  function EmptyBoard(rows: nat, cols: nat): (b: Board)
    ensures IsGrid(b, rows, cols)
    ensures forall r, c :: 0 <= r < rows && 0 <= c < cols ==> b[r][c] == Untouched
  {
    seq(rows, _ => seq(cols, _ => Untouched))
  }

  // ---------------------------------------------------------------- counting cells

  /** What `filter` looks for in a cell. */
  datatype Trait = Mine | Flag | Hidden | HiddenSafe

  predicate Has(x: Cell, t: Trait) {
    match t
    case Mine => x.isMine
    case Flag => x.isFlagged
    case Hidden => !x.isRevealed
    case HiddenSafe => !x.isRevealed && !x.isMine
  }

  function RowTally(row: seq<Cell>, t: Trait): nat {
    if |row| == 0 then 0 else RowTally(row[..|row| - 1], t) + (if Has(row[|row| - 1], t) then 1 else 0)
  }

  /** How many cells of the board have trait `t`: `board.flat().filter(...).length`. */
  function Tally(b: Board, t: Trait): nat {
    if |b| == 0 then 0 else Tally(b[..|b| - 1], t) + RowTally(b[|b| - 1], t)
  }

  lemma {:induction false} RowTallyUpdate(row: seq<Cell>, c: nat, x: Cell, t: Trait)
    requires c < |row|
    ensures RowTally(row[c := x], t) + (if Has(row[c], t) then 1 else 0) == RowTally(row, t) + (if Has(x, t) then 1 else 0)
    decreases |row|
  {
    var n := |row| - 1;
    if c < n {
      assert row[c := x][..n] == row[..n][c := x];
      RowTallyUpdate(row[..n], c, x, t);
    } else {
      assert row[c := x][..n] == row[..n];
    }
  }

  lemma {:induction false} TallyRowUpdate(b: Board, r: nat, row: seq<Cell>, t: Trait)
    requires r < |b|
    ensures Tally(b[r := row], t) + RowTally(b[r], t) == Tally(b, t) + RowTally(row, t)
    decreases |b|
  {
    var n := |b| - 1;
    if r < n {
      assert b[r := row][..n] == b[..n][r := row];
      TallyRowUpdate(b[..n], r, row, t);
    } else {
      assert b[r := row][..n] == b[..n];
    }
  }

  /** Replacing one cell trades its trait for the new cell's. */
  lemma TallyUpdate(b: Board, r: nat, c: nat, x: Cell, t: Trait)
    requires r < |b| && c < |b[r]|
    ensures Tally(b[r := b[r][c := x]], t) + (if Has(b[r][c], t) then 1 else 0) == Tally(b, t) + (if Has(x, t) then 1 else 0)
  {
    TallyRowUpdate(b, r, b[r][c := x], t);
    RowTallyUpdate(b[r], c, x, t);
  }

  lemma {:induction false} RowTallyZero(row: seq<Cell>, t: Trait)
    ensures RowTally(row, t) == 0 <==> forall c :: 0 <= c < |row| ==> !Has(row[c], t)
    decreases |row|
  {
    if |row| > 0 {
      RowTallyZero(row[..|row| - 1], t);
    }
  }

  /** No cell has the trait exactly when the tally is zero. */
  lemma {:induction false} TallyZero(b: Board, t: Trait)
    ensures Tally(b, t) == 0 <==> forall r, c :: 0 <= r < |b| && 0 <= c < |b[r]| ==> !Has(b[r][c], t)
    decreases |b|
  {
    if |b| > 0 {
      var n := |b| - 1;
      TallyZero(b[..n], t);
      RowTallyZero(b[n], t);
      if Tally(b, t) != 0 {
        if RowTally(b[n], t) == 0 {
          var r, c :| 0 <= r < n && 0 <= c < |b[..n][r]| && Has(b[..n][r][c], t);
          assert Has(b[r][c], t);
        }
      }
    }
  }

  lemma {:induction false} RowTallyLe(a: seq<Cell>, b: seq<Cell>, t: Trait)
    requires |a| == |b| && forall c :: 0 <= c < |b| && Has(b[c], t) ==> Has(a[c], t)
    ensures RowTally(b, t) <= RowTally(a, t)
    decreases |a|
  {
    if |a| > 0 {
      RowTallyLe(a[..|a| - 1], b[..|b| - 1], t);
    }
  }

  /** A board whose cells have the trait only where another's do has no larger tally. */
  lemma {:induction false} TallyLe(a: Board, b: Board, t: Trait)
    requires |a| == |b| && forall r :: 0 <= r < |a| ==> |a[r]| == |b[r]|
    requires forall r, c :: 0 <= r < |b| && 0 <= c < |b[r]| && Has(b[r][c], t) ==> Has(a[r][c], t)
    ensures Tally(b, t) <= Tally(a, t)
    decreases |a|
  {
    if |a| > 0 {
      var n := |a| - 1;
      TallyLe(a[..n], b[..n], t);
      RowTallyLe(a[n], b[n], t);
    }
  }

  // ---------------------------------------------------------------- neighbour counts

  /** Cell `(r, c)` is on the board and holds a mine. */
  predicate MineAt(b: Board, rows: nat, cols: nat, r: int, c: int)
    requires IsGrid(b, rows, cols)
  {
    InBounds(r, c, rows, cols) && b[r][c].isMine
  }

  /** The `j`-th of the nine cells around and including `(r, c)`, row by row, counted if it is a mine. */
  function Term(b: Board, rows: nat, cols: nat, r: int, c: int, j: nat): nat
    requires IsGrid(b, rows, cols)
  {
    if MineAt(b, rows, cols, r + j / 3 - 1, c + j % 3 - 1) then 1 else 0
  }

  /** Term `3 * (dr + 1) + (dc + 1)` is the cell at offset `(dr, dc)`. */
  lemma TermAt(b: Board, rows: nat, cols: nat, r: int, c: int, dr: int, dc: int)
    requires IsGrid(b, rows, cols) && -1 <= dr <= 1 && -1 <= dc <= 1
    ensures Term(b, rows, cols, r, c, 3 * (dr + 1) + (dc + 1)) == if MineAt(b, rows, cols, r + dr, c + dc) then 1 else 0
  {
    var j := 3 * (dr + 1) + (dc + 1);
    assert j / 3 - 1 == dr && j % 3 - 1 == dc;
  }

  function CountAround(b: Board, rows: nat, cols: nat, r: int, c: int, k: nat): nat
    requires IsGrid(b, rows, cols) && k <= 9
  {
    if k == 0 then 0 else CountAround(b, rows, cols, r, c, k - 1) + Term(b, rows, cols, r, c, k - 1)
  }

  /** Counting one more of the nine cells adds the cell at offset `(dr, dc)`. */
  lemma CountStep(b: Board, rows: nat, cols: nat, r: int, c: int, dr: int, dc: int)
    requires IsGrid(b, rows, cols) && -1 <= dr <= 1 && -1 <= dc <= 1
    ensures CountAround(b, rows, cols, r, c, 3 * (dr + 1) + (dc + 1) + 1)
      == CountAround(b, rows, cols, r, c, 3 * (dr + 1) + (dc + 1)) + if MineAt(b, rows, cols, r + dr, c + dc) then 1 else 0
  {
    TermAt(b, rows, cols, r, c, dr, dc);
  }

  /** The mines on the board among the 3×3 block centred on `(r, c)`. */
  function NeighbourMines(b: Board, rows: nat, cols: nat, r: int, c: int): nat
    requires IsGrid(b, rows, cols)
  {
    CountAround(b, rows, cols, r, c, 9)
  }

  lemma {:induction false} CountAroundZero(b: Board, rows: nat, cols: nat, r: int, c: int, k: nat)
    requires IsGrid(b, rows, cols) && k <= 9
    ensures CountAround(b, rows, cols, r, c, k) == 0 <==> forall j :: 0 <= j < k ==> Term(b, rows, cols, r, c, j) == 0
    decreases k
  {
    if k > 0 {
      CountAroundZero(b, rows, cols, r, c, k - 1);
    }
  }

  /** The count is zero exactly when no cell of the 3×3 block holds a mine. */
  lemma NoMineAround(b: Board, rows: nat, cols: nat, r: int, c: int)
    requires IsGrid(b, rows, cols)
    ensures NeighbourMines(b, rows, cols, r, c) == 0 <==>
      forall nr, nc :: -1 <= nr - r <= 1 && -1 <= nc - c <= 1 ==> !MineAt(b, rows, cols, nr, nc)
  {
    CountAroundZero(b, rows, cols, r, c, 9);
    if NeighbourMines(b, rows, cols, r, c) == 0 {
      forall nr, nc | -1 <= nr - r <= 1 && -1 <= nc - c <= 1
        ensures !MineAt(b, rows, cols, nr, nc)
      {
        var j := 3 * (nr - r + 1) + (nc - c + 1);
        assert j / 3 - 1 == nr - r && j % 3 - 1 == nc - c;
        assert Term(b, rows, cols, r, c, j) == 0;
      }
    } else {
      var j :| 0 <= j < 9 && Term(b, rows, cols, r, c, j) != 0;
      assert MineAt(b, rows, cols, r + j / 3 - 1, c + j % 3 - 1);
    }
  }

  /** Two boards with mines in the same places. */
  predicate SameMines(a: Board, b: Board, rows: nat, cols: nat)
    requires IsGrid(a, rows, cols) && IsGrid(b, rows, cols)
  {
    forall r, c :: 0 <= r < rows && 0 <= c < cols ==> a[r][c].isMine == b[r][c].isMine
  }

  lemma {:induction false} SameMinesCount(a: Board, b: Board, rows: nat, cols: nat, r: int, c: int, k: nat)
    requires IsGrid(a, rows, cols) && IsGrid(b, rows, cols) && SameMines(a, b, rows, cols) && k <= 9
    ensures CountAround(a, rows, cols, r, c, k) == CountAround(b, rows, cols, r, c, k)
    decreases k
  {
    if k > 0 {
      SameMinesCount(a, b, rows, cols, r, c, k - 1);
    }
  }

  /** Every safe cell shows how many of its neighbours are mines. */
  predicate CountsCorrect(b: Board, rows: nat, cols: nat)
    requires IsGrid(b, rows, cols)
  {
    forall r, c :: 0 <= r < rows && 0 <= c < cols && !b[r][c].isMine ==>
      b[r][c].adjacentMines == NeighbourMines(b, rows, cols, r, c)
  }

  // ---------------------------------------------------------------- placing mines

  /** Cell `(r, c)` lies in the 3×3 block around the first click `(er, ec)`. */
  predicate Excluded(r: int, c: int, er: int, ec: int) {
    -1 <= r - er <= 1 && -1 <= c - ec <= 1
  }

  /**
   * `placeMines`: draws are taken in turn until `mines` have been placed;
   * a draw on a mine or in the block around the first click is skipped.
   * Then every safe cell gets its neighbour count. Nothing is revealed or
   * flagged, and a mine never lands next to the first click.
   */
  method PlaceMines(board: Board, rows: nat, cols: nat, mines: nat, er: int, ec: int, draws: seq<(nat, nat)>)
    returns (nb: Board, placed: nat)
    requires IsGrid(board, rows, cols)
    requires forall k :: 0 <= k < |draws| ==> draws[k].0 < rows && draws[k].1 < cols
    ensures IsGrid(nb, rows, cols) && CountsCorrect(nb, rows, cols)
    ensures placed <= mines && Tally(nb, Mine) == Tally(board, Mine) + placed
    ensures forall r, c :: 0 <= r < rows && 0 <= c < cols ==>
      && nb[r][c].isRevealed == board[r][c].isRevealed
      && nb[r][c].isFlagged == board[r][c].isFlagged
      && (nb[r][c].isMine ==> board[r][c].isMine || !Excluded(r, c, er, ec))
      && (board[r][c].isMine ==> nb[r][c] == board[r][c])
    ensures placed < mines ==> forall k :: 0 <= k < |draws| ==>
      nb[draws[k].0][draws[k].1].isMine || Excluded(draws[k].0, draws[k].1, er, ec)
  {
    nb := board;
    placed := 0;
    var k := 0;
    while placed < mines && k < |draws|
      invariant 0 <= k <= |draws| && placed <= mines
      invariant IsGrid(nb, rows, cols)
      invariant Tally(nb, Mine) == Tally(board, Mine) + placed
      invariant MinedFrom(board, nb, rows, cols, er, ec)
      invariant forall j :: 0 <= j < k ==> nb[draws[j].0][draws[j].1].isMine || Excluded(draws[j].0, draws[j].1, er, ec)
    {
      var (r, c) := draws[k];
      if !nb[r][c].isMine && !Excluded(r, c, er, ec) {
        TallyUpdate(nb, r, c, nb[r][c].(isMine := true), Mine);
        MineAdded(board, nb, rows, cols, er, ec, r, c);
        nb := AddMine(nb, r, c);
        placed := placed + 1;
      }
      k := k + 1;
    }
    ghost var mined := nb;
    nb := CountNeighbours(nb, rows, cols);
    SameMinesTally(mined, nb, rows, cols);
  }

  /** `nb` is `board` with extra mines, none of them next to the first click. */
  predicate MinedFrom(board: Board, nb: Board, rows: nat, cols: nat, er: int, ec: int)
    requires IsGrid(board, rows, cols) && IsGrid(nb, rows, cols)
  {
    forall r, c :: 0 <= r < rows && 0 <= c < cols ==>
      && nb[r][c] == board[r][c].(isMine := nb[r][c].isMine)
      && (nb[r][c].isMine ==> board[r][c].isMine || !Excluded(r, c, er, ec))
      && (board[r][c].isMine ==> nb[r][c].isMine)
  }

  function AddMine(b: Board, r: nat, c: nat): Board
    requires r < |b| && c < |b[r]|
  {
    b[r := b[r][c := b[r][c].(isMine := true)]]
  }

  /** One placed mine keeps `MinedFrom` and keeps every earlier mine. */
  lemma MineAdded(board: Board, nb: Board, rows: nat, cols: nat, er: int, ec: int, r: nat, c: nat)
    requires IsGrid(board, rows, cols) && IsGrid(nb, rows, cols) && MinedFrom(board, nb, rows, cols, er, ec)
    requires r < rows && c < cols && !Excluded(r, c, er, ec)
    ensures IsGrid(AddMine(nb, r, c), rows, cols)
    ensures MinedFrom(board, AddMine(nb, r, c), rows, cols, er, ec)
    ensures AddMine(nb, r, c)[r][c].isMine
    ensures forall i, j :: 0 <= i < rows && 0 <= j < cols && nb[i][j].isMine ==> AddMine(nb, r, c)[i][j].isMine
  {
  }

  lemma SameMinesTally(a: Board, b: Board, rows: nat, cols: nat)
    requires IsGrid(a, rows, cols) && IsGrid(b, rows, cols) && SameMines(a, b, rows, cols)
    ensures Tally(a, Mine) == Tally(b, Mine)
  {
    TallyLe(a, b, Mine);
    TallyLe(b, a, Mine);
  }

  /** The second half of `placeMines`: the nested loops that give every safe cell its count. */
  method CountNeighbours(mined: Board, rows: nat, cols: nat) returns (nb: Board)
    requires IsGrid(mined, rows, cols)
    ensures IsGrid(nb, rows, cols) && SameMines(mined, nb, rows, cols) && CountsCorrect(nb, rows, cols)
    ensures forall r, c :: 0 <= r < rows && 0 <= c < cols ==>
      nb[r][c] == mined[r][c].(adjacentMines := nb[r][c].adjacentMines)
      && (mined[r][c].isMine ==> nb[r][c] == mined[r][c])
  {
    nb := mined;
    var r := 0;
    while r < rows
      invariant 0 <= r <= rows && IsGrid(nb, rows, cols)
      invariant forall i, j :: 0 <= i < rows && 0 <= j < cols ==>
        nb[i][j] == mined[i][j].(adjacentMines := nb[i][j].adjacentMines)
        && (mined[i][j].isMine ==> nb[i][j] == mined[i][j])
      invariant forall i, j :: 0 <= i < r && 0 <= j < cols && !nb[i][j].isMine ==>
        nb[i][j].adjacentMines == NeighbourMines(mined, rows, cols, i, j)
    {
      var c := 0;
      while c < cols
        invariant 0 <= c <= cols && IsGrid(nb, rows, cols)
        invariant forall i, j :: 0 <= i < rows && 0 <= j < cols ==>
          nb[i][j] == mined[i][j].(adjacentMines := nb[i][j].adjacentMines)
          && (mined[i][j].isMine ==> nb[i][j] == mined[i][j])
        invariant forall i, j :: ((0 <= i < r && 0 <= j < cols) || (i == r && 0 <= j < c)) && !nb[i][j].isMine ==>
          nb[i][j].adjacentMines == NeighbourMines(mined, rows, cols, i, j)
      {
        if !nb[r][c].isMine {
          var count := CountCell(nb, rows, cols, r, c);
          SameMinesCount(mined, nb, rows, cols, r, c, 9);
          nb := nb[r := nb[r][c := nb[r][c].(adjacentMines := count)]];
        }
        c := c + 1;
      }
      r := r + 1;
    }
    forall i, j | 0 <= i < rows && 0 <= j < cols && !nb[i][j].isMine
      ensures nb[i][j].adjacentMines == NeighbourMines(nb, rows, cols, i, j)
    {
      SameMinesCount(mined, nb, rows, cols, i, j, 9);
    }
  }

  /** The `dr`, `dc` loops around one cell: the in-bounds mines among the nine. */
  method CountCell(b: Board, rows: nat, cols: nat, r: int, c: int) returns (count: nat)
    requires IsGrid(b, rows, cols)
    ensures count == NeighbourMines(b, rows, cols, r, c)
  {
    count := 0;
    var dr := -1;
    while dr <= 1
      invariant -1 <= dr <= 2
      invariant count == CountAround(b, rows, cols, r, c, 3 * (dr + 1))
    {
      var dc := -1;
      while dc <= 1
        invariant -1 <= dc <= 2
        invariant count == CountAround(b, rows, cols, r, c, 3 * (dr + 1) + (dc + 1))
      {
        var nr, nc := r + dr, c + dc;
        CountStep(b, rows, cols, r, c, dr, dc);
        if InBounds(nr, nc, rows, cols) && b[nr][nc].isMine {
          count := count + 1;
        }
        dc := dc + 1;
      }
      dr := dr + 1;
    }
  }

  // ---------------------------------------------------------------- revealing

  /** `b` differs from `a` only in hidden, unflagged cells that it shows. */
  predicate OnlyReveals(a: Board, b: Board, rows: nat, cols: nat)
    requires IsGrid(a, rows, cols) && IsGrid(b, rows, cols)
  {
    forall r, c :: 0 <= r < rows && 0 <= c < cols ==>
      b[r][c] == a[r][c] || (!a[r][c].isRevealed && !a[r][c].isFlagged && b[r][c] == a[r][c].(isRevealed := true))
  }

  predicate Opened(a: Board, b: Board, rows: nat, cols: nat, r: int, c: int)
    requires IsGrid(a, rows, cols) && IsGrid(b, rows, cols)
  {
    InBounds(r, c, rows, cols) && !a[r][c].isRevealed && b[r][c].isRevealed
  }

  /** Every neighbour of `(r, c)` on the board is shown or flagged. */
  ghost predicate Settled(b: Board, rows: nat, cols: nat, r: int, c: int)
    requires IsGrid(b, rows, cols)
  {
    forall nr, nc :: InBounds(nr, nc, rows, cols) && Near(r, c, nr, nc) ==> b[nr][nc].isRevealed || b[nr][nc].isFlagged
  }

  /** A safe cell with no mine around it that the reveal opened had all its neighbours opened too. */
  ghost predicate Spread(a: Board, b: Board, rows: nat, cols: nat, row: int, col: int, withStart: bool)
    requires IsGrid(a, rows, cols) && IsGrid(b, rows, cols)
  {
    forall r, c ::
      (Opened(a, b, rows, cols, r, c) && (withStart || r != row || c != col) && b[r][c].adjacentMines == 0 && !b[r][c].isMine) ==>
        Settled(b, rows, cols, r, c)
  }

  /** No cell the reveal opened, except perhaps the clicked one, holds a mine. */
  ghost predicate Safe(a: Board, b: Board, rows: nat, cols: nat, row: int, col: int)
    requires IsGrid(a, rows, cols) && IsGrid(b, rows, cols)
  {
    forall r, c :: Opened(a, b, rows, cols, r, c) && (r != row || c != col) ==> !b[r][c].isMine
  }

  lemma RevealsTrans(a: Board, b: Board, d: Board, rows: nat, cols: nat)
    requires IsGrid(a, rows, cols) && IsGrid(b, rows, cols) && IsGrid(d, rows, cols)
    requires OnlyReveals(a, b, rows, cols) && OnlyReveals(b, d, rows, cols)
    ensures OnlyReveals(a, d, rows, cols)
  {
  }

  /** Boards with the same mines and the same numbers shown agree on whether the numbers are right. */
  lemma CountsSame(a: Board, b: Board, rows: nat, cols: nat)
    requires IsGrid(a, rows, cols) && IsGrid(b, rows, cols) && SameMines(a, b, rows, cols)
    requires forall r, c :: 0 <= r < rows && 0 <= c < cols ==> a[r][c].adjacentMines == b[r][c].adjacentMines
    ensures CountsCorrect(a, rows, cols) ==> CountsCorrect(b, rows, cols)
  {
    forall r, c | 0 <= r < rows && 0 <= c < cols
      ensures NeighbourMines(a, rows, cols, r, c) == NeighbourMines(b, rows, cols, r, c)
    {
      SameMinesCount(a, b, rows, cols, r, c, 9);
    }
  }

  /** Revealing cells keeps the mines and the counts, so correct counts stay correct. */
  lemma CountsKept(a: Board, b: Board, rows: nat, cols: nat)
    requires IsGrid(a, rows, cols) && IsGrid(b, rows, cols) && OnlyReveals(a, b, rows, cols)
    ensures SameMines(a, b, rows, cols)
    ensures CountsCorrect(a, rows, cols) ==> CountsCorrect(b, rows, cols)
  {
    CountsSame(a, b, rows, cols);
  }

  /** Revealing cells never adds a hidden one. */
  lemma RevealsHide(a: Board, b: Board, rows: nat, cols: nat)
    requires IsGrid(a, rows, cols) && IsGrid(b, rows, cols) && OnlyReveals(a, b, rows, cols)
    ensures Tally(b, Hidden) <= Tally(a, Hidden)
  {
    TallyLe(a, b, Hidden);
  }

  /** One neighbour's reveal keeps the spread of the cells opened before it. */
  lemma SpreadStep(board: Board, nb: Board, sub: Board, rows: nat, cols: nat, row: int, col: int, nr: int, nc: int)
    requires IsGrid(board, rows, cols) && IsGrid(nb, rows, cols) && IsGrid(sub, rows, cols)
    requires OnlyReveals(board, nb, rows, cols) && OnlyReveals(nb, sub, rows, cols)
    requires Spread(board, nb, rows, cols, row, col, false) && Spread(nb, sub, rows, cols, nr, nc, true)
    ensures Spread(board, sub, rows, cols, row, col, false)
  {
    forall r, c | Opened(board, sub, rows, cols, r, c) && (r != row || c != col)
      && sub[r][c].adjacentMines == 0 && !sub[r][c].isMine
      ensures Settled(sub, rows, cols, r, c)
    {
      if !Opened(nb, sub, rows, cols, r, c) {
        assert Settled(nb, rows, cols, r, c);
      }
    }
  }

  /** One neighbour's reveal, from a safe cell with no mine around it, opens no mine. */
  lemma SafeStep(board: Board, nb: Board, sub: Board, rows: nat, cols: nat, row: int, col: int, nr: int, nc: int)
    requires IsGrid(board, rows, cols) && IsGrid(nb, rows, cols) && IsGrid(sub, rows, cols)
    requires OnlyReveals(board, nb, rows, cols) && OnlyReveals(nb, sub, rows, cols)
    requires CountsCorrect(board, rows, cols) && InBounds(row, col, rows, cols)
    requires !board[row][col].isMine && board[row][col].adjacentMines == 0 && Near(row, col, nr, nc)
    requires Safe(board, nb, rows, cols, row, col) && Safe(nb, sub, rows, cols, nr, nc)
    ensures Safe(board, sub, rows, cols, row, col)
  {
    NoMineAround(board, rows, cols, row, col);
    assert !MineAt(board, rows, cols, nr, nc);
  }

  /** Showing the clicked cell alone opens nothing else. */
  lemma ShowStart(board: Board, shown: Board, rows: nat, cols: nat, row: int, col: int)
    requires IsGrid(board, rows, cols) && InBounds(row, col, rows, cols)
    requires !board[row][col].isRevealed && !board[row][col].isFlagged
    requires shown == board[row := board[row][col := board[row][col].(isRevealed := true)]]
    ensures IsGrid(shown, rows, cols) && OnlyReveals(board, shown, rows, cols)
    ensures forall r, c :: Opened(board, shown, rows, cols, r, c) ==> r == row && c == col
  {
  }

  /** Once the clicked cell's neighbours are settled, the spread covers it too. */
  lemma FinishSpread(board: Board, nb: Board, rows: nat, cols: nat, row: int, col: int)
    requires IsGrid(board, rows, cols) && IsGrid(nb, rows, cols)
    requires Spread(board, nb, rows, cols, row, col, false) && Settled(nb, rows, cols, row, col)
    ensures Spread(board, nb, rows, cols, row, col, true)
  {
  }

  /** A cell the reveal spreads from: safe, with no mine around it. */
  predicate Blank(x: Cell) {
    !x.isMine && x.adjacentMines == 0
  }

  /**
   * A walk of the cascade: every cell on it was opened, each step goes to
   * one of the eight neighbours, and every cell it leaves is blank.
   */
  ghost predicate CascadePath(a: Board, b: Board, rows: nat, cols: nat, path: seq<(int, int)>)
    requires IsGrid(a, rows, cols) && IsGrid(b, rows, cols)
  {
    && |path| > 0
    && (forall i :: 0 <= i < |path| ==> Opened(a, b, rows, cols, path[i].0, path[i].1))
    && (forall i :: 0 <= i < |path| - 1 ==>
          Near(path[i].0, path[i].1, path[i + 1].0, path[i + 1].1) && Blank(b[path[i].0][path[i].1]))
  }

  /** A walk of the cascade leads from `(row, col)` to `(r, c)`. */
  ghost predicate Walk(a: Board, b: Board, rows: nat, cols: nat, row: int, col: int, r: int, c: int)
    requires IsGrid(a, rows, cols) && IsGrid(b, rows, cols)
  {
    exists path :: CascadePath(a, b, rows, cols, path) && path[0] == (row, col) && path[|path| - 1] == (r, c)
  }

  /** Every cell the reveal opened is reached from `(row, col)` by a walk of the cascade. */
  ghost predicate Reached(a: Board, b: Board, rows: nat, cols: nat, row: int, col: int)
    requires IsGrid(a, rows, cols) && IsGrid(b, rows, cols)
  {
    forall r, c {:trigger Walk(a, b, rows, cols, row, col, r, c)} ::
      Opened(a, b, rows, cols, r, c) ==> Walk(a, b, rows, cols, row, col, r, c)
  }

  /** Showing the clicked cell alone: it is reached by the walk of one cell. */
  lemma ReachStart(board: Board, shown: Board, rows: nat, cols: nat, row: int, col: int)
    requires IsGrid(board, rows, cols) && InBounds(row, col, rows, cols)
    requires !board[row][col].isRevealed && !board[row][col].isFlagged
    requires shown == board[row := board[row][col := board[row][col].(isRevealed := true)]]
    ensures Reached(board, shown, rows, cols, row, col)
  {
    ShowStart(board, shown, rows, cols, row, col);
    assert CascadePath(board, shown, rows, cols, [(row, col)]);
  }

  /** A mine or a numbered cell is shown alone: the cascade stops there. */
  lemma ShowAlone(board: Board, shown: Board, rows: nat, cols: nat, row: int, col: int)
    requires IsGrid(board, rows, cols) && InBounds(row, col, rows, cols)
    requires !board[row][col].isRevealed && !board[row][col].isFlagged && !Blank(board[row][col])
    requires shown == board[row := board[row][col := board[row][col].(isRevealed := true)]]
    ensures IsGrid(shown, rows, cols) && OnlyReveals(board, shown, rows, cols)
    ensures Spread(board, shown, rows, cols, row, col, true) && Reached(board, shown, rows, cols, row, col)
    ensures Safe(board, shown, rows, cols, row, col)
  {
    ShowStart(board, shown, rows, cols, row, col);
    ReachStart(board, shown, rows, cols, row, col);
  }

  /** A later reveal that only shows more cells keeps every walk of the earlier one. */
  lemma PathLift(a: Board, b: Board, d: Board, rows: nat, cols: nat, path: seq<(int, int)>)
    requires IsGrid(a, rows, cols) && IsGrid(b, rows, cols) && IsGrid(d, rows, cols)
    requires OnlyReveals(b, d, rows, cols) && CascadePath(a, b, rows, cols, path)
    ensures CascadePath(a, d, rows, cols, path)
  {
    forall i | 0 <= i < |path|
      ensures d[path[i].0][path[i].1] == b[path[i].0][path[i].1]
    {
      assert Opened(a, b, rows, cols, path[i].0, path[i].1);
    }
  }

  /** A walk of a neighbour's reveal, preceded by the blank cell it started next to. */
  lemma PathPrepend(board: Board, nb: Board, sub: Board, rows: nat, cols: nat, row: int, col: int,
                    path: seq<(int, int)>)
    requires IsGrid(board, rows, cols) && IsGrid(nb, rows, cols) && IsGrid(sub, rows, cols)
    requires OnlyReveals(board, nb, rows, cols) && OnlyReveals(nb, sub, rows, cols)
    requires Opened(board, nb, rows, cols, row, col) && Blank(board[row][col])
    requires CascadePath(nb, sub, rows, cols, path) && Near(row, col, path[0].0, path[0].1)
    ensures CascadePath(board, sub, rows, cols, [(row, col)] + path)
  {
    var p := [(row, col)] + path;
    forall i | 0 <= i < |p|
      ensures Opened(board, sub, rows, cols, p[i].0, p[i].1)
    {
      if i > 0 {
        assert p[i] == path[i - 1];
        assert Opened(nb, sub, rows, cols, path[i - 1].0, path[i - 1].1);
      }
    }
    forall i | 0 <= i < |p| - 1
      ensures Near(p[i].0, p[i].1, p[i + 1].0, p[i + 1].1) && Blank(sub[p[i].0][p[i].1])
    {
      if i > 0 {
        assert p[i] == path[i - 1] && p[i + 1] == path[i];
      }
    }
  }

  /** One neighbour's reveal keeps every opened cell reached from the centre. */
  lemma ReachStep(board: Board, nb: Board, sub: Board, rows: nat, cols: nat, row: int, col: int, nr: int, nc: int)
    requires IsGrid(board, rows, cols) && IsGrid(nb, rows, cols) && IsGrid(sub, rows, cols)
    requires OnlyReveals(board, nb, rows, cols) && OnlyReveals(nb, sub, rows, cols)
    requires Opened(board, nb, rows, cols, row, col) && Blank(board[row][col]) && Near(row, col, nr, nc)
    requires Reached(board, nb, rows, cols, row, col) && Reached(nb, sub, rows, cols, nr, nc)
    ensures Reached(board, sub, rows, cols, row, col)
  {
    forall r, c | Opened(board, sub, rows, cols, r, c)
      ensures Walk(board, sub, rows, cols, row, col, r, c)
    {
      if Opened(board, nb, rows, cols, r, c) {
        assert Walk(board, nb, rows, cols, row, col, r, c);
        var path :| CascadePath(board, nb, rows, cols, path) && path[0] == (row, col) && path[|path| - 1] == (r, c);
        PathLift(board, nb, sub, rows, cols, path);
      } else {
        assert Opened(nb, sub, rows, cols, r, c) && Walk(nb, sub, rows, cols, nr, nc, r, c);
        var path :| CascadePath(nb, sub, rows, cols, path) && path[0] == (nr, nc) && path[|path| - 1] == (r, c);
        PathPrepend(board, nb, sub, rows, cols, row, col, path);
        var p := [(row, col)] + path;
        assert p[0] == (row, col) && p[|p| - 1] == (r, c);
      }
    }
  }

  /**
   * `revealCell`: off the board, or on a shown or flagged cell, the board
   * comes back as it is. Otherwise the cell is shown and, when it is safe
   * with no mine around it, each of its eight neighbours is revealed in
   * turn. The reveal only shows hidden, unflagged cells; it opens every
   * neighbour of each safe, mine-free-around cell it opens, and opens
   * nothing that a walk through such cells from the clicked one does not
   * reach, so a mine or a numbered cell opens alone; and on a board whose
   * counts are right it opens no mine except perhaps the clicked cell.
   */
  method RevealCell(board: Board, rows: nat, cols: nat, row: int, col: int) returns (result: Board)
    requires IsGrid(board, rows, cols)
    ensures IsGrid(result, rows, cols) && OnlyReveals(board, result, rows, cols)
    ensures !InBounds(row, col, rows, cols) || board[row][col].isRevealed || board[row][col].isFlagged ==> result == board
    ensures InBounds(row, col, rows, cols) && !board[row][col].isRevealed && !board[row][col].isFlagged && !Blank(board[row][col])
      ==> result == board[row := board[row][col := board[row][col].(isRevealed := true)]]
    ensures InBounds(row, col, rows, cols) && !board[row][col].isFlagged ==> result[row][col].isRevealed
    ensures Spread(board, result, rows, cols, row, col, true)
    ensures Reached(board, result, rows, cols, row, col)
    ensures CountsCorrect(board, rows, cols) ==> Safe(board, result, rows, cols, row, col)
    decreases Tally(board, Hidden), 2
  {
    if row < 0 || row >= rows || col < 0 || col >= cols || board[row][col].isRevealed || board[row][col].isFlagged {
      return board;
    }
    var nb: Board := board[row := board[row][col := board[row][col].(isRevealed := true)]];
    TallyUpdate(board, row, col, board[row][col].(isRevealed := true), Hidden);
    if nb[row][col].adjacentMines == 0 && !nb[row][col].isMine {
      result := RevealAround(board, nb, rows, cols, row, col);
    } else {
      ShowAlone(board, nb, rows, cols, row, col);
      result := nb;
    }
  }

  /**
   * Where the loops around a shown cell `(row, col)` stand before neighbour
   * `(row + dr, col + dc)`: only hidden, unflagged cells have been shown, the
   * board has fewer hidden cells than at the start, the spread and safety
   * claims hold of the cells opened so far, and every earlier neighbour is
   * shown or flagged.
   */
  ghost predicate Progress(board: Board, nb: Board, rows: nat, cols: nat, row: int, col: int, dr: int, dc: int)
    requires IsGrid(board, rows, cols)
  {
    && IsGrid(nb, rows, cols) && OnlyReveals(board, nb, rows, cols)
    && InBounds(row, col, rows, cols) && nb[row][col].isRevealed
    && Tally(nb, Hidden) < Tally(board, Hidden)
    && Spread(board, nb, rows, cols, row, col, false)
    && (CountsCorrect(board, rows, cols) ==> Safe(board, nb, rows, cols, row, col))
    && Reached(board, nb, rows, cols, row, col)
    && forall r, c :: InBounds(r, c, rows, cols) && Near(row, col, r, c) && (r - row < dr || (r - row == dr && c - col < dc)) ==>
      nb[r][c].isRevealed || nb[r][c].isFlagged
  }

  /** The centre is not one of its own neighbours. */
  lemma SkipCentre(board: Board, nb: Board, rows: nat, cols: nat, row: int, col: int)
    requires IsGrid(board, rows, cols) && Progress(board, nb, rows, cols, row, col, 0, 0)
    ensures Progress(board, nb, rows, cols, row, col, 0, 1)
  {
  }

  /** A finished row of neighbours hands over to the next. */
  lemma NextRow(board: Board, nb: Board, rows: nat, cols: nat, row: int, col: int, dr: int)
    requires IsGrid(board, rows, cols) && Progress(board, nb, rows, cols, row, col, dr, 2)
    ensures Progress(board, nb, rows, cols, row, col, dr + 1, -1)
  {
  }

  /** The `dr`, `dc` loops of `revealCell` around a cell it has just shown, which is safe with no mine around it. */
  method RevealAround(board: Board, shown: Board, rows: nat, cols: nat, row: int, col: int) returns (nb: Board)
    requires IsGrid(board, rows, cols) && InBounds(row, col, rows, cols)
    requires !board[row][col].isRevealed && !board[row][col].isFlagged
    requires !board[row][col].isMine && board[row][col].adjacentMines == 0
    requires shown == board[row := board[row][col := board[row][col].(isRevealed := true)]]
    requires Tally(shown, Hidden) < Tally(board, Hidden)
    ensures IsGrid(nb, rows, cols) && OnlyReveals(board, nb, rows, cols) && nb[row][col].isRevealed
    ensures Spread(board, nb, rows, cols, row, col, true)
    ensures Reached(board, nb, rows, cols, row, col)
    ensures CountsCorrect(board, rows, cols) ==> Safe(board, nb, rows, cols, row, col)
    decreases Tally(board, Hidden), 1
  {
    nb := shown;
    ShowStart(board, shown, rows, cols, row, col);
    ReachStart(board, shown, rows, cols, row, col);
    var dr := -1;
    while dr <= 1
      invariant -1 <= dr <= 2
      invariant Progress(board, nb, rows, cols, row, col, dr, -1)
    {
      var dc := -1;
      while dc <= 1
        invariant -1 <= dc <= 2
        invariant Progress(board, nb, rows, cols, row, col, dr, dc)
      {
        if dr != 0 || dc != 0 {
          nb := RevealNeighbour(board, nb, rows, cols, row, col, dr, dc);
        } else {
          SkipCentre(board, nb, rows, cols, row, col);
        }
        dc := dc + 1;
      }
      NextRow(board, nb, rows, cols, row, col, dr);
      dr := dr + 1;
    }
    FinishSpread(board, nb, rows, cols, row, col);
  }

  /** One round of the loops: the reveal of neighbour `(row + dr, col + dc)`, copied back over the board. */
  method RevealNeighbour(board: Board, nb: Board, rows: nat, cols: nat, row: int, col: int, dr: int, dc: int)
    returns (sub: Board)
    requires IsGrid(board, rows, cols) && InBounds(row, col, rows, cols)
    requires -1 <= dr <= 1 && -1 <= dc <= 1 && (dr != 0 || dc != 0)
    requires !board[row][col].isRevealed && !board[row][col].isMine && board[row][col].adjacentMines == 0
    requires Progress(board, nb, rows, cols, row, col, dr, dc)
    ensures Progress(board, sub, rows, cols, row, col, dr, dc + 1)
    decreases Tally(board, Hidden), 0
  {
    var nr, nc := row + dr, col + dc;
    CountsKept(board, nb, rows, cols);
    sub := RevealCell(nb, rows, cols, nr, nc);
    RevealsTrans(board, nb, sub, rows, cols);
    RevealsHide(nb, sub, rows, cols);
    SpreadStep(board, nb, sub, rows, cols, row, col, nr, nc);
    ReachStep(board, nb, sub, rows, cols, row, col, nr, nc);
    if CountsCorrect(board, rows, cols) {
      SafeStep(board, nb, sub, rows, cols, row, col, nr, nc);
    }
  }

  // ---------------------------------------------------------------- the component

  /** No shown cell holds a mine. */
  ghost predicate NoMineShown(b: Board, rows: nat, cols: nat)
    requires IsGrid(b, rows, cols)
  {
    forall r, c :: 0 <= r < rows && 0 <= c < cols && b[r][c].isRevealed ==> !b[r][c].isMine
  }

  /** A reveal from a safe cell of a board with right counts shows no mine. */
  lemma RevealShowsNoMine(a: Board, b: Board, rows: nat, cols: nat, row: int, col: int)
    requires IsGrid(a, rows, cols) && IsGrid(b, rows, cols) && OnlyReveals(a, b, rows, cols)
    requires NoMineShown(a, rows, cols) && Safe(a, b, rows, cols, row, col)
    requires InBounds(row, col, rows, cols) ==> !a[row][col].isMine
    ensures NoMineShown(b, rows, cols)
  {
    forall r, c | 0 <= r < rows && 0 <= c < cols && b[r][c].isRevealed
      ensures !b[r][c].isMine
    {
      if !a[r][c].isRevealed && (r != row || c != col) {
        assert Opened(a, b, rows, cols, r, c);
      }
    }
  }

  /** Boards that agree on every flag have as many flags. */
  lemma SameFlags(a: Board, b: Board, rows: nat, cols: nat)
    requires IsGrid(a, rows, cols) && IsGrid(b, rows, cols)
    requires forall r, c :: 0 <= r < rows && 0 <= c < cols ==> a[r][c].isFlagged == b[r][c].isFlagged
    ensures Tally(a, Flag) == Tally(b, Flag)
  {
    TallyLe(a, b, Flag);
    TallyLe(b, a, Flag);
  }

  /** The loss: `isRevealed: c.isMine ? true : c.isRevealed` on every cell. */
  function ShowMines(b: Board): (s: Board)
    ensures |s| == |b| && forall r :: 0 <= r < |b| ==> |s[r]| == |b[r]|
  {
    seq(|b|, r requires 0 <= r < |b| => seq(|b[r]|, c requires 0 <= c < |b[r]| => b[r][c].(isRevealed := b[r][c].isMine || b[r][c].isRevealed)))
  }

  /**
   * The first click's `placeMines` on a board with no mine and nothing
   * shown: the counts come out right, the clicked cell and its neighbours
   * hold no mine, and the flags stay.
   */
  method FirstPlacement(board: Board, l: Level, row: nat, col: nat, draws: seq<(nat, nat)>) returns (nb: Board)
    requires IsGrid(board, l.rows, l.cols) && row < l.rows && col < l.cols
    requires forall r, c :: 0 <= r < l.rows && 0 <= c < l.cols ==> !board[r][c].isMine && !board[r][c].isRevealed
    requires forall k :: 0 <= k < |draws| ==> draws[k].0 < l.rows && draws[k].1 < l.cols
    ensures IsGrid(nb, l.rows, l.cols) && CountsCorrect(nb, l.rows, l.cols) && NoMineShown(nb, l.rows, l.cols)
    ensures Tally(nb, Mine) <= l.mines && Tally(nb, Flag) == Tally(board, Flag)
    ensures forall r, c :: 0 <= r < l.rows && 0 <= c < l.cols ==>
      && nb[r][c].isFlagged == board[r][c].isFlagged && !nb[r][c].isRevealed
      && (Excluded(r, c, row, col) ==> !nb[r][c].isMine)
  {
    TallyZero(board, Mine);
    var placed;
    nb, placed := PlaceMines(board, l.rows, l.cols, l.mines, row, col, draws);
    SameFlags(board, nb, l.rows, l.cols);
  }

  /**
   * The rest of `handleCellClick` on a board with right counts and no mine
   * shown, for a cell that is not flagged: a mine loses and shows every
   * mine and nothing else; any other cell is revealed, no mine is shown,
   * and the game is won exactly when every safe cell is shown. The mines,
   * the numbers and the flags stay.
   */
  method Open(nb: Board, l: Level, row: nat, col: nat) returns (result: Board, status: Status)
    requires IsGrid(nb, l.rows, l.cols) && row < l.rows && col < l.cols && !nb[row][col].isFlagged
    requires CountsCorrect(nb, l.rows, l.cols) && NoMineShown(nb, l.rows, l.cols)
    ensures IsGrid(result, l.rows, l.cols) && CountsCorrect(result, l.rows, l.cols) && SameMines(nb, result, l.rows, l.cols)
    ensures Tally(result, Mine) == Tally(nb, Mine) && Tally(result, Flag) == Tally(nb, Flag)
    ensures forall r, c :: 0 <= r < l.rows && 0 <= c < l.cols ==> result[r][c].isFlagged == nb[r][c].isFlagged
    ensures status == Lost <==> nb[row][col].isMine
    ensures status == Lost ==> forall r, c :: 0 <= r < l.rows && 0 <= c < l.cols ==>
      (result[r][c].isRevealed <==> nb[r][c].isMine || nb[r][c].isRevealed)
    ensures status != Lost ==> NoMineShown(result, l.rows, l.cols) && result[row][col].isRevealed
    ensures status != Lost ==>
      && OnlyReveals(nb, result, l.rows, l.cols)
      && Spread(nb, result, l.rows, l.cols, row, col, true)
      && Reached(nb, result, l.rows, l.cols, row, col)
    ensures status != Lost ==>
      (status == Won <==> forall r, c :: 0 <= r < l.rows && 0 <= c < l.cols ==> result[r][c].isRevealed || result[r][c].isMine)
    ensures status == Won ==> Tally(result, HiddenSafe) == 0
  {
    if nb[row][col].isMine {
      result := ShowMines(nb);
      SameFlags(nb, result, l.rows, l.cols);
      assert SameMines(nb, result, l.rows, l.cols);
      SameMinesTally(nb, result, l.rows, l.cols);
      CountsSame(nb, result, l.rows, l.cols);
      status := Lost;
      return;
    }
    result := RevealCell(nb, l.rows, l.cols, row, col);
    CountsKept(nb, result, l.rows, l.cols);
    SameMinesTally(nb, result, l.rows, l.cols);
    SameFlags(nb, result, l.rows, l.cols);
    RevealShowsNoMine(nb, result, l.rows, l.cols, row, col);
    TallyZero(result, HiddenSafe);
    status := if Tally(result, HiddenSafe) == 0 then Won else Playing;
  }

  /** Placing the mines shows nothing, so the cascade opened after it is the same seen from before it. */
  lemma SameShown(a: Board, a2: Board, b: Board, rows: nat, cols: nat, row: int, col: int)
    requires IsGrid(a, rows, cols) && IsGrid(a2, rows, cols) && IsGrid(b, rows, cols)
    requires forall r, c :: 0 <= r < rows && 0 <= c < cols ==> a[r][c].isRevealed == a2[r][c].isRevealed
    requires Spread(a, b, rows, cols, row, col, true) && Reached(a, b, rows, cols, row, col)
    ensures Spread(a2, b, rows, cols, row, col, true) && Reached(a2, b, rows, cols, row, col)
  {
    forall r, c | Opened(a2, b, rows, cols, r, c)
      ensures Walk(a2, b, rows, cols, row, col, r, c)
    {
      assert Opened(a, b, rows, cols, r, c) && Walk(a, b, rows, cols, row, col, r, c);
      var path :| CascadePath(a, b, rows, cols, path) && path[0] == (row, col) && path[|path| - 1] == (r, c);
      assert CascadePath(a2, b, rows, cols, path);
    }
  }

  /**
   * A left click on a cell that is not flagged while playing: the first click
   * places the mines, then the cell is opened.
   */
  method Click(board: Board, l: Level, first: bool, row: nat, col: nat, draws: seq<(nat, nat)>)
    returns (result: Board, status: Status)
    requires IsGrid(board, l.rows, l.cols) && row < l.rows && col < l.cols && !board[row][col].isFlagged
    requires first ==> forall r, c :: 0 <= r < l.rows && 0 <= c < l.cols ==> !board[r][c].isMine && !board[r][c].isRevealed
    requires !first ==> CountsCorrect(board, l.rows, l.cols)
    requires NoMineShown(board, l.rows, l.cols)
    requires forall k :: 0 <= k < |draws| ==> draws[k].0 < l.rows && draws[k].1 < l.cols
    ensures IsGrid(result, l.rows, l.cols) && CountsCorrect(result, l.rows, l.cols)
    ensures first ==> Tally(result, Mine) <= l.mines && status != Lost
    ensures !first ==> Tally(result, Mine) == Tally(board, Mine)
    ensures Tally(result, Flag) == Tally(board, Flag)
    ensures forall r, c :: 0 <= r < l.rows && 0 <= c < l.cols ==> result[r][c].isFlagged == board[r][c].isFlagged
    ensures result[row][col].isRevealed
    ensures status == Lost ==> forall r, c :: 0 <= r < l.rows && 0 <= c < l.cols ==>
      (result[r][c].isRevealed <==> result[r][c].isMine || board[r][c].isRevealed)
    ensures status != Lost ==> NoMineShown(result, l.rows, l.cols)
    ensures status != Lost ==>
      Spread(board, result, l.rows, l.cols, row, col, true) && Reached(board, result, l.rows, l.cols, row, col)
    ensures status != Lost ==>
      (status == Won <==> forall r, c :: 0 <= r < l.rows && 0 <= c < l.cols ==> result[r][c].isRevealed || result[r][c].isMine)
    ensures status == Won ==> Tally(result, HiddenSafe) == 0
  {
    var nb := board;
    if first {
      nb := FirstPlacement(board, l, row, col, draws);
    }
    result, status := Open(nb, l, row, col);
    if status != Lost {
      SameShown(nb, board, result, l.rows, l.cols, row, col);
    }
  }

  /** The board with the flag of one cell toggled. */
  function ToggleFlag(b: Board, row: nat, col: nat): Board
    requires row < |b| && col < |b[row]|
  {
    b[row := b[row][col := b[row][col].(isFlagged := !b[row][col].isFlagged)]]
  }

  /**
   * Toggling a flag adds or removes exactly one flag and changes no mine,
   * no shown cell and no number, so right counts stay right.
   */
  lemma FlagToggled(b: Board, rows: nat, cols: nat, row: nat, col: nat)
    requires IsGrid(b, rows, cols) && row < rows && col < cols
    ensures var nb := ToggleFlag(b, row, col);
      && IsGrid(nb, rows, cols)
      && Tally(nb, Flag) + (if b[row][col].isFlagged then 1 else 0) == Tally(b, Flag) + (if b[row][col].isFlagged then 0 else 1)
      && Tally(nb, Mine) == Tally(b, Mine) && Tally(nb, HiddenSafe) == Tally(b, HiddenSafe)
      && (forall r, c :: 0 <= r < rows && 0 <= c < cols ==>
            nb[r][c].isMine == b[r][c].isMine && nb[r][c].isRevealed == b[r][c].isRevealed)
      && (CountsCorrect(b, rows, cols) ==> CountsCorrect(nb, rows, cols))
      && (NoMineShown(b, rows, cols) ==> NoMineShown(nb, rows, cols))
  {
    var cell := b[row][col].(isFlagged := !b[row][col].isFlagged);
    TallyUpdate(b, row, col, cell, Flag);
    TallyUpdate(b, row, col, cell, Mine);
    TallyUpdate(b, row, col, cell, HiddenSafe);
    CountsSame(b, ToggleFlag(b, row, col), rows, cols);
  }

  /** The `Minesweeper` component's state. */
  class Game {
    var difficulty: Difficulty
    var board: Board
    var status: Status
    /** The mine counter: the level's mines less the flags, so it can go below zero. */
    var mineCount: int
    var timer: nat
    var timerRunning: bool
    var firstClick: bool

    ghost predicate Valid()
      reads this
    {
      var l := Settings(difficulty);
      && IsGrid(board, l.rows, l.cols)
      && timer <= 999
      && mineCount == l.mines - Tally(board, Flag)
      && Tally(board, Mine) <= l.mines
      && (firstClick ==> status == Playing && forall r, c :: 0 <= r < l.rows && 0 <= c < l.cols ==>
            !board[r][c].isMine && !board[r][c].isRevealed)
      && (!firstClick ==> CountsCorrect(board, l.rows, l.cols))
      && (status != Lost ==> NoMineShown(board, l.rows, l.cols))
      && (status == Won ==> Tally(board, HiddenSafe) == 0)
      && (timerRunning ==> status == Playing && !firstClick)
    }

    /** Mounting: the beginner level, then the effect that runs `initializeBoard`. */
    constructor()
      ensures Valid() && difficulty == Beginner
      ensures board == EmptyBoard(9, 9) && status == Playing && mineCount == 10
      ensures timer == 0 && !timerRunning && firstClick
    {
      difficulty := Beginner;
      board := EmptyBoard(9, 9);
      status := Playing;
      mineCount := 10;
      timer := 0;
      timerRunning := false;
      firstClick := true;
      new;
      TallyZero(board, Flag);
      TallyZero(board, Mine);
    }

    /**
     * `initializeBoard` (also the smiley button): an empty board of the
     * level's size, playing, the counter at the level's mines, the timer
     * stopped at 0, waiting for the first click.
     */
    method Initialize()
      modifies this
      ensures Valid() && difficulty == old(difficulty)
      ensures board == EmptyBoard(Settings(difficulty).rows, Settings(difficulty).cols)
      ensures status == Playing && mineCount == Settings(difficulty).mines
      ensures timer == 0 && !timerRunning && firstClick
    {
      var l := Settings(difficulty);
      board := EmptyBoard(l.rows, l.cols);
      status := Playing;
      mineCount := l.mines;
      timer := 0;
      timerRunning := false;
      firstClick := true;
      TallyZero(board, Flag);
      TallyZero(board, Mine);
    }

    /**
     * Choosing a level: a different level changes the board size, so the
     * effect runs `initializeBoard` again; the same level changes nothing.
     */
    method SetDifficulty(d: Difficulty)
      requires Valid()
      modifies this
      ensures Valid() && difficulty == d
      ensures d == old(difficulty) ==> board == old(board) && status == old(status) && firstClick == old(firstClick)
      ensures d != old(difficulty) ==>
        board == EmptyBoard(Settings(d).rows, Settings(d).cols) && status == Playing && firstClick && timer == 0
    {
      if d != difficulty {
        difficulty := d;
        Initialize();
      }
    }

    /**
     * `handleCellClick`: nothing happens once the game is over or on a
     * flagged cell. The first click places the mines, none in the 3×3 block
     * around it, and starts the timer. A mine loses the game and shows every
     * mine; otherwise the cell is revealed, which never shows a mine, and
     * the game is won when every safe cell is shown.
     */
    method CellClick(row: nat, col: nat, draws: seq<(nat, nat)>)
      requires Valid() && row < Settings(difficulty).rows && col < Settings(difficulty).cols
      requires forall k :: 0 <= k < |draws| ==> draws[k].0 < Settings(difficulty).rows && draws[k].1 < Settings(difficulty).cols
      modifies this
      ensures Valid() && difficulty == old(difficulty) && timer == old(timer) && mineCount == old(mineCount)
      ensures old(status) != Playing || old(board[row][col].isFlagged) ==>
        board == old(board) && status == old(status) && firstClick == old(firstClick) && timerRunning == old(timerRunning)
      ensures old(status) == Playing && !old(board[row][col].isFlagged) ==> !firstClick && board[row][col].isRevealed
      ensures old(firstClick) ==> status != Lost
      ensures var l := Settings(difficulty); forall r, c :: 0 <= r < l.rows && 0 <= c < l.cols ==>
        board[r][c].isFlagged == old(board[r][c].isFlagged)
      ensures var l := Settings(difficulty); status == Lost && old(status) == Playing ==>
        !timerRunning && forall r, c :: 0 <= r < l.rows && 0 <= c < l.cols ==>
          (board[r][c].isRevealed <==> board[r][c].isMine || old(board[r][c].isRevealed))
      ensures var l := Settings(difficulty); old(status) == Playing && !old(board[row][col].isFlagged) && status != Lost ==>
        Spread(old(board), board, l.rows, l.cols, row, col, true) && Reached(old(board), board, l.rows, l.cols, row, col)
      ensures var l := Settings(difficulty); old(status) == Playing && !old(board[row][col].isFlagged) && status != Lost ==>
        (status == Won <==> forall r, c :: 0 <= r < l.rows && 0 <= c < l.cols ==> board[r][c].isRevealed || board[r][c].isMine)
    {
      var l := Settings(difficulty);
      if status != Playing || board[row][col].isFlagged {
        return;
      }
      var outcome;
      board, outcome := Click(board, l, firstClick, row, col, draws);
      if firstClick {
        firstClick := false;
        timerRunning := true;
      }
      if outcome != Playing {
        status := outcome;
        timerRunning := false;
      }
    }

    /**
     * `handleRightClick`: while playing, a hidden cell's flag is toggled and
     * the counter goes down by one for a new flag and up by one for a
     * removed one; otherwise nothing happens.
     */
    method RightClick(row: nat, col: nat)
      requires Valid() && row < Settings(difficulty).rows && col < Settings(difficulty).cols
      modifies this
      ensures Valid() && difficulty == old(difficulty) && status == old(status) && firstClick == old(firstClick)
      ensures old(status) != Playing || old(board[row][col].isRevealed) ==> board == old(board) && mineCount == old(mineCount)
      ensures old(status) == Playing && !old(board[row][col].isRevealed) ==>
        && board == old(board)[row := old(board)[row][col := old(board[row][col]).(isFlagged := !old(board[row][col].isFlagged))]]
        && mineCount == old(mineCount) + (if board[row][col].isFlagged then -1 else 1)
    {
      var l := Settings(difficulty);
      if status != Playing || board[row][col].isRevealed {
        return;
      }
      FlagToggled(board, l.rows, l.cols, row, col);
      mineCount := if board[row][col].isFlagged then mineCount + 1 else mineCount - 1;
      board := ToggleFlag(board, row, col);
    }

    /** A second of the interval, which runs only while the timer is on and the game is being played. */
    method Tick()
      requires Valid() && timerRunning
      modifies this
      ensures Valid() && timer <= 999
      ensures timer == if old(timer) + 1 < 999 then old(timer) + 1 else 999
      ensures board == old(board) && status == old(status) && timerRunning
    {
      timer := if timer + 1 < 999 then timer + 1 else 999;
    }
  }
}
