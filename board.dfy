/**
 * The tic-tac-toe board of main.py: an n-by-n grid of cells, its legal
 * moves (`Game.get_actions`), the occupancy test (`Game.check_position`)
 * and the end-of-match judgement (`Game.check_winner`), stated as pure
 * functions over a grid value. The `Game` class (module Match) holds the
 * grid and runs the looping versions of these operations against them.
 */
module Board {

  /** A cell shows '.', 'X' or 'O'. */
  datatype Cell = Empty | X | O

  /** The mark a unit writes on the board. */
  type Mark = c: Cell | c != Empty witness X

  /** `desk`: a list of rows. */
  type Grid = seq<seq<Cell>>

  /** A board position (row, column). */
  type Pos = (int, int)

  /** The rewards `Game.check_winner` returns as its status (main.py:197-200). */
  const WIN: int := 100
  const DRAW: int := 10
  const NONE: int := -1

  /** `g` has n rows of n cells each. */
  predicate Square(g: Grid, n: nat)
  {
    |g| == n && forall i :: 0 <= i < n ==> |g[i]| == n
  }

  /** The board `Game.init_table` builds: every cell '.'. */
  function EmptyGrid(n: nat): (g: Grid)
    ensures Square(g, n)
    ensures forall i, j :: 0 <= i < n && 0 <= j < n ==> g[i][j] == Empty
  {
    seq(n, _ => seq(n, _ => Empty))
  }

  /** `desk[x][y] = mark`. */
  function Place(g: Grid, x: int, y: int, m: Mark): (r: Grid)
    requires 0 <= x < |g| && 0 <= y < |g[x]|
    ensures |r| == |g| && forall i :: 0 <= i < |g| ==> |r[i]| == |g[i]|
    ensures r[x][y] == m
    ensures forall i, j :: 0 <= i < |g| && 0 <= j < |g[i]| && (i, j) != (x, y) ==> r[i][j] == g[i][j]
  {
    g[x := g[x][y := m]]
  }

  // ---------------------------------------------------------------------
  // Counting (Python's `list.count`)
  // ---------------------------------------------------------------------

  /** How many elements of `s` equal `c`. */
  function Count(s: seq<Cell>, c: Cell): (r: nat)
    ensures r <= |s|
  {
    if s == [] then 0 else Count(s[..|s| - 1], c) + (if s[|s| - 1] == c then 1 else 0)
  }

  /** Every cell of `line` holds `m`. */
  predicate Full(line: seq<Cell>, m: Cell)
  {
    forall k :: 0 <= k < |line| ==> line[k] == m
  }

  /** `line.count(mark) == len(line)` exactly when the line is full of `mark`. */
  lemma {:induction false} CountFull(s: seq<Cell>, c: Cell)
    ensures Count(s, c) == |s| <==> Full(s, c)
  {
    if s != [] {
      var init := s[..|s| - 1];
      CountFull(init, c);
      assert forall k :: 0 <= k < |init| ==> s[k] == init[k];
    }
  }

  /** The number of marked cells among the first `r` rows of an n-by-n board. */
  function OccupiedUpTo(g: Grid, n: nat, r: nat): (k: nat)
    requires Square(g, n) && r <= n
    ensures k <= r * n
  {
    if r == 0 then 0 else OccupiedUpTo(g, n, r - 1) + (n - Count(g[r - 1], Empty))
  }

  /** The number of marked cells on an n-by-n board (`non_empty` in `check_winner`). */
  function Occupied(g: Grid, n: nat): nat
    requires Square(g, n)
  {
    OccupiedUpTo(g, n, n)
  }

  // ---------------------------------------------------------------------
  // Legal moves (`Game.get_actions`, `Game.check_position`)
  // ---------------------------------------------------------------------

  /** The empty cells among the first `j` cells of `row`, as positions in row `i`, left to right. */
  function RowEmpties(row: seq<Cell>, i: int, j: nat): seq<Pos>
    requires j <= |row|
  {
    if j == 0 then []
    else RowEmpties(row, i, j - 1) + (if row[j - 1] == Empty then [(i, j - 1)] else [])
  }

  /** The empty cells among the first `r` rows, in row-major order. */
  function ActionsUpTo(g: Grid, n: nat, r: nat): seq<Pos>
    requires Square(g, n) && r <= n
  {
    if r == 0 then [] else ActionsUpTo(g, n, r - 1) + RowEmpties(g[r - 1], r - 1, n)
  }

  /** The legal moves: all empty cells, in row-major order. */
  function Actions(g: Grid, n: nat): seq<Pos>
    requires Square(g, n)
  {
    ActionsUpTo(g, n, n)
  }

  /** `p` comes strictly before `q` in row-major order. */
  predicate Before(p: Pos, q: Pos)
  {
    p.0 < q.0 || (p.0 == q.0 && p.1 < q.1)
  }

  /** Strictly increasing in row-major order, hence without duplicates. */
  predicate RowMajor(s: seq<Pos>)
  {
    forall a, b :: 0 <= a < b < |s| ==> Before(s[a], s[b])
  }

  lemma {:induction false} RowEmptiesMember(row: seq<Cell>, i: int, j: nat)
    requires j <= |row|
    ensures forall p {:trigger p in RowEmpties(row, i, j)} :: p in RowEmpties(row, i, j) <==> p.0 == i && 0 <= p.1 < j && row[p.1] == Empty
  {
    if j > 0 {
      RowEmptiesMember(row, i, j - 1);
    }
  }

  lemma {:induction false} RowEmptiesSorted(row: seq<Cell>, i: int, j: nat)
    requires j <= |row|
    ensures RowMajor(RowEmpties(row, i, j))
  {
    if j > 0 {
      RowEmptiesSorted(row, i, j - 1);
      RowEmptiesMember(row, i, j - 1);
      var s := RowEmpties(row, i, j - 1);
      forall a | 0 <= a < |s| ensures s[a].0 == i && s[a].1 < j - 1 {
        assert s[a] in s;
      }
    }
  }

  lemma {:induction false} RowEmptiesCount(row: seq<Cell>, i: int, j: nat)
    requires j <= |row|
    ensures |RowEmpties(row, i, j)| == Count(row[..j], Empty)
  {
    if j > 0 {
      RowEmptiesCount(row, i, j - 1);
      assert row[..j][..j - 1] == row[..j - 1];
    }
  }

  lemma {:induction false} ActionsUpToMember(g: Grid, n: nat, r: nat)
    requires Square(g, n) && r <= n
    ensures forall p {:trigger p in ActionsUpTo(g, n, r)} :: p in ActionsUpTo(g, n, r) <==> 0 <= p.0 < r && 0 <= p.1 < n && g[p.0][p.1] == Empty
  {
    if r > 0 {
      ActionsUpToMember(g, n, r - 1);
      RowEmptiesMember(g[r - 1], r - 1, n);
      var front, back := ActionsUpTo(g, n, r - 1), RowEmpties(g[r - 1], r - 1, n);
      assert ActionsUpTo(g, n, r) == front + back;
      forall p: Pos
        ensures p in front + back <==> 0 <= p.0 < r && 0 <= p.1 < n && g[p.0][p.1] == Empty
      {
        assert p in front + back <==> p in front || p in back;
      }
    }
  }

  lemma {:induction false} RowEmptiesInRow(row: seq<Cell>, i: int, j: nat)
    requires j <= |row|
    ensures forall k :: 0 <= k < |RowEmpties(row, i, j)| ==> RowEmpties(row, i, j)[k].0 == i
  {
    if j > 0 {
      RowEmptiesInRow(row, i, j - 1);
    }
  }

  lemma {:induction false} ActionsUpToRows(g: Grid, n: nat, r: nat)
    requires Square(g, n) && r <= n
    ensures forall k :: 0 <= k < |ActionsUpTo(g, n, r)| ==> ActionsUpTo(g, n, r)[k].0 < r
  {
    if r > 0 {
      ActionsUpToRows(g, n, r - 1);
      RowEmptiesInRow(g[r - 1], r - 1, n);
    }
  }

  lemma {:induction false} ActionsUpToSorted(g: Grid, n: nat, r: nat)
    requires Square(g, n) && r <= n
    ensures RowMajor(ActionsUpTo(g, n, r))
  {
    if r > 0 {
      ActionsUpToSorted(g, n, r - 1);
      ActionsUpToRows(g, n, r - 1);
      RowEmptiesInRow(g[r - 1], r - 1, n);
      RowEmptiesSorted(g[r - 1], r - 1, n);
      var front, back := ActionsUpTo(g, n, r - 1), RowEmpties(g[r - 1], r - 1, n);
      var all := front + back;
      assert ActionsUpTo(g, n, r) == all;
      forall a, b | 0 <= a < b < |all|
        ensures Before(all[a], all[b])
      {
        if b < |front| {
          assert all[a] == front[a] && all[b] == front[b];
        } else if a < |front| {
          assert all[a] == front[a] && all[b] == back[b - |front|];
        } else {
          assert all[a] == back[a - |front|] && all[b] == back[b - |front|];
        }
      }
    }
  }

  lemma {:induction false} ActionsUpToCount(g: Grid, n: nat, r: nat)
    requires Square(g, n) && r <= n
    ensures |ActionsUpTo(g, n, r)| + OccupiedUpTo(g, n, r) == r * n
  {
    if r > 0 {
      ActionsUpToCount(g, n, r - 1);
      RowEmptiesCount(g[r - 1], r - 1, n);
      assert g[r - 1][..n] == g[r - 1];
    }
  }

  /**
   * `get_actions` lists exactly the empty cells, in row-major order without
   * duplicates, and their number plus the marked cells is size*size.
   */
  lemma ActionsSpec(g: Grid, n: nat)
    requires Square(g, n)
    ensures forall p :: p in Actions(g, n) <==> 0 <= p.0 < n && 0 <= p.1 < n && g[p.0][p.1] == Empty
    ensures RowMajor(Actions(g, n))
    ensures forall a, b :: 0 <= a < b < |Actions(g, n)| ==> Actions(g, n)[a] != Actions(g, n)[b]
    ensures |Actions(g, n)| + Occupied(g, n) == n * n
  {
    ActionsUpToMember(g, n, n);
    ActionsUpToSorted(g, n, n);
    ActionsUpToCount(g, n, n);
  }

  /**
   * `check_position(x, y)` for coordinates on the board: the cell is '.'.
   * Coordinates off the board are refused. It accepts exactly the moves
   * `get_actions` lists.
   */
  function CheckPosition(g: Grid, n: nat, x: int, y: int): (free: bool)
    requires Square(g, n)
    ensures free <==> (x, y) in Actions(g, n)
  {
    ActionsSpec(g, n);
    0 <= x < n && 0 <= y < n && g[x][y] == Empty
  }

  /** Python's index `i` into a list of length n: a negative index counts from the end. */
  function PyIndex(i: int, n: nat): int
  {
    if i < 0 then i + n else i
  }

  /**
   * `check_position(x, y)` as main.py:373-382 writes it: `desk[x][y]` with
   * Python's indexing, so -n..-1 reach the cells from the far side, and an
   * `IndexError` gives `None`, which every caller reads as false. It agrees
   * with `CheckPosition` on non-negative coordinates, and what it accepts
   * is always some free cell, just not always the cell (x, y).
   */
  function CheckPositionAsWritten(g: Grid, n: nat, x: int, y: int): (free: bool)
    requires Square(g, n)
    ensures 0 <= x && 0 <= y ==> (free <==> CheckPosition(g, n, x, y))
    ensures free ==> (PyIndex(x, n), PyIndex(y, n)) in Actions(g, n)
  {
    ActionsSpec(g, n);
    -(n as int) <= x < n && -(n as int) <= y < n && g[PyIndex(x, n)][PyIndex(y, n)] == Empty
  }

  /**
   * On the empty 3-by-3 board the entry "-1 0" passes `check_position`,
   * although (-1, 0) is no legal move: the mark lands on row 2.
   */
  lemma NegativeCoordinateAccepted()
    ensures CheckPositionAsWritten(EmptyGrid(3), 3, -1, 0)
    ensures !CheckPosition(EmptyGrid(3), 3, -1, 0)
    ensures (PyIndex(-1, 3), PyIndex(0, 3)) == (2, 0)
  {
  }

  /** The board is full exactly when there is no legal move. */
  lemma FullIffNoActions(g: Grid, n: nat)
    requires Square(g, n)
    ensures Occupied(g, n) == n * n <==> Actions(g, n) == []
  {
    ActionsSpec(g, n);
  }

  /** Marking an empty cell removes exactly that cell from the legal moves and fills one more cell. */
  lemma PlaceTakesAction(g: Grid, n: nat, a: Pos, m: Mark)
    requires Square(g, n) && a in Actions(g, n)
    ensures 0 <= a.0 < n && 0 <= a.1 < n
    ensures Square(Place(g, a.0, a.1, m), n)
    ensures forall p :: p in Actions(Place(g, a.0, a.1, m), n) <==> p in Actions(g, n) && p != a
    ensures Occupied(Place(g, a.0, a.1, m), n) == Occupied(g, n) + 1
    ensures |Actions(Place(g, a.0, a.1, m), n)| == |Actions(g, n)| - 1
  {
    ActionsSpec(g, n);
    var h := Place(g, a.0, a.1, m);
    ActionsSpec(h, n);
    var sg := set p | p in Actions(g, n);
    var sh := set p | p in Actions(h, n);
    assert sh == sg - {a};
    DistinctCard(Actions(g, n));
    DistinctCard(Actions(h, n));
  }

  /** A sequence in row-major order has as many elements as its set of elements. */
  lemma {:induction false} DistinctCard(s: seq<Pos>)
    requires RowMajor(s)
    ensures |set p | p in s| == |s|
  {
    if s != [] {
      var init := s[..|s| - 1];
      assert RowMajor(init);
      DistinctCard(init);
      var last := s[|s| - 1];
      assert last !in init by {
        forall k | 0 <= k < |init| ensures init[k] != last {
          assert Before(s[k], s[|s| - 1]);
        }
      }
      assert (set p | p in s) == (set p | p in init) + {last};
    }
  }

  // ---------------------------------------------------------------------
  // Winning lines and the judgement (`Game.check_winner`)
  // ---------------------------------------------------------------------

  /** Column `j`: `[desk[x][j] for x in range(size)]`. */
  function Column(g: Grid, n: nat, j: int): (col: seq<Cell>)
    requires Square(g, n) && 0 <= j < n
    ensures |col| == n && forall x :: 0 <= x < n ==> col[x] == g[x][j]
  {
    seq(n, x requires 0 <= x < n => g[x][j])
  }

  /** `d1`: the cells (i, i). */
  function Diagonal(g: Grid, n: nat): (d: seq<Cell>)
    requires Square(g, n)
    ensures |d| == n && forall i :: 0 <= i < n ==> d[i] == g[i][i]
  {
    seq(n, i requires 0 <= i < n => g[i][i])
  }

  /** `d2`: the cells (i, n - i - 1). */
  function AntiDiagonal(g: Grid, n: nat): (d: seq<Cell>)
    requires Square(g, n)
    ensures |d| == n && forall i :: 0 <= i < n ==> d[i] == g[i][n - i - 1]
  {
    seq(n, i requires 0 <= i < n => g[i][n - i - 1])
  }

  /** `m` fills a whole row, a whole column, the main diagonal or the anti-diagonal. */
  predicate Wins(g: Grid, n: nat, m: Cell)
    requires Square(g, n)
  {
    (exists j :: 0 <= j < n && Full(g[j], m))
    || (exists j :: 0 <= j < n && Full(Column(g, n, j), m))
    || Full(Diagonal(g, n), m)
    || Full(AntiDiagonal(g, n), m)
  }

  /** Which of the two units (`unit1`, `unit2`) a result names. */
  datatype Side = First | Second

  /** The outcome `check_winner` reports. */
  datatype Verdict = Win(side: Side) | Draw | Ongoing

  /** `check_winner` tests unit1's mark before unit2's, then a full board, in that order. */
  function Judge(g: Grid, n: nat, m1: Mark, m2: Mark): Verdict
    requires Square(g, n)
  {
    if Wins(g, n, m1) then Win(First)
    else if Wins(g, n, m2) then Win(Second)
    else if Occupied(g, n) == n * n then Draw
    else Ongoing
  }

  /** The status `check_winner` returns, which `Game.move` uses as the reward. */
  function Reward(v: Verdict): int
  {
    match v
    case Win(_) => WIN
    case Draw => DRAW
    case Ongoing => NONE
  }

  /**
   * The judgement in terms of the board: a win when the unit's mark fills a
   * line (unit1 first), otherwise a draw exactly when no cell is '.',
   * otherwise the match goes on.
   */
  lemma JudgeSpec(g: Grid, n: nat, m1: Mark, m2: Mark)
    requires Square(g, n)
    ensures Judge(g, n, m1, m2) == Win(First) <==> Wins(g, n, m1)
    ensures Judge(g, n, m1, m2) == Win(Second) <==> !Wins(g, n, m1) && Wins(g, n, m2)
    ensures Judge(g, n, m1, m2) == Draw <==>
      !Wins(g, n, m1) && !Wins(g, n, m2) && forall i, j :: 0 <= i < n && 0 <= j < n ==> g[i][j] != Empty
    ensures Judge(g, n, m1, m2) == Ongoing <==>
      !Wins(g, n, m1) && !Wins(g, n, m2) && exists i, j :: 0 <= i < n && 0 <= j < n && g[i][j] == Empty
  {
    FullIffNoEmpty(g, n);
  }

  /** `check_winner`'s count of marked cells reaches size*size exactly when no cell is '.'. */
  lemma FullIffNoEmpty(g: Grid, n: nat)
    requires Square(g, n)
    ensures Occupied(g, n) == n * n <==> forall i, j :: 0 <= i < n && 0 <= j < n ==> g[i][j] != Empty
  {
    ActionsSpec(g, n);
    if exists i, j :: 0 <= i < n && 0 <= j < n && g[i][j] == Empty {
      var i, j :| 0 <= i < n && 0 <= j < n && g[i][j] == Empty;
      assert (i, j) in Actions(g, n);
    }
    if Actions(g, n) != [] {
      var p := Actions(g, n)[0];
      assert p in Actions(g, n);
    }
  }

  /** While the match goes on there is a legal move. */
  lemma OngoingHasActions(g: Grid, n: nat, m1: Mark, m2: Mark)
    requires Square(g, n) && Judge(g, n, m1, m2) == Ongoing
    ensures Actions(g, n) != []
  {
    FullIffNoActions(g, n);
  }

  /** A line that contains an empty cell is not full of any mark. */
  lemma NotFullWithEmpty(line: seq<Cell>, k: int, m: Mark)
    requires 0 <= k < |line| && line[k] == Empty
    ensures !Full(line, m)
  {
  }

  /** A fresh board of size at least one is a match in progress with every cell free. */
  lemma EmptyGridOngoing(n: nat, m1: Mark, m2: Mark)
    requires n >= 1
    ensures Judge(EmptyGrid(n), n, m1, m2) == Ongoing
    ensures |Actions(EmptyGrid(n), n)| == n * n
  {
    var g := EmptyGrid(n);
    forall m: Mark ensures !Wins(g, n, m) {
      forall j | 0 <= j < n ensures !Full(g[j], m) && !Full(Column(g, n, j), m) {
        NotFullWithEmpty(g[j], 0, m);
        NotFullWithEmpty(Column(g, n, j), 0, m);
      }
      NotFullWithEmpty(Diagonal(g, n), 0, m);
      NotFullWithEmpty(AntiDiagonal(g, n), 0, m);
    }
    EmptyGridNoneOccupied(n, n);
    ActionsSpec(g, n);
  }

  lemma {:induction false} EmptyGridNoneOccupied(n: nat, r: nat)
    requires r <= n
    ensures OccupiedUpTo(EmptyGrid(n), n, r) == 0
  {
    if r > 0 {
      EmptyGridNoneOccupied(n, r - 1);
      var row := EmptyGrid(n)[r - 1];
      CountFull(row, Empty);
    }
  }

  /** On a 1-by-1 board every move ends the match: the one cell fills the board. */
  lemma SingleCellEndsMatch(g: Grid, m: Mark, m1: Mark, m2: Mark)
    requires Square(g, 1) && g[0][0] == Empty
    ensures Judge(Place(g, 0, 0, m), 1, m1, m2) != Ongoing
  {
    ActionsSpec(g, 1);
    PlaceTakesAction(g, 1, (0, 0), m);
  }
}
