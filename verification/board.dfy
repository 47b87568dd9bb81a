/**
 * The Bingo board, the three win patterns and win evaluation.
 *
 * A board is a matrix of optional numbers; a cell holding `null` or the
 * sentinel -1 has no number. Reading a cell outside the matrix throws in the
 * original; here every reader returns a `Result` whose failure is
 * `IndexOutOfBounds`.
 */
module Board {
  import opened Wrappers
  import opened Sequences

  /** A cell coordinate, (row, column). */
  type Pos = (int, int)

  /** The smallest and largest number a ball can carry. */
  const BINGO_MIN_NUMBER: int := 1
  const BINGO_MAX_NUMBER: int := 90

  /** The cell value that marks a slot with no number on the card. */
  const EMPTY_CELL: int := -1

  /** What reading a cell outside the matrix throws. */
  datatype BoardError = IndexOutOfBounds

  datatype GameBoard = GameBoard(matrix: seq<seq<Option<int>>>)

  /** The result of a win check: pattern name to the completed winning sets. */
  datatype WinCheck = WinCheck(achieved: map<string, seq<set<Pos>>>)

  datatype WinPattern = RowsPattern | FourCornersPattern | FullHousePattern

  // ---------------------------------------------------------------------------
  // Board geometry

  /** The number of rows: the length of the matrix. */
  function Rows(b: GameBoard): nat {
    |b.matrix|
  }

  /** The number of columns: the length of the first row, or 0 without rows. */
  function Cols(b: GameBoard): nat {
    if |b.matrix| == 0 then 0 else |b.matrix[0]|
  }

  /** `p` lies in the rectangle the board enumerates. */
  predicate InGrid(b: GameBoard, p: Pos) {
    0 <= p.0 < Rows(b) && 0 <= p.1 < Cols(b)
  }

  /** `p` indexes an existing cell of the matrix. */
  predicate InMatrix(b: GameBoard, p: Pos) {
    0 <= p.0 < |b.matrix| && 0 <= p.1 < |b.matrix[p.0]|
  }

  /** The cell at `p`; fails when `p` is outside the row it indexes. */
  function ValueAt(b: GameBoard, p: Pos): (r: Result<Option<int>, BoardError>)
    ensures r.Success? <==> InMatrix(b, p)
    ensures r.Success? ==> r.value == b.matrix[p.0][p.1]
    ensures r.Failure? ==> r.error == IndexOutOfBounds
  {
    if InMatrix(b, p) then Success(b.matrix[p.0][p.1]) else Failure(IndexOutOfBounds)
  }

  /** Lexicographic order on positions, the order of a row-major walk. */
  predicate LexLess(p: Pos, q: Pos) {
    p.0 < q.0 || (p.0 == q.0 && p.1 < q.1)
  }

  /** The cells of row `r` of a `cols`-wide grid, left to right. */
  function RowCells(r: int, cols: nat): seq<Pos> {
    seq(cols, c => (r, c))
  }

  /** The cells of the first `rows` rows of a `cols`-wide grid, row after row. */
  function RowMajor(rows: nat, cols: nat): seq<Pos> {
    if rows == 0 then [] else RowMajor(rows - 1, cols) + RowCells(rows - 1, cols)
  }

  lemma {:induction false} RowMajorSpec(rows: nat, cols: nat)
    ensures |RowMajor(rows, cols)| == rows * cols
    ensures forall p :: p in RowMajor(rows, cols) <==> 0 <= p.0 < rows && 0 <= p.1 < cols
    ensures forall i, j :: 0 <= i < j < |RowMajor(rows, cols)| ==>
              LexLess(RowMajor(rows, cols)[i], RowMajor(rows, cols)[j])
  {
    if rows > 0 {
      RowMajorSpec(rows - 1, cols);
      var pre, last := RowMajor(rows - 1, cols), RowCells(rows - 1, cols);
      var all := pre + last;
      assert all == RowMajor(rows, cols);
      assert |all| == (rows - 1) * cols + cols == rows * cols;
      forall p
        ensures p in all <==> 0 <= p.0 < rows && 0 <= p.1 < cols
      {
        if 0 <= p.0 < rows && 0 <= p.1 < cols && p.0 == rows - 1 {
          assert last[p.1] == p;
        }
      }
      forall i, j | 0 <= i < j < |all|
        ensures LexLess(all[i], all[j])
      {
        if i < |pre| <= j {
          assert pre[i] in pre;
        }
      }
    }
  }

  /**
   * Every position of the grid, in row-major order: exactly the pairs
   * (r, c) with r < rows and c < cols, each once, in lexicographic order.
   */
  function Positions(b: GameBoard): (ps: seq<Pos>)
    ensures |ps| == Rows(b) * Cols(b)
    ensures forall p :: p in ps <==> InGrid(b, p)
    ensures forall i, j :: 0 <= i < j < |ps| ==> LexLess(ps[i], ps[j])
  {
    RowMajorSpec(Rows(b), Cols(b));
    RowMajor(Rows(b), Cols(b))
  }

  /** No row is shorter than the first (longer rows are fine: their extra cells are never read). */
  predicate Readable(b: GameBoard) {
    forall r :: 0 <= r < |b.matrix| ==> Cols(b) <= |b.matrix[r]|
  }

  /** The cell at a grid position of a readable board. */
  function Cell(b: GameBoard, p: Pos): Option<int>
    requires Readable(b) && InGrid(b, p)
  {
    b.matrix[p.0][p.1]
  }

  /** Reading every enumerated position succeeds exactly on a readable board. */
  lemma {:induction false} ReadableIffPositionsReadable(b: GameBoard)
    ensures Readable(b) <==> forall p :: p in Positions(b) ==> ValueAt(b, p).Success?
  {
    if !Readable(b) {
      var r :| 0 <= r < |b.matrix| && |b.matrix[r]| < Cols(b);
      var p := (r, |b.matrix[r]|);
      assert p in Positions(b) && ValueAt(b, p).Failure?;
    }
  }

  // ---------------------------------------------------------------------------
  // Marking

  /** A cell with a number: present and not the sentinel. */
  predicate Playable(v: Option<int>) {
    v.Some? && v.value != EMPTY_CELL
  }

  /** A cell whose number has been drawn. */
  predicate MarkedBy(v: Option<int>, drawn: set<int>) {
    Playable(v) && v.value in drawn
  }

  /**
   * The positions whose cell holds a drawn number. A null or sentinel cell is
   * never marked, whatever `drawn` holds. Fails exactly on a board with a row
   * shorter than the first.
   */
  function MarkedPositions(b: GameBoard, drawn: set<int>): (r: Result<set<Pos>, BoardError>)
    ensures r.Success? <==> Readable(b)
    ensures r.Success? ==> forall p :: p in r.value <==> InGrid(b, p) && MarkedBy(Cell(b, p), drawn)
  {
    ReadableIffPositionsReadable(b);
    if exists p :: p in Positions(b) && ValueAt(b, p).Failure? then
      Failure(IndexOutOfBounds)
    else
      Success(set p | p in Positions(b) && MarkedBy(ValueAt(b, p).value, drawn))
  }

  /** Drawing more numbers never unmarks a position. */
  lemma MarkedMonotone(b: GameBoard, d1: set<int>, d2: set<int>)
    requires Readable(b) && d1 <= d2
    ensures MarkedPositions(b, d1).value <= MarkedPositions(b, d2).value
  {
  }

  // ---------------------------------------------------------------------------
  // Win patterns

  function PatternName(p: WinPattern): string {
    match p
    case RowsPattern => "Row"
    case FourCornersPattern => "Four Corners"
    case FullHousePattern => "Full House"
  }

  /** Distinct patterns carry distinct names, so they never share a key of a win check. */
  lemma PatternNameInjective(p: WinPattern)
    ensures forall q :: PatternName(q) == PatternName(p) ==> q == p
  {
  }

  /** The cells of row `r` of a `cols`-wide grid, as a set. */
  function RowSet(r: int, cols: nat): set<Pos> {
    set c | 0 <= c < cols :: (r, c)
  }

  lemma {:induction false} RowSetSize(r: int, cols: nat)
    ensures |RowSet(r, cols)| == cols
  {
    if cols > 0 {
      RowSetSize(r, cols - 1);
      assert RowSet(r, cols) == RowSet(r, cols - 1) + {(r, cols - 1)};
    }
  }

  function RowSets(b: GameBoard): seq<set<Pos>> {
    seq(Rows(b), r => RowSet(r, Cols(b)))
  }

  /** The four corners, or nothing on a board without rows or columns. */
  function CornerSets(b: GameBoard): seq<set<Pos>> {
    if Rows(b) == 0 || Cols(b) == 0 then []
    else [{(0, 0), (0, Cols(b) - 1), (Rows(b) - 1, 0), (Rows(b) - 1, Cols(b) - 1)}]
  }

  /** One set of every playable position; fails where reading the board fails. */
  function FullHouseSets(b: GameBoard): (r: Result<seq<set<Pos>>, BoardError>)
    ensures r.Success? <==> Readable(b)
    ensures r.Success? ==> |r.value| == 1 && forall p :: p in r.value[0] <==> InGrid(b, p) && Playable(Cell(b, p))
  {
    ReadableIffPositionsReadable(b);
    if exists p :: p in Positions(b) && ValueAt(b, p).Failure? then
      Failure(IndexOutOfBounds)
    else
      Success([set p | p in Positions(b) && Playable(ValueAt(b, p).value)])
  }

  /** The winning sets a pattern considers on a board, in the pattern's order. */
  function PatternPositions(p: WinPattern, b: GameBoard): (r: Result<seq<set<Pos>>, BoardError>)
    ensures r.Failure? <==> p.FullHousePattern? && !Readable(b)
  {
    match p
    case RowsPattern => Success(RowSets(b))
    case FourCornersPattern => Success(CornerSets(b))
    case FullHousePattern => FullHouseSets(b)
  }

  /** Row: one set per row, set r holding exactly the `cols` cells of row r. */
  lemma RowsPatternShape(b: GameBoard)
    ensures PatternPositions(RowsPattern, b).Success?
    ensures |PatternPositions(RowsPattern, b).value| == Rows(b)
    ensures forall r :: 0 <= r < Rows(b) ==>
              |PatternPositions(RowsPattern, b).value[r]| == Cols(b) &&
              forall p :: p in PatternPositions(RowsPattern, b).value[r] <==> InGrid(b, p) && p.0 == r
  {
    forall r | 0 <= r < Rows(b)
      ensures |RowSets(b)[r]| == Cols(b)
    {
      RowSetSize(r, Cols(b));
    }
  }

  /**
   * Four corners: nothing on a degenerate board, otherwise one set holding
   * exactly the positions in the first or last row and the first or last
   * column; at most four of them, fewer on a one-row or one-column board.
   */
  lemma FourCornersShape(b: GameBoard)
    ensures PatternPositions(FourCornersPattern, b).Success?
    ensures var sets := PatternPositions(FourCornersPattern, b).value;
      && |sets| == (if Rows(b) == 0 || Cols(b) == 0 then 0 else 1)
      && (sets != [] ==> |sets[0]| == (if Rows(b) == 1 then 1 else 2) * (if Cols(b) == 1 then 1 else 2))
      && (sets != [] ==> |sets[0]| <= 4 && forall p :: p in sets[0] ==> InGrid(b, p))
      && (sets != [] ==> forall p :: p in sets[0] <==>
            (p.0 == 0 || p.0 == Rows(b) - 1) && (p.1 == 0 || p.1 == Cols(b) - 1))
  {
    if Rows(b) != 0 && Cols(b) != 0 {
      var rl, cl := Rows(b) - 1, Cols(b) - 1;
      var s := CornerSets(b)[0];
      if rl == 0 && cl == 0 {
        assert s == {(0, 0)};
      } else if rl == 0 {
        assert s == {(0, 0), (0, cl)};
      } else if cl == 0 {
        assert s == {(0, 0), (rl, 0)};
      } else {
        assert s == {(0, 0), (0, cl)} + {(rl, 0), (rl, cl)};
        assert |{(0, 0), (0, cl)}| == 2;
        assert |{(rl, 0), (rl, cl)}| == 2;
      }
    }
  }

  /** Full house: exactly one set, the playable positions of the grid. */
  lemma FullHouseShape(b: GameBoard)
    ensures PatternPositions(FullHousePattern, b).Success? <==> Readable(b)
    ensures Readable(b) ==>
      && |PatternPositions(FullHousePattern, b).value| == 1
      && forall p :: p in PatternPositions(FullHousePattern, b).value[0] <==>
           InGrid(b, p) && Playable(Cell(b, p))
  {
  }

  // ---------------------------------------------------------------------------
  // Win evaluation

  /**
   * The sets wholly inside `marked`, in their order: a sublist of `sets` that
   * keeps every occurrence of such a set and no other set.
   */
  function Surviving(sets: seq<set<Pos>>, marked: set<Pos>): (r: seq<set<Pos>>)
    ensures IsSublist(r, sets)
    ensures forall s :: s in r <==> s in sets && s <= marked
  {
    if sets == [] then []
    else
      var rest := Surviving(sets[1..], marked);
      if sets[0] <= marked then [sets[0]] + rest else rest
  }

  /** A set survives as often as `sets` lists it if it lies inside `marked`, and otherwise not at all. */
  lemma {:induction false} SurvivingCounts(sets: seq<set<Pos>>, marked: set<Pos>)
    ensures forall s :: multiset(Surviving(sets, marked))[s] == (if s <= marked then multiset(sets)[s] else 0)
  {
    if sets != [] {
      var rest := Surviving(sets[1..], marked);
      SurvivingCounts(sets[1..], marked);
      assert sets == [sets[0]] + sets[1..];
      assert multiset(sets) == multiset{sets[0]} + multiset(sets[1..]);
      if sets[0] <= marked {
        assert Surviving(sets, marked) == [sets[0]] + rest;
        assert multiset([sets[0]] + rest) == multiset{sets[0]} + multiset(rest);
      }
    }
  }

  /** More marked positions keep every surviving set, in order. */
  lemma {:induction false} SurvivingMonotone(sets: seq<set<Pos>>, m1: set<Pos>, m2: set<Pos>)
    requires m1 <= m2
    ensures IsSublist(Surviving(sets, m1), Surviving(sets, m2))
  {
    if sets != [] {
      SurvivingMonotone(sets[1..], m1, m2);
      var r1, r2 := Surviving(sets[1..], m1), Surviving(sets[1..], m2);
      if sets[0] <= m1 {
        assert ([sets[0]] + r1)[1..] == r1;
        assert ([sets[0]] + r2)[1..] == r2;
      } else if sets[0] <= m2 {
        SublistOfTail(r1, r2, sets[0]);
      }
    }
  }

  /** Every position of `s` lies on the grid and holds a drawn number. */
  predicate AllMarked(b: GameBoard, s: set<Pos>, drawn: set<int>)
    requires Readable(b)
  {
    forall p :: p in s ==> InGrid(b, p) && MarkedBy(Cell(b, p), drawn)
  }

  /** The names of a list of patterns. */
  function Names(patterns: seq<WinPattern>): set<string> {
    set p | p in patterns :: PatternName(p)
  }

  /** The sets of `p` on `b` that lie inside `marked`. */
  function Completed(p: WinPattern, b: GameBoard, marked: set<Pos>): seq<set<Pos>>
    requires Readable(b)
  {
    Surviving(PatternPositions(p, b).value, marked)
  }

  /** The completed sets of a pattern are the ones made of drawn cells, in the pattern's order. */
  lemma CompletedSpec(b: GameBoard, drawn: set<int>, marked: set<Pos>, p: WinPattern)
    requires MarkedPositions(b, drawn) == Success(marked)
    ensures IsSublist(Completed(p, b, marked), PatternPositions(p, b).value)
    ensures forall s :: s in Completed(p, b, marked) <==> s in PatternPositions(p, b).value && AllMarked(b, s, drawn)
    ensures forall s :: multiset(Completed(p, b, marked))[s] ==
                        (if AllMarked(b, s, drawn) then multiset(PatternPositions(p, b).value)[s] else 0)
  {
    SurvivingCounts(PatternPositions(p, b).value, marked);
    forall s ensures s <= marked <==> AllMarked(b, s, drawn) {
    }
  }

  /** The map built by putting each pattern with a completed set, in list order. */
  function Achieved(b: GameBoard, marked: set<Pos>, patterns: seq<WinPattern>): (m: map<string, seq<set<Pos>>>)
    requires Readable(b)
    ensures m.Keys <= Names(patterns)
    ensures forall p :: p in patterns ==> (PatternName(p) in m <==> Completed(p, b, marked) != [])
    ensures forall p :: p in patterns && PatternName(p) in m ==> m[PatternName(p)] == Completed(p, b, marked)
    decreases |patterns|
  {
    if patterns == [] then map[]
    else
      var acc := Achieved(b, marked, patterns[..|patterns| - 1]);
      var p := patterns[|patterns| - 1];
      var ok := Completed(p, b, marked);
      assert forall q :: q in patterns ==> q == p || q in patterns[..|patterns| - 1];
      PatternNameInjective(p);
      if ok != [] then acc[PatternName(p) := ok] else acc
  }

  /** The win check; fails exactly on a board with a row shorter than the first. */
  function CheckWins(b: GameBoard, drawn: set<int>, patterns: seq<WinPattern>): (r: Result<WinCheck, BoardError>)
    ensures r.Success? <==> Readable(b)
  {
    var marked :- MarkedPositions(b, drawn);
    Success(WinCheck(Achieved(b, marked, patterns)))
  }

  /**
   * What the win check reports for a pattern of the list: its name is present
   * iff one of its winning sets has every position holding a drawn number, and
   * then maps to exactly those sets, in the pattern's order. No other name is
   * present. (`CheckWinsCounts` adds that each set occurs as often as the
   * pattern lists it.)
   */
  lemma CheckWinsSpec(b: GameBoard, drawn: set<int>, patterns: seq<WinPattern>, p: WinPattern)
    requires Readable(b) && p in patterns
    ensures CheckWins(b, drawn, patterns).value.achieved.Keys <= Names(patterns)
    ensures PatternName(p) in CheckWins(b, drawn, patterns).value.achieved <==>
      exists s :: s in PatternPositions(p, b).value && AllMarked(b, s, drawn)
    ensures PatternName(p) in CheckWins(b, drawn, patterns).value.achieved ==>
      IsSublist(CheckWins(b, drawn, patterns).value.achieved[PatternName(p)], PatternPositions(p, b).value)
    ensures PatternName(p) in CheckWins(b, drawn, patterns).value.achieved ==>
      forall s :: s in CheckWins(b, drawn, patterns).value.achieved[PatternName(p)] <==>
        s in PatternPositions(p, b).value && AllMarked(b, s, drawn)
  {
    var marked := MarkedPositions(b, drawn).value;
    var w := Achieved(b, marked, patterns);
    assert CheckWins(b, drawn, patterns).value.achieved == w;
    CompletedSpec(b, drawn, marked, p);
    var ok := Completed(p, b, marked);
    assert PatternName(p) in w <==> ok != [];
    assert PatternName(p) in w ==> w[PatternName(p)] == ok;
    if ok != [] {
      assert ok[0] in ok;
    }
    if exists s :: s in PatternPositions(p, b).value && AllMarked(b, s, drawn) {
      var s :| s in PatternPositions(p, b).value && AllMarked(b, s, drawn);
      assert s in ok;
    }
  }

  /**
   * A reported pattern's winning sets occur exactly as often as the pattern
   * lists them when they are entirely drawn, and not at all otherwise; with
   * the sublist clause of `CheckWinsSpec` this fixes the reported list.
   */
  lemma CheckWinsCounts(b: GameBoard, drawn: set<int>, patterns: seq<WinPattern>, p: WinPattern)
    requires Readable(b) && p in patterns
    requires PatternName(p) in CheckWins(b, drawn, patterns).value.achieved
    ensures forall s :: multiset(CheckWins(b, drawn, patterns).value.achieved[PatternName(p)])[s] ==
                        (if AllMarked(b, s, drawn) then multiset(PatternPositions(p, b).value)[s] else 0)
  {
    var marked := MarkedPositions(b, drawn).value;
    assert CheckWins(b, drawn, patterns).value.achieved == Achieved(b, marked, patterns);
    CompletedSpec(b, drawn, marked, p);
  }

  // ---------------------------------------------------------------------------
  // Properties of the win check

  /** Drawing more numbers keeps every reported winning set reported, in order. */
  lemma CheckWinsMonotone(b: GameBoard, d1: set<int>, d2: set<int>, patterns: seq<WinPattern>, p: WinPattern)
    requires Readable(b) && d1 <= d2 && p in patterns
    requires PatternName(p) in CheckWins(b, d1, patterns).value.achieved
    ensures PatternName(p) in CheckWins(b, d2, patterns).value.achieved
    ensures IsSublist(CheckWins(b, d1, patterns).value.achieved[PatternName(p)],
                      CheckWins(b, d2, patterns).value.achieved[PatternName(p)])
  {
    var m1, m2 := MarkedPositions(b, d1).value, MarkedPositions(b, d2).value;
    CheckWinsSpec(b, d1, patterns, p);
    CheckWinsSpec(b, d2, patterns, p);
    MarkedMonotone(b, d1, d2);
    SurvivingMonotone(PatternPositions(p, b).value, m1, m2);
    var s :| s in Completed(p, b, m1);
    assert s in Completed(p, b, m2);
  }

  /** With nothing drawn, only an empty winning set can be reported. */
  lemma NothingDrawnOnlyEmptySetsWin(b: GameBoard, patterns: seq<WinPattern>, name: string, s: set<Pos>)
    requires Readable(b)
    requires name in CheckWins(b, {}, patterns).value.achieved
    requires s in CheckWins(b, {}, patterns).value.achieved[name]
    ensures s == {}
  {
    var p :| p in patterns && PatternName(p) == name;
    CheckWinsSpec(b, {}, patterns, p);
    assert forall q :: q !in s;
  }

  /** A board without playable cells wins Full House before any draw. */
  lemma EmptyFullHouseWinsAtOnce(b: GameBoard, patterns: seq<WinPattern>)
    requires Readable(b) && FullHousePattern in patterns
    requires forall p :: InGrid(b, p) ==> !Playable(Cell(b, p))
    ensures "Full House" in CheckWins(b, {}, patterns).value.achieved
    ensures CheckWins(b, {}, patterns).value.achieved["Full House"] == [{}]
  {
    CheckWinsSpec(b, {}, patterns, FullHousePattern);
    var sets := PatternPositions(FullHousePattern, b).value;
    assert |sets| == 1 && forall q :: q !in sets[0];
    assert sets[0] == {};
    assert sets == [sets[0]];
    assert AllMarked(b, sets[0], {});
    var won := CheckWins(b, {}, patterns).value.achieved["Full House"];
    assert won[0] in won;
    SublistOfSingleton(won, {});
  }

  /** Full House is reported exactly when every playable number of the board is drawn. */
  lemma FullHouseWonIff(b: GameBoard, drawn: set<int>, patterns: seq<WinPattern>)
    requires Readable(b) && FullHousePattern in patterns
    ensures "Full House" in CheckWins(b, drawn, patterns).value.achieved <==>
      forall p :: InGrid(b, p) && Playable(Cell(b, p)) ==> Cell(b, p).value in drawn
  {
    CheckWinsSpec(b, drawn, patterns, FullHousePattern);
    var full := PatternPositions(FullHousePattern, b).value[0];
    assert PatternName(FullHousePattern) == "Full House";
    assert forall s :: s in PatternPositions(FullHousePattern, b).value ==> s == full;
    if forall p :: InGrid(b, p) && Playable(Cell(b, p)) ==> Cell(b, p).value in drawn {
      assert AllMarked(b, full, drawn);
    }
  }

  /** Row r is reported exactly when every cell of row r holds a drawn number. */
  lemma RowWonIff(b: GameBoard, drawn: set<int>, patterns: seq<WinPattern>, r: int)
    requires Readable(b) && RowsPattern in patterns && 0 <= r < Rows(b)
    ensures var w := CheckWins(b, drawn, patterns).value.achieved;
      ("Row" in w && RowSet(r, Cols(b)) in w["Row"]) <==>
      forall c :: 0 <= c < Cols(b) ==> MarkedBy(Cell(b, (r, c)), drawn)
  {
    var row := RowSet(r, Cols(b));
    assert row == PatternPositions(RowsPattern, b).value[r];
    RowReported(b, drawn, patterns, row);
    RowAllMarked(b, drawn, r);
  }

  /** A row set is entirely drawn iff every cell of that row holds a drawn number. */
  lemma RowAllMarked(b: GameBoard, drawn: set<int>, r: int)
    requires Readable(b) && 0 <= r < Rows(b)
    ensures AllMarked(b, RowSet(r, Cols(b)), drawn) <==>
      forall c :: 0 <= c < Cols(b) ==> MarkedBy(Cell(b, (r, c)), drawn)
  {
    var row := RowSet(r, Cols(b));
    if forall c :: 0 <= c < Cols(b) ==> MarkedBy(Cell(b, (r, c)), drawn) {
      assert AllMarked(b, row, drawn);
    } else {
      var c :| 0 <= c < Cols(b) && !MarkedBy(Cell(b, (r, c)), drawn);
      assert (r, c) in row;
    }
  }

  /** A row set is reported under "Row" iff it is entirely drawn. */
  lemma RowReported(b: GameBoard, drawn: set<int>, patterns: seq<WinPattern>, row: set<Pos>)
    requires Readable(b) && RowsPattern in patterns
    requires row in PatternPositions(RowsPattern, b).value
    ensures var w := CheckWins(b, drawn, patterns).value.achieved;
      ("Row" in w && row in w["Row"]) <==> AllMarked(b, row, drawn)
  {
    CheckWinsSpec(b, drawn, patterns, RowsPattern);
    assert PatternName(RowsPattern) == "Row";
  }

  /**
   * "Four Corners" is reported exactly when the board has a cell and the four
   * corner cells all hold drawn numbers; it then maps to the one corner set.
   */
  lemma FourCornersWonIff(b: GameBoard, drawn: set<int>, patterns: seq<WinPattern>)
    requires Readable(b) && FourCornersPattern in patterns
    ensures var w := CheckWins(b, drawn, patterns).value.achieved;
      && ("Four Corners" in w <==>
            && Rows(b) > 0 && Cols(b) > 0
            && MarkedBy(Cell(b, (0, 0)), drawn)
            && MarkedBy(Cell(b, (0, Cols(b) - 1)), drawn)
            && MarkedBy(Cell(b, (Rows(b) - 1, 0)), drawn)
            && MarkedBy(Cell(b, (Rows(b) - 1, Cols(b) - 1)), drawn))
      && ("Four Corners" in w ==> w["Four Corners"] == PatternPositions(FourCornersPattern, b).value)
  {
    CheckWinsSpec(b, drawn, patterns, FourCornersPattern);
    assert PatternName(FourCornersPattern) == "Four Corners";
    var w := CheckWins(b, drawn, patterns).value.achieved;
    var sets := CornerSets(b);
    if "Four Corners" in w {
      var won := w["Four Corners"];
      assert won != [] && won[0] in won;
      assert sets == [sets[0]];
      SublistOfSingleton(won, sets[0]);
    }
  }

  /** A row with an empty (null or -1) cell is never reported, whatever is drawn. */
  lemma RowWithBlankNeverWins(b: GameBoard, drawn: set<int>, patterns: seq<WinPattern>, r: int, c: int)
    requires Readable(b) && RowsPattern in patterns && 0 <= r < Rows(b) && 0 <= c < Cols(b)
    requires !Playable(Cell(b, (r, c)))
    ensures var w := CheckWins(b, drawn, patterns).value.achieved;
      !("Row" in w && RowSet(r, Cols(b)) in w["Row"])
  {
    RowWonIff(b, drawn, patterns, r);
  }
}
