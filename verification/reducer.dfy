/**
 * The game session state and its pure transition function.
 *
 * `Reduce` is total over its inputs; where the original throws (a win check on
 * a board with a row shorter than the first) it returns `Failure`.
 */
module Reducer {
  import opened Wrappers
  import opened Board
  import opened Sequences

  datatype DrawMode = Manual | Auto(intervalMillis: int)

  datatype GameUiModel = GameUiModel(
    board: Option<GameBoard>,
    drawn: set<int>,
    lastDrawn: Option<int>,
    mode: DrawMode,
    isRunning: bool,
    wins: WinCheck,
    errorMessage: Option<string>)

  /** The state before the first `Start`: no board, nothing drawn, manual and stopped. */
  const INITIAL_STATE: GameUiModel :=
    GameUiModel(None, {}, None, Manual, false, WinCheck(map[]), None)

  datatype GameAction =
    | Start(startBoard: GameBoard, startMode: DrawMode)
    | Pause
    | Resume
    | Reset
    | DrawOne(number: int)
    | Fail(message: string)

  /** `n.coerceIn(lo, hi)`: the number of [lo, hi] nearest to `n`. */
  function CoerceIn(n: int, lo: int, hi: int): (r: int)
    requires lo <= hi
    ensures lo <= r <= hi
    ensures lo <= n <= hi ==> r == n
    ensures n < lo ==> r == lo
    ensures hi < n ==> r == hi
  {
    if n < lo then lo else if hi < n then hi else n
  }

  /** A drawn number brought into the ball range. */
  function Clamp(n: int): int {
    CoerceIn(n, BINGO_MIN_NUMBER, BINGO_MAX_NUMBER)
  }

  /**
   * `reduce`: the next state. It throws exactly where the win check it runs
   * throws: Start with a board that has a row shorter than the first, or Reset
   * and DrawOne on such a board. Only Start replaces the board or the mode.
   */
  function Reduce(s: GameUiModel, a: GameAction, patterns: seq<WinPattern>): (r: Result<GameUiModel, BoardError>)
    ensures r.Failure? <==>
      || (a.Start? && !Readable(a.startBoard))
      || ((a.Reset? || a.DrawOne?) && s.board.Some? && !Readable(s.board.value))
    ensures r.Success? && a.Start? ==> r.value.board == Some(a.startBoard) && r.value.mode == a.startMode
    ensures r.Success? && !a.Start? ==> r.value.board == s.board && r.value.mode == s.mode
  {
    match a
    case Start(b, m) =>
      var wins :- CheckWins(b, {}, patterns);
      Success(s.(board := Some(b), drawn := {}, lastDrawn := None, mode := m,
                 isRunning := m.Auto?, wins := wins, errorMessage := None))
    case Pause =>
      Success(s.(isRunning := false))
    case Resume =>
      Success(s.(isRunning := s.mode.Auto?))
    case Reset =>
      var wins :- if s.board.Some? then CheckWins(s.board.value, {}, patterns) else Success(WinCheck(map[]));
      Success(s.(drawn := {}, lastDrawn := None, isRunning := false, wins := wins, errorMessage := None))
    case DrawOne(number) =>
      if s.board.None? then Success(s)
      else
        var n := Clamp(number);
        var next := if n in s.drawn then s.drawn else s.drawn + {n};
        var wins :- CheckWins(s.board.value, next, patterns);
        Success(s.(drawn := next, lastDrawn := Some(n), wins := wins, errorMessage := None))
    case Fail(msg) =>
      Success(s.(errorMessage := Some(msg)))
  }

  // ---------------------------------------------------------------------------
  // The session invariant

  /** Every number lies in the ball range. */
  predicate InBallRange(drawn: set<int>) {
    forall x :: x in drawn ==> BINGO_MIN_NUMBER <= x <= BINGO_MAX_NUMBER
  }

  /**
   * What every state reachable from `INITIAL_STATE` satisfies: drawn numbers
   * lie in the ball range, the last drawn number is one of them, only Auto
   * mode runs, nothing is drawn without a board, and the wins are the win
   * check of the board for the drawn numbers.
   */
  ghost predicate Consistent(s: GameUiModel, patterns: seq<WinPattern>) {
    && InBallRange(s.drawn)
    && (s.lastDrawn.Some? ==> s.lastDrawn.value in s.drawn)
    && (s.isRunning ==> s.mode.Auto?)
    && (s.board.None? ==> s.drawn == {} && s.lastDrawn.None? && s.wins == WinCheck(map[]))
    && (s.board.Some? ==> Readable(s.board.value) && CheckWins(s.board.value, s.drawn, patterns) == Success(s.wins))
  }

  lemma InitialStateConsistent(patterns: seq<WinPattern>)
    ensures Consistent(INITIAL_STATE, patterns)
  {
  }

  /**
   * From a consistent state only `Start` with an unreadable board fails, and
   * every step that succeeds leads to a consistent state.
   */
  lemma ReducePreservesConsistent(s: GameUiModel, a: GameAction, patterns: seq<WinPattern>)
    requires Consistent(s, patterns)
    ensures Reduce(s, a, patterns).Failure? <==> a.Start? && !Readable(a.startBoard)
    ensures Reduce(s, a, patterns).Success? ==> Consistent(Reduce(s, a, patterns).value, patterns)
  {
  }

  /** The integers of [lo, hi). */
  function Interval(lo: int, hi: int): (r: set<int>)
    ensures forall x :: x in r <==> lo <= x < hi
    ensures |r| == if lo < hi then hi - lo else 0
    decreases hi - lo
  {
    if hi <= lo then {} else Interval(lo, hi - 1) + {hi - 1}
  }

  /** A ball-range set of numbers has at most 90 elements. */
  lemma DrawnAtMost90(drawn: set<int>)
    requires InBallRange(drawn)
    ensures |drawn| <= BINGO_MAX_NUMBER - BINGO_MIN_NUMBER + 1
  {
    SubsetOfIntervalSize(drawn, BINGO_MIN_NUMBER, BINGO_MAX_NUMBER);
  }

  lemma SubsetOfIntervalSize(xs: set<int>, lo: int, hi: int)
    requires lo <= hi
    requires forall x :: x in xs ==> lo <= x <= hi
    ensures |xs| <= hi - lo + 1
  {
    SubsetSize(xs, Interval(lo, hi + 1));
  }

  lemma {:induction false} SubsetSize<T>(xs: set<T>, ys: set<T>)
    requires xs <= ys
    ensures |xs| <= |ys|
    decreases |xs|
  {
    if xs != {} {
      var x :| x in xs;
      SubsetSize(xs - {x}, ys - {x});
    }
  }

  // ---------------------------------------------------------------------------
  // Per-action effects

  /**
   * Start installs the board and mode with nothing drawn, runs iff the mode is
   * Auto, clears the error, and reports only empty winning sets.
   */
  lemma StartEffect(s: GameUiModel, b: GameBoard, m: DrawMode, patterns: seq<WinPattern>)
    ensures Reduce(s, Start(b, m), patterns).Success? <==> Readable(b)
    ensures Readable(b) ==>
      var t := Reduce(s, Start(b, m), patterns).value;
      && t.board == Some(b) && t.drawn == {} && t.lastDrawn == None && t.mode == m
      && t.isRunning == m.Auto? && t.errorMessage == None
      && CheckWins(b, {}, patterns) == Success(t.wins)
      && forall name, w :: name in t.wins.achieved && w in t.wins.achieved[name] ==> w == {}
  {
    if Readable(b) {
      var t := Reduce(s, Start(b, m), patterns).value;
      forall name, w | name in t.wins.achieved && w in t.wins.achieved[name]
        ensures w == {}
      {
        NothingDrawnOnlyEmptySetsWin(b, patterns, name, w);
      }
    }
  }

  /** Pause stops running and changes nothing else; pausing twice is pausing once. */
  lemma PauseEffect(s: GameUiModel, patterns: seq<WinPattern>)
    ensures Reduce(s, Pause, patterns) == Success(s.(isRunning := false))
    ensures Reduce(Reduce(s, Pause, patterns).value, Pause, patterns) == Reduce(s, Pause, patterns)
  {
  }

  /**
   * Resume runs iff the mode is Auto, whatever the running flag was, and
   * changes nothing else.
   */
  lemma ResumeEffect(s: GameUiModel, running: bool, patterns: seq<WinPattern>)
    ensures Reduce(s, Resume, patterns) == Success(s.(isRunning := s.mode.Auto?))
    ensures Reduce(s.(isRunning := running), Resume, patterns) == Reduce(s, Resume, patterns)
  {
  }

  /** Fail records the message and changes nothing else; a later Fail overrides it. */
  lemma FailEffect(s: GameUiModel, msg: string, later: string, patterns: seq<WinPattern>)
    ensures Reduce(s, Fail(msg), patterns) == Success(s.(errorMessage := Some(msg)))
    ensures Reduce(Reduce(s, Fail(msg), patterns).value, Fail(later), patterns) == Reduce(s, Fail(later), patterns)
  {
  }

  /**
   * Reset keeps board and mode, forgets every draw, stops, clears the error
   * and reports the board's zero-draw wins (none without a board).
   */
  lemma ResetEffect(s: GameUiModel, patterns: seq<WinPattern>)
    requires s.board.Some? ==> Readable(s.board.value)
    ensures Reduce(s, Reset, patterns).Success?
    ensures var t := Reduce(s, Reset, patterns).value;
      && t.board == s.board && t.mode == s.mode
      && t.drawn == {} && t.lastDrawn == None && !t.isRunning && t.errorMessage == None
      && (s.board.Some? ==> CheckWins(s.board.value, {}, patterns) == Success(t.wins))
      && (s.board.None? ==> t.wins == WinCheck(map[]))
  {
  }

  /** DrawOne without a board leaves the state as it is. */
  lemma DrawOneWithoutBoard(s: GameUiModel, n: int, patterns: seq<WinPattern>)
    requires s.board.None?
    ensures Reduce(s, DrawOne(n), patterns) == Success(s)
  {
  }

  /**
   * DrawOne with a board adds the clamped number to the drawn set (growing it
   * by one exactly when it is new), records it as last drawn, recomputes the
   * wins and clears the error; board, mode and running flag are unchanged.
   */
  lemma DrawOneEffect(s: GameUiModel, n: int, patterns: seq<WinPattern>)
    requires s.board.Some? && Readable(s.board.value)
    ensures Reduce(s, DrawOne(n), patterns).Success?
    ensures var t := Reduce(s, DrawOne(n), patterns).value;
      && BINGO_MIN_NUMBER <= Clamp(n) <= BINGO_MAX_NUMBER
      && t.drawn == s.drawn + {Clamp(n)}
      && |t.drawn| == |s.drawn| + (if Clamp(n) in s.drawn then 0 else 1)
      && t.lastDrawn == Some(Clamp(n))
      && t.board == s.board && t.mode == s.mode && t.isRunning == s.isRunning
      && t.errorMessage == None
      && CheckWins(s.board.value, t.drawn, patterns) == Success(t.wins)
  {
    var c := Clamp(n);
    if c in s.drawn {
      assert s.drawn + {c} == s.drawn;
    }
  }

  /** Drawing the same number twice is drawing it once. */
  lemma DrawOneIdempotent(s: GameUiModel, n: int, patterns: seq<WinPattern>)
    requires Reduce(s, DrawOne(n), patterns).Success?
    ensures Reduce(Reduce(s, DrawOne(n), patterns).value, DrawOne(n), patterns) == Reduce(s, DrawOne(n), patterns)
  {
    if s.board.Some? {
      var t := Reduce(s, DrawOne(n), patterns).value;
      assert Clamp(n) in t.drawn;
    }
  }

  // ---------------------------------------------------------------------------
  // Runs of actions

  /** The state after applying `actions` in order; the first failure stops the run. */
  function ReduceAll(s: GameUiModel, actions: seq<GameAction>, patterns: seq<WinPattern>): Result<GameUiModel, BoardError>
    decreases |actions|
  {
    if actions == [] then Success(s)
    else
      var t :- Reduce(s, actions[0], patterns);
      ReduceAll(t, actions[1..], patterns)
  }

  /** Neither Start nor Reset: the actions that never take a number back. */
  predicate KeepsDraws(a: GameAction) {
    !a.Start? && !a.Reset?
  }

  /**
   * Until a Start or Reset, a consistent session keeps its board, the drawn
   * set only grows, and every reported winning set stays reported.
   */
  lemma {:induction false} DrawsOnlyGrow(s: GameUiModel, actions: seq<GameAction>, patterns: seq<WinPattern>)
    requires Consistent(s, patterns)
    requires forall i :: 0 <= i < |actions| ==> KeepsDraws(actions[i])
    ensures ReduceAll(s, actions, patterns).Success?
    ensures var t := ReduceAll(s, actions, patterns).value;
      && Consistent(t, patterns) && t.board == s.board && s.drawn <= t.drawn
      && forall p :: p in patterns && PatternName(p) in s.wins.achieved ==>
           PatternName(p) in t.wins.achieved &&
           IsSublist(s.wins.achieved[PatternName(p)], t.wins.achieved[PatternName(p)])
    decreases |actions|
  {
    if actions == [] {
      forall p | p in patterns && PatternName(p) in s.wins.achieved
        ensures IsSublist(s.wins.achieved[PatternName(p)], s.wins.achieved[PatternName(p)])
      {
        SublistReflexive(s.wins.achieved[PatternName(p)]);
      }
    } else {
      var a := actions[0];
      ReducePreservesConsistent(s, a, patterns);
      var t := Reduce(s, a, patterns).value;
      assert t.board == s.board && s.drawn <= t.drawn by {
        if a.DrawOne? && s.board.Some? {
          DrawOneEffect(s, a.number, patterns);
        }
      }
      DrawsOnlyGrow(t, actions[1..], patterns);
      var u := ReduceAll(t, actions[1..], patterns).value;
      forall p | p in patterns && PatternName(p) in s.wins.achieved
        ensures PatternName(p) in u.wins.achieved
        ensures IsSublist(s.wins.achieved[PatternName(p)], u.wins.achieved[PatternName(p)])
      {
        WinsCarryOver(s, t, u, patterns, p);
      }
    }
  }

  /** A winning set reported before a step that only adds draws is still reported after it and the rest of the run. */
  lemma WinsCarryOver(s: GameUiModel, t: GameUiModel, u: GameUiModel, patterns: seq<WinPattern>, p: WinPattern)
    requires Consistent(s, patterns) && Consistent(t, patterns)
    requires t.board == s.board && s.drawn <= t.drawn
    requires p in patterns && PatternName(p) in s.wins.achieved
    requires PatternName(p) in t.wins.achieved ==>
      PatternName(p) in u.wins.achieved &&
      IsSublist(t.wins.achieved[PatternName(p)], u.wins.achieved[PatternName(p)])
    ensures PatternName(p) in u.wins.achieved
    ensures IsSublist(s.wins.achieved[PatternName(p)], u.wins.achieved[PatternName(p)])
  {
    var b := s.board.value;
    assert CheckWins(b, s.drawn, patterns) == Success(s.wins);
    assert CheckWins(b, t.drawn, patterns) == Success(t.wins);
    CheckWinsMonotone(b, s.drawn, t.drawn, patterns, p);
    SublistTransitive(s.wins.achieved[PatternName(p)], t.wins.achieved[PatternName(p)],
                      u.wins.achieved[PatternName(p)]);
  }

  /** Reset after any run of draws gives what Reset gives straight away. */
  lemma {:induction false} ResetForgetsDraws(s: GameUiModel, numbers: seq<int>, patterns: seq<WinPattern>)
    requires Consistent(s, patterns)
    ensures var draws := seq(|numbers|, i requires 0 <= i < |numbers| => DrawOne(numbers[i]));
      && ReduceAll(s, draws, patterns).Success?
      && Reduce(ReduceAll(s, draws, patterns).value, Reset, patterns) == Reduce(s, Reset, patterns)
    decreases |numbers|
  {
    var draws := seq(|numbers|, i requires 0 <= i < |numbers| => DrawOne(numbers[i]));
    if numbers != [] {
      ReducePreservesConsistent(s, draws[0], patterns);
      var t := Reduce(s, draws[0], patterns).value;
      ResetForgetsDraws(t, numbers[1..], patterns);
      assert draws[1..] == seq(|numbers[1..]|, i requires 0 <= i < |numbers[1..]| => DrawOne(numbers[1..][i]));
      if s.board.Some? {
        DrawOneEffect(s, numbers[0], patterns);
      }
    }
  }
}
