/**
 * The session controller: the one owner of the game state, which it changes
 * only through `Reduce`, plus the bookkeeping of the automatic draw job.
 *
 * The job itself (a coroutine that waits `intervalMillis` and calls
 * `DrawRandom`, forever) is not modelled; `autoJob` records whether the
 * controller holds a reference to one and at which interval it ticks.
 */
module Session {
  import opened Wrappers
  import opened Board
  import opened Reducer

  /** The numbers of the ball range not yet drawn, from `k` upwards, in increasing order. */
  function UndrawnFrom(k: int, drawn: set<int>): (pool: seq<int>)
    ensures forall x :: x in pool <==> k <= x <= BINGO_MAX_NUMBER && x !in drawn
    ensures forall i :: 0 <= i < |pool| ==> k <= pool[i]
    ensures forall i, j :: 0 <= i < j < |pool| ==> pool[i] < pool[j]
    decreases BINGO_MAX_NUMBER + 1 - k
  {
    if k > BINGO_MAX_NUMBER then []
    else (if k in drawn then [] else [k]) + UndrawnFrom(k + 1, drawn)
  }

  /** The pool `drawRandom` picks from: the undrawn numbers of the ball range, increasing. */
  function UndrawnPool(drawn: set<int>): seq<int> {
    UndrawnFrom(BINGO_MIN_NUMBER, drawn)
  }

  /** Every number of the ball range has been drawn. */
  predicate AllDrawn(drawn: set<int>) {
    forall x :: BINGO_MIN_NUMBER <= x <= BINGO_MAX_NUMBER ==> x in drawn
  }

  /** The pool is empty exactly when every number of the ball range is drawn. */
  lemma UndrawnPoolEmptyIff(drawn: set<int>)
    ensures UndrawnPool(drawn) == [] <==> AllDrawn(drawn)
  {
    if UndrawnPool(drawn) != [] {
      assert UndrawnPool(drawn)[0] in UndrawnPool(drawn);
    }
  }

  /**
   * `pool.random()` over the undrawn numbers: nothing when every number of the
   * ball range is drawn, otherwise some entry of the pool, which the
   * environment chooses.
   */
  method PickUndrawn(drawn: set<int>) returns (picked: Option<int>)
    ensures picked.None? <==> AllDrawn(drawn)
    ensures picked.Some? ==> picked.value in UndrawnPool(drawn)
    ensures picked.Some? ==> BINGO_MIN_NUMBER <= picked.value <= BINGO_MAX_NUMBER && picked.value !in drawn
  {
    var pool := UndrawnPool(drawn);
    UndrawnPoolEmptyIff(drawn);
    if |pool| == 0 {
      return None;
    }
    var i :| 0 <= i < |pool|;
    assert pool[i] in pool;
    picked := Some(pool[i]);
  }

  /**
   * Drawing an undrawn number of the ball range into a consistent state grows
   * the drawn set by exactly that number when there is a board, and changes
   * nothing when there is none.
   */
  lemma DrawUndrawnEffect(s: GameUiModel, n: int, patterns: seq<WinPattern>)
    requires Consistent(s, patterns)
    requires BINGO_MIN_NUMBER <= n <= BINGO_MAX_NUMBER && n !in s.drawn
    ensures Reduce(s, DrawOne(n), patterns).Success?
    ensures var t := Reduce(s, DrawOne(n), patterns).value;
      && Consistent(t, patterns)
      && (s.board.Some? ==> t.drawn == s.drawn + {n} && |t.drawn| == |s.drawn| + 1 && t.lastDrawn == Some(n))
      && (s.board.None? ==> t == s)
  {
    ReducePreservesConsistent(s, DrawOne(n), patterns);
    if s.board.Some? {
      DrawOneEffect(s, n, patterns);
    }
  }

  class GameViewModel {
    /** The win patterns the use case supplies; every transition uses this list. */
    const patterns: seq<WinPattern>
    var state: GameUiModel
    /** The interval of the auto-draw job the controller references, if any. */
    var autoJob: Option<int>
    /** Auto-draw jobs whose reference was overwritten while they still ran, so nothing can cancel them. */
    ghost var detachedJobs: nat

    /**
     * The state is consistent, and a referenced job belongs to a running
     * session whose mode is Auto with that job's interval. (A running session
     * without a job exists only after a `Start` that threw.)
     */
    ghost predicate Valid()
      reads this
    {
      && Consistent(state, patterns)
      && (autoJob.Some? ==> state.isRunning && state.mode == Auto(autoJob.value))
    }

    constructor (patterns: seq<WinPattern>)
      ensures Valid()
      ensures this.patterns == patterns && state == INITIAL_STATE && autoJob == None && detachedJobs == 0
    {
      this.patterns := patterns;
      state := INITIAL_STATE;
      autoJob := None;
      detachedJobs := 0;
      InitialStateConsistent(patterns);
    }

    /** Cancels the referenced job, if any, and drops the reference. */
    method StopAuto()
      modifies this`autoJob
      ensures autoJob == None
    {
      autoJob := None;
    }

    /** Launches a new job; a job still referenced is not cancelled but detached. */
    method StartAuto(interval: int)
      modifies this`autoJob, this`detachedJobs
      ensures autoJob == Some(interval)
      ensures detachedJobs == old(detachedJobs) + (if old(autoJob).Some? then 1 else 0)
    {
      if autoJob.Some? {
        detachedJobs := detachedJobs + 1;
      }
      autoJob := Some(interval);
    }

    /**
     * Cancels any job, applies `Start`, and launches a job when the mode is
     * Auto. On a board with a row shorter than the first the win check throws:
     * the state is left as it was and no job runs.
     */
    method Start(board: GameBoard, mode: DrawMode) returns (thrown: Option<BoardError>)
      requires Valid()
      modifies this
      ensures Valid()
      ensures thrown.None? <==> Readable(board)
      ensures thrown.None? ==> state == Reduce(old(state), GameAction.Start(board, mode), patterns).value
      ensures thrown.Some? ==> state == old(state)
      ensures autoJob == (if thrown.None? && mode.Auto? then Some(mode.intervalMillis) else None)
      ensures detachedJobs == old(detachedJobs)
    {
      StopAuto();
      ReducePreservesConsistent(state, GameAction.Start(board, mode), patterns);
      var next := Reduce(state, GameAction.Start(board, mode), patterns);
      if next.Failure? {
        return Some(next.error);
      }
      state := next.value;
      if mode.Auto? {
        StartAuto(mode.intervalMillis);
      }
      thrown := None;
    }

    /** Cancels any job and applies `Pause`. */
    method Pause()
      requires Valid()
      modifies this
      ensures Valid()
      ensures state == Reduce(old(state), GameAction.Pause, patterns).value
      ensures autoJob == None && detachedJobs == old(detachedJobs)
    {
      StopAuto();
      ReducePreservesConsistent(state, GameAction.Pause, patterns);
      state := Reduce(state, GameAction.Pause, patterns).value;
    }

    /**
     * In Auto mode launches a job without cancelling one still referenced, so
     * that one is detached; in Manual mode leaves the job reference alone.
     * Then applies `Resume`.
     */
    method Resume()
      requires Valid()
      modifies this
      ensures Valid()
      ensures state == Reduce(old(state), GameAction.Resume, patterns).value
      ensures old(state).mode.Auto? ==> autoJob == Some(old(state).mode.intervalMillis)
      ensures old(state).mode.Auto? ==> detachedJobs == old(detachedJobs) + (if old(autoJob).Some? then 1 else 0)
      ensures old(state).mode.Manual? ==> autoJob == old(autoJob) == None && detachedJobs == old(detachedJobs)
    {
      var st := state;
      if st.mode.Auto? {
        StartAuto(st.mode.intervalMillis);
      }
      ReducePreservesConsistent(state, GameAction.Resume, patterns);
      state := Reduce(state, GameAction.Resume, patterns).value;
    }

    /** Cancels any job and applies `Reset`. */
    method Reset()
      requires Valid()
      modifies this
      ensures Valid()
      ensures state == Reduce(old(state), GameAction.Reset, patterns).value
      ensures autoJob == None && detachedJobs == old(detachedJobs)
    {
      StopAuto();
      ReducePreservesConsistent(state, GameAction.Reset, patterns);
      state := Reduce(state, GameAction.Reset, patterns).value;
    }

    /** Applies `DrawOne(number)`; the job reference is untouched. */
    method Draw(number: int)
      requires Valid()
      modifies this`state
      ensures Valid()
      ensures state == Reduce(old(state), DrawOne(number), patterns).value
    {
      ReducePreservesConsistent(state, DrawOne(number), patterns);
      state := Reduce(state, DrawOne(number), patterns).value;
    }

    /**
     * Draws a number of the ball range not drawn yet, chosen by the
     * environment, and returns it; returns `None` and changes nothing once
     * all ninety are drawn. With a board the drawn set grows by exactly the
     * returned number; without one the state is unchanged.
     */
    method DrawRandom() returns (picked: Option<int>)
      requires Valid()
      modifies this`state
      ensures Valid()
      ensures picked.None? <==> AllDrawn(old(state).drawn)
      ensures picked.None? ==> state == old(state)
      ensures picked.Some? ==>
        && BINGO_MIN_NUMBER <= picked.value <= BINGO_MAX_NUMBER
        && picked.value !in old(state).drawn
        && state == Reduce(old(state), DrawOne(picked.value), patterns).value
      ensures picked.Some? && state.board.Some? ==>
        && state.drawn == old(state).drawn + {picked.value}
        && |state.drawn| == |old(state).drawn| + 1
        && state.lastDrawn == picked
      ensures old(state).board.None? ==> state == old(state)
    {
      var st := state;
      picked := PickUndrawn(st.drawn);
      if picked.None? {
        return;
      }
      var n := picked.value;
      DrawUndrawnEffect(st, n, patterns);
      Draw(n);
    }
  }
}
