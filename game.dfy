/**
 * The match controller of main.py (`class Game`): it holds the board and
 * the two units, lets the unit on turn move, judges the board, keeps the
 * units' keys and statistics, and counts plies and matches in `iteration`.
 * Every method is proved against the transition functions of module
 * Controller; `Move` makes exactly one `Controller.Step`.
 */
module Match {
  import opened Board
  import opened Keys
  import opened QLearning
  import opened Units
  import opened Controller

  /** `Game.SERIALIZE_EVERY`: `start` saves the game whenever the counter is a multiple of it. */
  const SERIALIZE_EVERY: int := 100

  class Game {
    const size: nat
    /** `iterations`: the counter value at which `start` stops. */
    const iterations: int
    const unit1: Unit
    const unit2: Unit
    /** `desk`: the board. */
    var desk: Grid
    /** The unit on turn. */
    var turn: Unit
    /** One per ply, and one more per finished match. */
    var iteration: int

    ghost function View(): GameState
      reads this, unit1, unit2, unit1.qTable, unit2.qTable
    {
      GameState(size, desk, unit1.View(), unit2.View(), turn == unit1, iteration)
    }

    /**
     * Two distinct units with their own tables, one of them on turn, and a
     * match in progress on a well-formed board.
     */
    ghost predicate Valid()
      reads this, unit1, unit2, unit1.qTable, unit2.qTable
    {
      Linked() && InProgress(View())
    }

    /** Two distinct units with their own tables, one of them on turn. */
    ghost predicate Linked()
      reads this
    {
      && unit1 != unit2 && unit1.qTable != unit2.qTable
      && (turn == unit1 || turn == unit2)
    }

    /**
     * `Game.__init__` followed by `init_users(unit1, unit2)`: an empty
     * board, the counter at 0, `unit1` on turn.
     */
    constructor (size: nat, iterations: int, unit1: Unit, unit2: Unit)
      requires size >= 1 && unit1 != unit2 && unit1.qTable != unit2.qTable
      requires AgentOk(unit1.View(), size) && AgentOk(unit2.View(), size)
      ensures Valid()
      ensures View() == GameState(size, EmptyGrid(size), unit1.View(), unit2.View(), true, 0)
      ensures this.iterations == iterations && this.unit1 == unit1 && this.unit2 == unit2
    {
      this.size := size;
      this.iterations := iterations;
      this.unit1 := unit1;
      this.unit2 := unit2;
      iteration := 0;
      turn := unit1;
      desk := [];
      new;
      InitTable();
      EmptyGridOngoing(size, unit1.mark, unit2.mark);
    }

    /** `init_table`: every cell '.'. */
    method InitTable()
      modifies this`desk
      ensures desk == EmptyGrid(size)
    {
      desk := EmptyGrid(size);
    }

    /** `get_actions`: the free cells, row by row. */
    method GetActions() returns (result: seq<Pos>)
      requires Square(desk, size)
      ensures result == Actions(desk, size)
    {
      result := [];
      var i := 0;
      while i < size
        invariant 0 <= i <= size
        invariant result == ActionsUpTo(desk, size, i)
      {
        var j := 0;
        while j < size
          invariant 0 <= j <= size
          invariant result == ActionsUpTo(desk, size, i) + RowEmpties(desk[i], i, j)
        {
          if desk[i][j] == Empty {
            result := result + [(i, j)];
          }
          j := j + 1;
        }
        i := i + 1;
      }
    }

    /** The loop of `check_winner` that counts the marked cells. */
    method CountOccupied() returns (nonEmpty: int)
      requires Square(desk, size)
      ensures nonEmpty == Occupied(desk, size)
    {
      nonEmpty := 0;
      var i := 0;
      while i < size
        invariant 0 <= i <= size
        invariant nonEmpty == OccupiedUpTo(desk, size, i)
      {
        var j := 0;
        while j < size
          invariant 0 <= j <= size
          invariant nonEmpty == OccupiedUpTo(desk, size, i) + (j - Count(desk[i][..j], Empty))
        {
          assert desk[i][..j + 1][..j] == desk[i][..j];
          if desk[i][j] != Empty {
            nonEmpty := nonEmpty + 1;
          }
          j := j + 1;
        }
        assert desk[i][..size] == desk[i];
        i := i + 1;
      }
    }

    /**
     * The body of `check_winner`'s loop over the units: a row, then a
     * column, then one of the diagonals `d1`, `d2` full of `m`.
     */
    method HasLine(m: Mark, d1: seq<Cell>, d2: seq<Cell>) returns (found: bool)
      requires Square(desk, size)
      requires d1 == Diagonal(desk, size) && d2 == AntiDiagonal(desk, size)
      ensures found == Wins(desk, size, m)
    {
      var j := 0;
      while j < size
        invariant 0 <= j <= size
        invariant forall r :: 0 <= r < j ==> !Full(desk[r], m)
      {
        CountFull(desk[j], m);
        if Count(desk[j], m) == size {
          return true;
        }
        j := j + 1;
      }
      j := 0;
      while j < size
        invariant 0 <= j <= size
        invariant forall c :: 0 <= c < j ==> !Full(Column(desk, size, c), m)
      {
        var col := Column(desk, size, j);
        CountFull(col, m);
        if Count(col, m) == size {
          return true;
        }
        j := j + 1;
      }
      CountFull(d1, m);
      CountFull(d2, m);
      found := Count(d1, m) == size || Count(d2, m) == size;
    }

    /**
     * `check_winner`: `(unit1, 100)` or `(unit2, 100)` for a full line of
     * that unit's mark (unit1 first), `(None, 10)` for a full board,
     * `(None, -1)` otherwise.
     */
    method CheckWinner() returns (winner: Unit?, status: int)
      requires Square(desk, size)
      ensures var v := Judge(desk, size, unit1.mark, unit2.mark);
        && status == Reward(v)
        && winner == (if v == Win(First) then unit1 else if v == Win(Second) then unit2 else null)
    {
      var d1: seq<Cell> := [];
      var d2: seq<Cell> := [];
      var i := 0;
      while i < size
        invariant 0 <= i <= size
        invariant d1 == Diagonal(desk, size)[..i] && d2 == AntiDiagonal(desk, size)[..i]
      {
        d1 := d1 + [desk[i][i]];
        d2 := d2 + [desk[i][size - i - 1]];
        i := i + 1;
      }
      assert d1 == Diagonal(desk, size) && d2 == AntiDiagonal(desk, size);
      // `for i in [self.unit1, self.unit2]`
      var found := HasLine(unit1.mark, d1, d2);
      if found {
        return unit1, WIN;
      }
      found := HasLine(unit2.mark, d1, d2);
      if found {
        return unit2, WIN;
      }
      var nonEmpty := CountOccupied();
      if nonEmpty == size * size {
        return null, DRAW;
      }
      return null, NONE;
    }

    /**
     * One entry of `Player.move`: `check_position` (as written, with
     * Python's indexing) decides; an accepted entry marks the cell it
     * reaches and records the move, coordinates as typed, in the person's
     * own keys. A refused entry changes nothing (the person is asked again).
     */
    method PlayerMove(x: int, y: int) returns (accepted: bool)
      requires Square(desk, size)
      modifies this`desk, turn`state, turn`prevState
      ensures accepted == CheckPositionAsWritten(old(desk), size, x, y)
      ensures accepted ==>
        && 0 <= PyIndex(x, size) < size && 0 <= PyIndex(y, size) < size
        && desk == Place(old(desk), PyIndex(x, size), PyIndex(y, size), turn.mark)
        && turn.prevState == old(turn.state) && turn.state == old(turn.state) + Triple(x, y, turn.mark)
      ensures !accepted ==> desk == old(desk) && turn.state == old(turn.state) && turn.prevState == old(turn.prevState)
    {
      accepted := CheckPositionAsWritten(desk, size, x, y);
      if accepted {
        ActionsSpec(desk, size);
        turn.prevState := turn.state;
        turn.state := turn.state + Triple(x, y, turn.mark);
        desk := Place(desk, PyIndex(x, size), PyIndex(y, size), turn.mark);
      }
    }

    /**
     * `Bot.move`: the move `get_next_move` chooses is placed and returned
     * as `(x, y, mark)`. The chosen cell is always free, so the retry of
     * `Bot.move` never happens.
     */
    method BotMove(explore: bool, pick: nat) returns (triple: Key)
      requires Linked() && Playable(View()) && turn.kind == Bot
      modifies this`desk, turn.qTable
      ensures desk == After(old(View()), explore, pick)
      ensures triple == Recorded(old(View()), explore, pick)
      ensures turn.qTable.table == Looked(old(View()), explore)
    {
      var actions := GetActions();
      var act := turn.qTable.GetNextMove(explore, pick % |actions|, turn.state, turn.mark, actions);
      var free := CheckPosition(desk, size, act.0, act.1);
      if !free {
        assert false;
      }
      desk := Place(desk, act.0, act.1, turn.mark);
      triple := Triple(act.0, act.1, turn.mark);
    }

    /**
     * `new_state = self.turn.move()`: a person enters a free cell (the
     * `pick`-th one; `Player.move` returns nothing), a bot's move is placed
     * and returned.
     */
    method TurnMove(explore: bool, pick: nat) returns (newState: Key)
      requires Linked() && Playable(View())
      modifies this`desk, turn`state, turn`prevState, turn.qTable
      ensures Linked()
      ensures View() == TurnMoved(old(View()), explore, pick)
      ensures turn.kind == Bot ==> newState == Recorded(old(View()), explore, pick)
    {
      ghost var g := View();
      newState := [];
      if turn.kind == Player {
        // the free cell the person finally enters
        var actions := GetActions();
        var cell := actions[pick % |actions|];
        var accepted := PlayerMove(cell.0, cell.1);
      } else {
        newState := BotMove(explore, pick);
      }
      if g.firstToMove {
        assert unit2.View() == g.two;
        assert TurnMoved(g, explore, pick) == GameState(size, desk, unit1.View(), g.two, true, iteration);
      } else {
        assert unit1.View() == g.one;
        assert TurnMoved(g, explore, pick) == GameState(size, desk, g.one, unit2.View(), false, iteration);
      }
    }

    /**
     * Lines 286-289 of `move`, after a bot's move: its `prev_state` takes
     * its `state`, both units' `state` grow by the move, and the bot runs
     * `run_model` with the status as reward.
     */
    method RecordBotMove(newState: Key, status: int)
      requires Linked() && Square(desk, size) && turn.kind == Bot
      modifies unit1`state, unit2`state, turn`prevState, turn.qTable
      ensures View() == BotRecorded(old(View()), newState, status)
    {
      ghost var h := View();
      turn.prevState := turn.state;
      unit1.state := unit1.state + newState;
      unit2.state := unit2.state + newState;
      var actions := GetActions();
      turn.qTable.RunModel(turn.prevState, turn.state, turn.mark, actions, status);
      if h.firstToMove {
        assert BotRecorded(h, newState, status) == GameState(size, desk, unit1.View(), unit2.View(), true, iteration);
      } else {
        assert BotRecorded(h, newState, status) == GameState(size, desk, unit1.View(), unit2.View(), false, iteration);
      }
    }

    /**
     * Lines 283-289 of `move`: the unit on turn moves, the board is
     * judged, and after a bot's move both units' keys grow by it and the
     * bot learns with the status as reward.
     */
    method Play(explore: bool, pick: nat) returns (winner: Unit?, status: int)
      requires Linked() && Playable(View())
      modifies this`desk, unit1`state, unit2`state, turn`prevState, turn.qTable
      ensures View() == Played(old(View()), explore, pick)
      ensures var v := Outcome(old(View()), explore, pick);
        && status == Reward(v)
        && winner == (if v == Win(First) then unit1 else if v == Win(Second) then unit2 else null)
    {
      ghost var g := View();
      PlayedInStages(g, explore, pick);
      var newState := TurnMove(explore, pick);
      winner, status := CheckWinner();
      if turn.kind == Bot {
        RecordBotMove(newState, status);
      }
    }

    /** `add_stats(winner, status)`. */
    method AddStats(winner: Unit?, status: int)
      requires unit1 != unit2
      modifies unit1`stats, unit2`stats
      ensures status == DRAW ==> unit1.stats == Drew(old(unit1.stats)) && unit2.stats == Drew(old(unit2.stats))
      ensures status != DRAW && winner == unit1 ==> unit1.stats == Won(old(unit1.stats)) && unit2.stats == Lost(old(unit2.stats))
      ensures status != DRAW && winner != unit1 ==> unit1.stats == Lost(old(unit1.stats)) && unit2.stats == Won(old(unit2.stats))
    {
      if status == DRAW {
        unit1.stats := Drew(unit1.stats);
        unit2.stats := Drew(unit2.stats);
      } else if unit1 == winner {
        unit1.stats := Won(unit1.stats);
        unit2.stats := Lost(unit2.stats);
      } else {
        unit2.stats := Won(unit2.stats);
        unit1.stats := Lost(unit1.stats);
      }
    }

    /** `switch_turn`: the other unit is on turn. */
    method SwitchTurn()
      requires unit1 != unit2 && (turn == unit1 || turn == unit2)
      modifies this`turn
      ensures turn == unit1 || turn == unit2
      ensures turn != old(turn)
      ensures View() == Switched(old(View()))
    {
      if turn == unit1 {
        turn := unit2;
      } else {
        turn := unit1;
      }
    }

    /** `Game.restart`: the counter goes up, the board is emptied, both units restart. */
    method Restart()
      requires unit1 != unit2
      modifies this`desk, this`iteration, unit1`state, unit1`prevState, unit2`state, unit2`prevState
      ensures View() == Reset(old(View()))
    {
      iteration := iteration + 1;
      InitTable();
      unit1.Restart();
      unit2.Restart();
    }

    /**
     * `Game.move` (with `restart=True`): one ply. `explore` stands for
     * `random.random() < eps` of a bot, `pick` for the random or typed
     * choice among the free cells.
     */
    method Move(explore: bool, pick: nat)
      requires Linked() && Playable(View())
      modifies this, unit1, unit2, unit1.qTable, unit2.qTable
      ensures Linked()
      ensures View() == Step(old(View()), explore, pick)
    {
      ghost var g := View();
      var winner, status := Play(explore, pick);
      ghost var p := View();
      ghost var v := Outcome(g, explore, pick);
      var finish := false;
      if status == DRAW {
        finish := true;
      } else if winner != null {
        finish := true;
      }
      if finish {
        assert v != Ongoing;
        Finish(winner, status, v);
      } else {
        assert v == Ongoing;
      }
      SwitchTurn();
    }

    /**
     * Lines 298-304 of `move`, for a match judged `v`: the result is
     * counted (`add_stats`) and the game restarts.
     */
    method Finish(winner: Unit?, status: int, ghost v: Verdict)
      requires unit1 != unit2 && v != Ongoing && status == Reward(v)
      requires winner == (if v == Win(First) then unit1 else if v == Win(Second) then unit2 else null)
      modifies this`desk, this`iteration, unit1`state, unit1`prevState, unit2`state, unit2`prevState
      modifies unit1`stats, unit2`stats
      ensures View() == Reset(Tallied(old(View()), v))
    {
      ghost var p := View();
      AddStats(winner, status);
      assert View() == Tallied(p, v);
      Restart();
    }

    /**
     * Lines 270-272 of `start`: one ply and one on the counter. `ended`
     * tells whether the ply finished a match (which put one more on it).
     */
    method Ply(explore: bool, pick: nat) returns (ghost ended: bool)
      requires Valid()
      modifies this, unit1, unit2, unit1.qTable, unit2.qTable
      ensures Valid()
      ensures ended == (Outcome(old(View()), explore, pick) != Ongoing)
      ensures iteration == old(iteration) + (if ended then 2 else 1)
      ensures View() == Ticked(old(View()), explore, pick)
    {
      ghost var before := View();
      Move(explore, pick);
      StepInProgress(before, explore, pick);
      StepCounter(before, explore, pick);
      ended := Outcome(before, explore, pick) != Ongoing;
      Tick();
    }

    /**
     * One turn of `start`'s loop (main.py:270-276): the ply, the stop test
     * and the checkpoint test, with the run and the counter extended by it.
     */
    method Round(plies: seq<(bool, nat)>, k: nat, ghost start: int, ghost states: seq<GameState>,
                 ghost ends: seq<bool>, saves: seq<int>)
      returns (stop: bool, saves': seq<int>, ghost ended: bool)
      requires Valid() && k == |ends| < |plies|
      requires Run(states, plies, ends) && View() == states[k]
      requires iteration == Counter(start, ends) && saves == Saves(start, ends)
      modifies this, unit1, unit2, unit1.qTable, unit2.qTable
      ensures Valid()
      ensures Run(states + [View()], plies, ends + [ended])
      ensures iteration == Counter(start, ends + [ended]) && iteration > old(iteration)
      ensures stop == (iteration >= iterations)
      ensures !stop ==> saves' == Saves(start, ends + [ended])
    {
      ghost var before := View();
      ended := Ply(plies[k].0, plies[k].1);
      assert PlyTaken(before, plies[k], ended, View());
      ChainSnoc(states, plies, ends, PlyTaken, ended, View());
      CounterSnoc(start, ends, ended);
      stop := iteration >= iterations;
      saves' := saves;
      if !stop && Checkpoint(iteration) {
        saves' := saves + [iteration];
      }
    }

    /** Line 272 of `start`: `self.iteration += 1`. */
    method Tick()
      requires Valid()
      modifies this`iteration
      ensures Valid()
      ensures View() == old(View()).(iteration := old(iteration) + 1)
    {
      ghost var before := View();
      InProgressAnyCounter(before, before.iteration + 1);
      iteration := iteration + 1;
      assert unit1.View() == before.one && unit2.View() == before.two;
    }

    /**
     * `start`, over the plies given: after each ply the counter goes up by
     * one; the run stops once it reaches `iterations` and otherwise saves
     * the game whenever `(100 + iteration) % 100 == 0`. `ends` records,
     * ply by ply, whether the ply finished a match. The stop test is the
     * corrected `>=` (see README, Findings); with it the run stops within
     * `iterations - iteration` plies.
     */
    method Start(plies: seq<(bool, nat)>) returns (stopped: bool, saves: seq<int>, ghost ends: seq<bool>,
                                                   ghost states: seq<GameState>)
      requires Valid()
      modifies this, unit1, unit2, unit1.qTable, unit2.qTable
      ensures Valid()
      ensures |ends| <= |plies| && (!stopped ==> |ends| == |plies|)
      ensures Run(states, plies, ends) && states[0] == old(View()) && View() == states[|ends|]
      ensures iteration == Counter(old(iteration), ends)
      ensures stopped ==> |ends| >= 1 && iteration >= iterations
      ensures AllBelow(old(iteration), if stopped then ends[..|ends| - 1] else ends, iterations)
      ensures saves == Saves(old(iteration), if stopped then ends[..|ends| - 1] else ends)
      ensures |plies| >= 1 && |plies| >= iterations - old(iteration) ==> stopped
    {
      ghost var start := iteration;
      stopped := false;
      saves := [];
      ends := [];
      states := [View()];
      var k := 0;
      while k < |plies|
        invariant 0 <= k <= |plies| && |ends| == k
        invariant Valid()
        invariant Run(states, plies, ends) && states[0] == old(View()) && View() == states[k]
        invariant iteration == Counter(start, ends)
        invariant iteration >= start + k
        invariant k >= 1 ==> iteration < iterations
        invariant AllBelow(start, ends, iterations)
        invariant saves == Saves(start, ends)
      {
        var stop, saves';
        ghost var ended;
        stop, saves', ended := Round(plies, k, start, states, ends, saves);
        ends := ends + [ended];
        states := states + [View()];
        if stop {
          stopped := true;
          assert ends[..|ends| - 1] == ends[..k];
          return;
        }
        BelowSnoc(start, ends, iterations);
        saves := saves';
        k := k + 1;
      }
    }
  }

  // ---------------------------------------------------------------------
  // The plies of `start`
  // ---------------------------------------------------------------------

  /**
   * Ply i of a run: `plies[i]` played on `s`, a match in progress,
   * `ended` says whether it finished a match, and `t` is the game after it.
   */
  predicate PlyTaken(s: GameState, ply: (bool, nat), ended: bool, t: GameState)
  {
    InProgress(s) && ended == (Outcome(s, ply.0, ply.1) != Ongoing) && t == Ticked(s, ply.0, ply.1)
  }

  /**
   * `states` are the games before and after each ply of `ends`: ply i
   * plays `plies[i]` on `states[i]`, `ends[i]` says whether it finished a
   * match, and `states[i + 1]` is the game after it.
   */
  predicate Run(states: seq<GameState>, plies: seq<(bool, nat)>, ends: seq<bool>)
  {
    Chain(states, plies, ends, PlyTaken)
  }

  /** `states` are linked ply by ply by `step`. */
  predicate Chain<S, P>(states: seq<S>, plies: seq<P>, ends: seq<bool>, step: (S, P, bool, S) -> bool)
    decreases |ends|
  {
    && |states| == |ends| + 1 && |ends| <= |plies|
    && (ends != [] ==>
          && Chain(states[..|ends|], plies, ends[..|ends| - 1], step)
          && step(states[|ends| - 1], plies[|ends| - 1], ends[|ends| - 1], states[|ends|]))
  }

  lemma ChainSnoc<S, P>(states: seq<S>, plies: seq<P>, ends: seq<bool>, step: (S, P, bool, S) -> bool, e: bool, t: S)
    requires Chain(states, plies, ends, step) && |ends| < |plies|
    requires step(states[|ends|], plies[|ends|], e, t)
    ensures Chain(states + [t], plies, ends + [e], step)
  {
    assert (states + [t])[..|ends| + 1] == states;
    assert (ends + [e])[..|ends|] == ends;
  }

  /** Every link of a chain is a `step`. */
  lemma {:induction false} ChainLink<S, P>(states: seq<S>, plies: seq<P>, ends: seq<bool>, step: (S, P, bool, S) -> bool, i: nat)
    requires Chain(states, plies, ends, step) && i < |ends|
    ensures step(states[i], plies[i], ends[i], states[i + 1])
    decreases |ends|
  {
    var k := |ends| - 1;
    if i < k {
      ChainLink(states[..k + 1], plies, ends[..k], step, i);
      assert states[..k + 1][i] == states[i] && states[..k + 1][i + 1] == states[i + 1] && ends[..k][i] == ends[i];
    }
  }

  /** Every ply of a run is a `PlyTaken` step. */
  lemma RunPly(states: seq<GameState>, plies: seq<(bool, nat)>, ends: seq<bool>, i: nat)
    requires Run(states, plies, ends) && i < |ends|
    ensures PlyTaken(states[i], plies[i], ends[i], states[i + 1])
  {
    ChainLink(states, plies, ends, PlyTaken, i);
  }

  /** Along a run the counter is `Counter` of the ends: one per ply and one more per finished match. */
  lemma {:induction false} RunCounter(states: seq<GameState>, plies: seq<(bool, nat)>, ends: seq<bool>)
    requires Run(states, plies, ends)
    ensures states[|ends|].iteration == Counter(states[0].iteration, ends)
  {
    if ends != [] {
      var k := |ends| - 1;
      RunCounter(states[..k + 1], plies, ends[..k]);
      StepCounter(states[k], plies[k].0, plies[k].1);
    }
  }

  lemma PlyKeepsSize(s: GameState, ply: (bool, nat), ended: bool, t: GameState)
    requires PlyTaken(s, ply, ended, t)
    ensures t.size == s.size
  {
    StepSwitchesTurn(s, ply.0, ply.1);
  }

  /** No ply of a run changes the board size. */
  lemma RunKeepsSize(states: seq<GameState>, plies: seq<(bool, nat)>, ends: seq<bool>)
    requires Run(states, plies, ends)
    ensures forall i :: 0 <= i < |ends| ==> states[i + 1].size == states[i].size
  {
    forall i | 0 <= i < |ends| ensures states[i + 1].size == states[i].size {
      RunPly(states, plies, ends, i);
      PlyKeepsSize(states[i], plies[i], ends[i], states[i + 1]);
    }
  }

  lemma {:induction false} SizeConstant(states: seq<GameState>, i: nat)
    requires forall j :: 0 <= j < |states| - 1 ==> states[j + 1].size == states[j].size
    requires i < |states|
    ensures states[i].size == states[0].size
  {
    if i > 0 {
      SizeConstant(states, i - 1);
    }
  }

  /**
   * On a 1-by-1 board every ply of a run finishes a match, so each ply
   * adds two to the counter.
   */
  lemma RunOnSingleCell(states: seq<GameState>, plies: seq<(bool, nat)>, ends: seq<bool>)
    requires Run(states, plies, ends) && states[0].size == 1
    ensures forall i :: 0 <= i < |ends| ==> ends[i]
    ensures states[|ends|].iteration == states[0].iteration + 2 * |ends|
  {
    RunKeepsSize(states, plies, ends);
    forall i | 0 <= i < |ends| ensures ends[i] {
      SizeConstant(states, i);
      RunPly(states, plies, ends, i);
      SingleCellStep(states[i], plies[i].0, plies[i].1);
    }
    RunCounter(states, plies, ends);
    AllEndsFrom(states[0].iteration, ends);
  }

  /** With every ply finishing a match, the counter goes up by two per ply. */
  lemma {:induction false} AllEndsFrom(start: int, ends: seq<bool>)
    requires forall i :: 0 <= i < |ends| ==> ends[i]
    ensures Counter(start, ends) == start + 2 * |ends|
  {
    if ends != [] {
      AllEndsFrom(start, ends[..|ends| - 1]);
    }
  }

  // ---------------------------------------------------------------------
  // The counter of `start`
  // ---------------------------------------------------------------------

  /**
   * The counter after the plies whose match-ending flags are `ends`,
   * starting from `start`: one per ply (main.py:272) and one more per
   * finished match (`restart`, main.py:329).
   */
  function Counter(start: int, ends: seq<bool>): int
  {
    if ends == [] then start
    else Counter(start, ends[..|ends| - 1]) + (if ends[|ends| - 1] then 2 else 1)
  }

  /** `start`'s checkpoint test, `(SERIALIZE_EVERY + iteration) % SERIALIZE_EVERY == 0`. */
  predicate Checkpoint(iteration: int)
  {
    (SERIALIZE_EVERY + iteration) % SERIALIZE_EVERY == 0
  }

  /** The counter values at which `start` saves the game, in order. */
  function Saves(start: int, ends: seq<bool>): seq<int>
  {
    if ends == [] then []
    else
      Saves(start, ends[..|ends| - 1])
      + (if Checkpoint(Counter(start, ends)) then [Counter(start, ends)] else [])
  }

  lemma CounterSnoc(start: int, ends: seq<bool>, e: bool)
    ensures Counter(start, ends + [e]) == Counter(start, ends) + (if e then 2 else 1)
    ensures Saves(start, ends + [e]) == Saves(start, ends)
      + (if Checkpoint(Counter(start, ends + [e])) then [Counter(start, ends + [e])] else [])
    ensures forall j :: 0 <= j <= |ends| ==> (ends + [e])[..j] == ends[..j]
  {
    assert (ends + [e])[..|ends|] == ends;
  }

  /** The counter stays below `iterations` after every ply so far. */
  predicate AllBelow(start: int, ends: seq<bool>, iterations: int)
  {
    forall j :: 1 <= j <= |ends| ==> Counter(start, ends[..j]) < iterations
  }

  lemma BelowSnoc(start: int, ends: seq<bool>, iterations: int)
    requires |ends| >= 1 && AllBelow(start, ends[..|ends| - 1], iterations)
    requires Counter(start, ends) < iterations
    ensures AllBelow(start, ends, iterations)
  {
    var init := ends[..|ends| - 1];
    forall j | 1 <= j <= |ends| ensures Counter(start, ends[..j]) < iterations {
      if j < |ends| {
        assert ends[..j] == init[..j];
      } else {
        assert ends[..j] == ends;
      }
    }
  }

  /** The counter grows by at least one per ply: it is strictly increasing along the plies. */
  lemma {:induction false} CounterIncreases(start: int, ends: seq<bool>, i: nat, j: nat)
    requires i < j <= |ends|
    ensures Counter(start, ends[..i]) + (j - i) <= Counter(start, ends[..j])
    decreases j - i
  {
    assert ends[..j][..j - 1] == ends[..j - 1];
    if i < j - 1 {
      CounterIncreases(start, ends, i, j - 1);
    }
  }

  /**
   * A ply that finishes a match makes the counter jump by two, so the value
   * between is never compared: if `iterations` (or a multiple of 100) is
   * that value, `start`'s `==` test misses it for good.
   */
  lemma SkippedValue(start: int, ends: seq<bool>, i: nat)
    requires i < |ends| && ends[i]
    ensures forall j :: 0 <= j <= |ends| ==> Counter(start, ends[..j]) != Counter(start, ends[..i]) + 1
  {
    assert ends[..i + 1][..i] == ends[..i];
    forall j | 0 <= j <= |ends| ensures Counter(start, ends[..j]) != Counter(start, ends[..i]) + 1 {
      if j < i {
        CounterIncreases(start, ends, j, i);
      } else if j > i + 1 {
        CounterIncreases(start, ends, i + 1, j);
      }
    }
  }

  /** `start`'s stop test as written (main.py:273). */
  predicate StopsAsWritten(iteration: int, iterations: int)
  {
    iteration == iterations
  }

  /**
   * On a 1-by-1 board every ply finishes a match, so from 0 the counter
   * takes the values 2, 4, 6, ...: with `iterations` = 1 the test of
   * main.py:273 never holds and `start` never stops.
   */
  lemma NeverStopsOnSingleCell(ends: seq<bool>)
    requires forall i :: 0 <= i < |ends| ==> ends[i]
    ensures Counter(0, ends) == 2 * |ends|
    ensures forall j :: 0 <= j <= |ends| ==> !StopsAsWritten(Counter(0, ends[..j]), 1)
  {
    AllEndsCounter(ends, |ends|);
    forall j | 0 <= j <= |ends| ensures !StopsAsWritten(Counter(0, ends[..j]), 1) {
      AllEndsCounter(ends, j);
    }
  }

  lemma {:induction false} AllEndsCounter(ends: seq<bool>, j: nat)
    requires j <= |ends| && forall i :: 0 <= i < |ends| ==> ends[i]
    ensures Counter(0, ends[..j]) == 2 * j
  {
    if j > 0 {
      assert ends[..j][..j - 1] == ends[..j - 1];
      AllEndsCounter(ends, j - 1);
    }
  }
}
