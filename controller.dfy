/**
 * One call of main.py's `Game.move` as a function on a snapshot of the
 * game: the unit on turn moves, the board is judged, a bot records the move
 * in both units' keys and learns from it, a finished match is counted and
 * the board and keys are reset, and the turn passes to the other unit.
 * `class Game` (module Match) is proved to make exactly this transition.
 *
 * The random choices of main.py are inputs here: `explore` stands for
 * `random.random() < eps` and `pick` selects among the legal moves, as
 * `random.choice` or a person typing a free cell would.
 */
module Controller {
  import opened Board
  import opened Keys
  import opened QLearning
  import opened Units

  /** The game: board size, board, `unit1`, `unit2`, whose turn it is, and the `iteration` counter. */
  datatype GameState = GameState(size: nat, desk: Grid, one: Agent, two: Agent,
                                 firstToMove: bool, iteration: int)

  /** The invariant between calls: a non-empty square board and well-kept units. */
  predicate Ok(g: GameState)
  {
    g.size >= 1 && Square(g.desk, g.size) && AgentOk(g.one, g.size) && AgentOk(g.two, g.size)
  }

  /** The unit on turn can move: the board is square and has a free cell. */
  predicate Playable(g: GameState)
  {
    Square(g.desk, g.size) && Actions(g.desk, g.size) != []
  }

  /**
   * Between two calls of `move` the match on the board is still going on
   * (which leaves a free cell).
   */
  predicate InProgress(g: GameState)
  {
    Ok(g) && Playable(g) && Judge(g.desk, g.size, g.one.mark, g.two.mark) == Ongoing
  }

  /** The unit `unit1` (`first`) or `unit2`. */
  function AgentOf(g: GameState, first: bool): Agent
  {
    if first then g.one else g.two
  }

  /** `self.turn`. */
  function Mover(g: GameState): Agent
  {
    AgentOf(g, g.firstToMove)
  }

  /** The unit not on turn. */
  function Other(g: GameState): Agent
  {
    AgentOf(g, !g.firstToMove)
  }

  /**
   * The cell the unit on turn takes: a person or an exploring bot takes
   * the `pick`-th legal move (counted modulo their number); a greedy bot
   * takes `GreedyChoice`. Either way the cell is free, so the retry
   * branches of `Player.move` and `Bot.move` are never needed.
   */
  function Chosen(g: GameState, explore: bool, pick: nat): (a: Pos)
    requires Playable(g)
    ensures a in Actions(g.desk, g.size)
    ensures 0 <= a.0 < g.size && 0 <= a.1 < g.size && g.desk[a.0][a.1] == Empty
  {
    var acts := Actions(g.desk, g.size);
    ActionsSpec(g.desk, g.size);
    var m := Mover(g);
    if m.kind == Player || explore then acts[pick % |acts|]
    else
      GreedyChoiceSpec(m.table, m.state, m.mark, acts);
      GreedyChoice(m.table, m.state, m.mark, acts)
  }

  /** The board after the move. */
  function After(g: GameState, explore: bool, pick: nat): (d: Grid)
    requires Playable(g)
    ensures Square(d, g.size)
  {
    var a := Chosen(g, explore, pick);
    Place(g.desk, a.0, a.1, Mover(g).mark)
  }

  /** The triple `(x, y, mark)` the move adds to the keys (what `Bot.move` returns). */
  function Recorded(g: GameState, explore: bool, pick: nat): Key
    requires Playable(g)
  {
    var a := Chosen(g, explore, pick);
    Triple(a.0, a.1, Mover(g).mark)
  }

  /** `check_winner` on the board after the move. */
  function Outcome(g: GameState, explore: bool, pick: nat): Verdict
    requires Playable(g)
  {
    Judge(After(g, explore, pick), g.size, g.one.mark, g.two.mark)
  }

  /** The table a greedy bot leaves behind when choosing: every candidate key inserted. */
  function Looked(g: GameState, explore: bool): Table
    requires Square(g.desk, g.size)
  {
    var m := Mover(g);
    if explore then m.table else Touch(m.table, Candidates(m.state, m.mark, Actions(g.desk, g.size)))
  }

  /** `run_model(reward=status)` on the bot's table, with the keys already updated. */
  function Learnt(g: GameState, explore: bool, pick: nat): Table
    requires Playable(g)
  {
    var m := Mover(g);
    Learned(Looked(g, explore), m.state, m.state + Recorded(g, explore, pick), m.mark,
            Actions(After(g, explore, pick), g.size), Reward(Outcome(g, explore, pick)) as real, m.alpha, m.gamma)
  }

  /**
   * The unit on turn after lines 283-289 of `move`: `prev_state` takes the
   * old `state` and `state` grows by the move (`Player.move` does this for
   * a person, `move` itself for a bot); a bot's table learns.
   */
  function MoverMoved(g: GameState, explore: bool, pick: nat): Agent
    requires Playable(g)
  {
    var m := Mover(g);
    m.(prevState := m.state, state := m.state + Recorded(g, explore, pick),
       table := if m.kind == Player then m.table else Learnt(g, explore, pick))
  }

  /** The unit not on turn after lines 283-289: a bot's move is appended to its `state` too. */
  function OtherMoved(g: GameState, explore: bool, pick: nat): Agent
    requires Playable(g)
  {
    var o := Other(g);
    if Mover(g).kind == Player then o else o.(state := o.state + Recorded(g, explore, pick))
  }

  /** Lines 283-289 of `move`: the move, the bookkeeping of the keys and the learning. */
  function Played(g: GameState, explore: bool, pick: nat): GameState
    requires Playable(g)
  {
    if g.firstToMove then
      g.(desk := After(g, explore, pick), one := MoverMoved(g, explore, pick), two := OtherMoved(g, explore, pick))
    else
      g.(desk := After(g, explore, pick), one := OtherMoved(g, explore, pick), two := MoverMoved(g, explore, pick))
  }

  /** Line 283 of `move`, `self.turn.move()`: the cell is marked; a person records it in their own keys, a greedy bot has inserted its candidate keys. */
  function TurnMoved(g: GameState, explore: bool, pick: nat): GameState
    requires Playable(g)
  {
    var m := Mover(g);
    var m' := if m.kind == Player then m.(prevState := m.state, state := m.state + Recorded(g, explore, pick))
              else m.(table := Looked(g, explore));
    if g.firstToMove then g.(desk := After(g, explore, pick), one := m')
    else g.(desk := After(g, explore, pick), two := m')
  }

  /**
   * Lines 286-289 of `move` after a bot's move `t` judged `reward`: the bot's
   * `prev_state` takes its `state`, both units' `state` grow by `t`, and the
   * bot learns on the board as it now is.
   */
  function BotRecorded(h: GameState, t: Key, reward: int): GameState
    requires Square(h.desk, h.size)
  {
    var m := Mover(h);
    var o := Other(h);
    var m' := m.(prevState := m.state, state := m.state + t,
                 table := Learned(m.table, m.state, m.state + t, m.mark, Actions(h.desk, h.size), reward as real, m.alpha, m.gamma));
    var o' := o.(state := o.state + t);
    if h.firstToMove then h.(one := m', two := o') else h.(one := o', two := m')
  }

  /** Lines 283-289 in two stages: the unit's own move, then (for a bot) the bookkeeping. */
  lemma PlayedInStages(g: GameState, explore: bool, pick: nat)
    requires Playable(g)
    ensures Square(TurnMoved(g, explore, pick).desk, g.size)
    ensures Played(g, explore, pick) ==
      if Mover(g).kind == Player then TurnMoved(g, explore, pick)
      else BotRecorded(TurnMoved(g, explore, pick), Recorded(g, explore, pick), Reward(Outcome(g, explore, pick)))
  {
    var h := TurnMoved(g, explore, pick);
    assert h.desk == After(g, explore, pick) && h.size == g.size && h.firstToMove == g.firstToMove;
    if Mover(g).kind == Bot {
      assert Mover(h) == Mover(g).(table := Looked(g, explore));
      assert Other(h) == Other(g);
    }
  }

  /** `add_stats(winner, status)` for the verdict `v` of a finished match. */
  function Tallied(g: GameState, v: Verdict): GameState
  {
    if Reward(v) == DRAW then g.(one := g.one.(stats := Drew(g.one.stats)), two := g.two.(stats := Drew(g.two.stats)))
    else if v == Win(First) then g.(one := g.one.(stats := Won(g.one.stats)), two := g.two.(stats := Lost(g.two.stats)))
    else g.(one := g.one.(stats := Lost(g.one.stats)), two := g.two.(stats := Won(g.two.stats)))
  }

  /** `Game.restart`: one more on the counter, an empty board, both units restarted. */
  function Reset(g: GameState): GameState
  {
    g.(desk := EmptyGrid(g.size), one := Restarted(g.one), two := Restarted(g.two), iteration := g.iteration + 1)
  }

  /** `switch_turn`. */
  function Switched(g: GameState): GameState
  {
    g.(firstToMove := !g.firstToMove)
  }

  /** One whole call of `Game.move` (with `restart=True`). */
  function Step(g: GameState, explore: bool, pick: nat): GameState
    requires Playable(g)
  {
    var p := Played(g, explore, pick);
    var v := Outcome(g, explore, pick);
    Switched(if v == Ongoing then p else Reset(Tallied(p, v)))
  }

  /** One ply of `start` (main.py:271-272): one call of `move`, then one more on the counter. */
  function Ticked(g: GameState, explore: bool, pick: nat): GameState
    requires Playable(g)
  {
    var s := Step(g, explore, pick);
    s.(iteration := s.iteration + 1)
  }

  // ---------------------------------------------------------------------
  // Properties of one move
  // ---------------------------------------------------------------------

  /** Each candidate key of an on-board state is whole on-board triples. */
  lemma CandidatesOk(state: Key, mark: Mark, actions: seq<Pos>, n: nat)
    requires KeyOk(state, n)
    requires forall i :: 0 <= i < |actions| ==> 0 <= actions[i].0 < n && 0 <= actions[i].1 < n
    ensures forall k :: k in Candidates(state, mark, actions) ==> KeyOk(k, n)
  {
    var cs := Candidates(state, mark, actions);
    forall k | k in cs ensures KeyOk(k, n) {
      var i :| 0 <= i < |cs| && cs[i] == k;
      KeyOkAppend(state, actions[i].0, actions[i].1, mark, n);
    }
  }

  /** Choosing a move keeps every key of the bot's table well formed. */
  lemma LookedOk(g: GameState, explore: bool)
    requires Ok(g)
    ensures forall k :: k in Looked(g, explore) ==> KeyOk(k, g.size)
  {
    var m := Mover(g);
    if !explore {
      var acts := Actions(g.desk, g.size);
      ActionsSpec(g.desk, g.size);
      CandidatesOk(m.state, m.mark, acts, g.size);
      TouchSpec(m.table, Candidates(m.state, m.mark, acts));
    }
  }

  /** Learning keeps every key of the bot's table well formed. */
  lemma LearnedOk(t: Table, prev: Key, state: Key, mark: Mark, actions: seq<Pos>,
                  reward: real, alpha: real, gamma: real, n: nat)
    requires forall k :: k in t ==> KeyOk(k, n)
    requires KeyOk(prev, n) && KeyOk(state, n)
    requires forall i :: 0 <= i < |actions| ==> 0 <= actions[i].0 < n && 0 <= actions[i].1 < n
    ensures forall k :: k in Learned(t, prev, state, mark, actions, reward, alpha, gamma) ==> KeyOk(k, n)
  {
    LearnedInserts(t, prev, state, mark, actions, reward, alpha, gamma);
    CandidatesOk(state, mark, actions, n);
  }

  /** What a bot learns keeps every key of its table well formed. */
  lemma LearntOk(g: GameState, explore: bool, pick: nat)
    requires Ok(g) && Playable(g)
    ensures forall k :: k in Learnt(g, explore, pick) ==> KeyOk(k, g.size)
  {
    var m := Mover(g);
    var a := Chosen(g, explore, pick);
    var after := After(g, explore, pick);
    KeyOkAppend(m.state, a.0, a.1, m.mark, g.size);
    ActionsSpec(after, g.size);
    LookedOk(g, explore);
    LearnedOk(Looked(g, explore), m.state, m.state + Recorded(g, explore, pick), m.mark, Actions(after, g.size),
              Reward(Outcome(g, explore, pick)) as real, m.alpha, m.gamma, g.size);
  }

  /** The unit on turn keeps its invariant through the move. */
  lemma MoverMovedOk(g: GameState, explore: bool, pick: nat)
    requires Ok(g) && Playable(g)
    ensures AgentOk(MoverMoved(g, explore, pick), g.size)
  {
    var m := Mover(g);
    var a := Chosen(g, explore, pick);
    KeyOkAppend(m.state, a.0, a.1, m.mark, g.size);
    if m.kind == Bot {
      LearntOk(g, explore, pick);
    }
  }

  /** So does the unit not on turn. */
  lemma OtherMovedOk(g: GameState, explore: bool, pick: nat)
    requires Ok(g) && Playable(g)
    ensures AgentOk(OtherMoved(g, explore, pick), g.size)
  {
    var a := Chosen(g, explore, pick);
    KeyOkAppend(Other(g).state, a.0, a.1, Mover(g).mark, g.size);
  }

  /** The move keeps the invariant of both units and of the board. */
  lemma PlayedOk(g: GameState, explore: bool, pick: nat)
    requires Ok(g) && Playable(g)
    ensures Ok(Played(g, explore, pick))
  {
    MoverMovedOk(g, explore, pick);
    OtherMovedOk(g, explore, pick);
  }

  /** A counted and reset match leaves a new match in progress, with the other unit on turn. */
  lemma FinishedOk(p: GameState, v: Verdict)
    requires Ok(p)
    ensures InProgress(Switched(Reset(Tallied(p, v))))
  {
    var t := Tallied(p, v);
    assert t.one.table == p.one.table && t.two.table == p.two.table;
    RestartedOk(t.one, p.size);
    RestartedOk(t.two, p.size);
    EmptyGridOngoing(p.size, p.one.mark, p.two.mark);
  }

  /**
   * `move` keeps the game in progress: either the match goes on, or it was
   * finished and the board was reset to an empty one.
   */
  lemma StepInProgress(g: GameState, explore: bool, pick: nat)
    requires InProgress(g)
    ensures InProgress(Step(g, explore, pick))
  {
    var p := Played(g, explore, pick);
    var v := Outcome(g, explore, pick);
    PlayedOk(g, explore, pick);
    assert p.desk == After(g, explore, pick) && p.one.mark == g.one.mark && p.two.mark == g.two.mark;
    if v != Ongoing {
      FinishedOk(p, v);
    } else {
      OngoingHasActions(p.desk, g.size, g.one.mark, g.two.mark);
      assert Step(g, explore, pick) == Switched(p);
    }
  }

  /** Counting and restarting a finished match leave both Q-tables as the move left them. */
  lemma StepTables(g: GameState, explore: bool, pick: nat)
    requires Playable(g)
    ensures Step(g, explore, pick).one.table == Played(g, explore, pick).one.table
    ensures Step(g, explore, pick).two.table == Played(g, explore, pick).two.table
  {
    var p := Played(g, explore, pick);
    var v := Outcome(g, explore, pick);
    if v != Ongoing {
      ResetKeepsTables(p, v);
    }
  }

  /** Counting and restarting leave both tables alone. */
  lemma ResetKeepsTables(p: GameState, v: Verdict)
    ensures Switched(Reset(Tallied(p, v))).one.table == p.one.table
    ensures Switched(Reset(Tallied(p, v))).two.table == p.two.table
  {
  }

  /** The turn always passes to the other unit, also when a match ends. */
  lemma StepSwitchesTurn(g: GameState, explore: bool, pick: nat)
    requires Playable(g)
    ensures Step(g, explore, pick).firstToMove == !g.firstToMove
    ensures Step(g, explore, pick).size == g.size
  {
  }

  /**
   * While the match goes on: the move is on the board; the mover's
   * `prev_state` is its old `state` and its `state` grows by the move; a
   * bot also appends the move to the other unit's `state`, a person does
   * not; nothing else of the other unit changes, and nobody's statistics.
   */
  lemma StepContinues(g: GameState, explore: bool, pick: nat)
    requires Playable(g) && Outcome(g, explore, pick) == Ongoing
    ensures var s := Step(g, explore, pick);
      var a := Chosen(g, explore, pick);
      var t := Triple(a.0, a.1, Mover(g).mark);
      var m' := AgentOf(s, g.firstToMove);
      var o' := AgentOf(s, !g.firstToMove);
      && s.desk == Place(g.desk, a.0, a.1, Mover(g).mark)
      && s.iteration == g.iteration
      && m'.prevState == Mover(g).state && m'.state == Mover(g).state + t
      && m'.stats == Mover(g).stats
      && o'.state == (if Mover(g).kind == Bot then Other(g).state + t else Other(g).state)
      && o'.prevState == Other(g).prevState && o'.table == Other(g).table && o'.stats == Other(g).stats
  {
  }

  /**
   * When the move finishes the match: a draw adds a draw to both units,
   * a win adds a win to the winner and a loss to the other, the board is
   * empty again, both keys of both units are back to `(0, 0, mark)`, the
   * counter goes up by one, and the Q-tables are those the move left.
   */
  lemma StepFinishes(g: GameState, explore: bool, pick: nat)
    requires Playable(g) && Outcome(g, explore, pick) != Ongoing
    ensures var s := Step(g, explore, pick);
      var p := Played(g, explore, pick);
      var v := Outcome(g, explore, pick);
      && s.desk == EmptyGrid(g.size)
      && s.iteration == g.iteration + 1
      && s.one.state == s.one.prevState == InitialKey(g.one.mark)
      && s.two.state == s.two.prevState == InitialKey(g.two.mark)
      && s.one.table == p.one.table && s.two.table == p.two.table
      && (v == Draw ==> s.one.stats == Drew(g.one.stats) && s.two.stats == Drew(g.two.stats))
      && (v == Win(First) ==> s.one.stats == Won(g.one.stats) && s.two.stats == Lost(g.two.stats))
      && (v == Win(Second) ==> s.one.stats == Lost(g.one.stats) && s.two.stats == Won(g.two.stats))
  {
    assert Played(g, explore, pick).one.stats == g.one.stats;
    assert Played(g, explore, pick).two.stats == g.two.stats;
  }

  /** Whether a match is in progress does not depend on the counter. */
  lemma InProgressAnyCounter(g: GameState, i: int)
    requires InProgress(g)
    ensures InProgress(g.(iteration := i))
  {
  }

  /** A move leaves the counter alone or, when it finishes a match, adds one. */
  lemma StepCounter(g: GameState, explore: bool, pick: nat)
    requires Playable(g)
    ensures Step(g, explore, pick).iteration ==
      if Outcome(g, explore, pick) == Ongoing then g.iteration else g.iteration + 1
  {
  }

  /**
   * Only a bot learns, and only from its own move: the table of the unit
   * not on turn never changes, and neither does that of a person on turn.
   */
  lemma OnlyMovingBotLearns(g: GameState, explore: bool, pick: nat)
    requires Playable(g)
    ensures var s := Step(g, explore, pick);
      && AgentOf(s, !g.firstToMove).table == Other(g).table
      && (Mover(g).kind == Player ==> AgentOf(s, g.firstToMove).table == Mover(g).table)
      && (Mover(g).kind == Bot ==> AgentOf(s, g.firstToMove).table == Learnt(g, explore, pick))
  {
    StepTables(g, explore, pick);
    if g.firstToMove {
      assert Played(g, explore, pick).one == MoverMoved(g, explore, pick);
      assert Played(g, explore, pick).two == OtherMoved(g, explore, pick);
    } else {
      assert Played(g, explore, pick).two == MoverMoved(g, explore, pick);
      assert Played(g, explore, pick).one == OtherMoved(g, explore, pick);
    }
  }

  /**
   * The reward for a draw is never learned: a draw means a full board, so
   * `run_model` finds no action and only inserts `prev_state`; the value
   * of every key stays what it was after choosing the move.
   */
  lemma DrawNotLearned(g: GameState, explore: bool, pick: nat)
    requires Playable(g) && Outcome(g, explore, pick) == Draw
    ensures forall k :: Value(Learnt(g, explore, pick), k) == Value(Looked(g, explore), k)
  {
    var m := Mover(g);
    var after := After(g, explore, pick);
    JudgeSpec(after, g.size, g.one.mark, g.two.mark);
    FullIffNoActions(after, g.size);
    LearnedNoAction(Looked(g, explore), m.state, m.state + Recorded(g, explore, pick), m.mark,
                    DRAW as real, m.alpha, m.gamma);
  }

  /**
   * A move that wins with a cell left free teaches the bot: V(prev_state)
   * becomes V + alpha * (100 - V + gamma * best) over the keys of the
   * remaining moves.
   */
  lemma WinLearned(g: GameState, explore: bool, pick: nat)
    requires Playable(g)
    requires Outcome(g, explore, pick) == Win(if g.firstToMove then First else Second)
    requires Actions(After(g, explore, pick), g.size) != []
    ensures var m := Mover(g);
      var cands := Candidates(m.state + Recorded(g, explore, pick), m.mark, Actions(After(g, explore, pick), g.size));
      Learnt(g, explore, pick)[m.state] ==
        TdUpdate(Value(Looked(g, explore), m.state), WIN as real, MaxOf(Values(Looked(g, explore), cands)), m.alpha, m.gamma)
  {
    var m := Mover(g);
    LearnedUpdate(Looked(g, explore), m.state, m.state + Recorded(g, explore, pick), m.mark,
                  Actions(After(g, explore, pick), g.size), WIN as real, m.alpha, m.gamma);
  }

  /**
   * With two bots, both `state` keys hold the same moves after the starting
   * triple: every move is appended to both.
   */
  predicate SharedHistory(g: GameState)
  {
    |g.one.state| >= 3 && |g.two.state| >= 3 && g.one.state[3..] == g.two.state[3..]
  }

  lemma BotsShareHistory(g: GameState, explore: bool, pick: nat)
    requires Playable(g) && g.one.kind == Bot && g.two.kind == Bot && SharedHistory(g)
    ensures SharedHistory(Step(g, explore, pick))
  {
    if Outcome(g, explore, pick) == Ongoing {
      SharedHistoryGrows(g, explore, pick);
    } else {
      StepFinishes(g, explore, pick);
      var s := Step(g, explore, pick);
      assert s.one.state[3..] == [] == s.two.state[3..];
    }
  }

  /** While the match goes on, both bots' keys grow by the same triple. */
  lemma SharedHistoryGrows(g: GameState, explore: bool, pick: nat)
    requires Playable(g) && g.one.kind == Bot && g.two.kind == Bot && SharedHistory(g)
    requires Outcome(g, explore, pick) == Ongoing
    ensures SharedHistory(Step(g, explore, pick))
  {
    StepContinues(g, explore, pick);
    var t := Recorded(g, explore, pick);
    SuffixAppend(g.one.state, t);
    SuffixAppend(g.two.state, t);
  }

  lemma SuffixAppend(k: Key, t: Key)
    requires |k| >= 3
    ensures (k + t)[3..] == k[3..] + t
  {
  }

  /** On a 1-by-1 board every move finishes the match. */
  lemma SingleCellStep(g: GameState, explore: bool, pick: nat)
    requires Playable(g) && g.size == 1
    ensures Outcome(g, explore, pick) != Ongoing
    ensures Step(g, explore, pick).iteration == g.iteration + 1
  {
    var a := Chosen(g, explore, pick);
    SingleCellEndsMatch(g.desk, Mover(g).mark, g.one.mark, g.two.mark);
  }
}
