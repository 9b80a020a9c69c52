/**
 * The Q-table of main.py (`class QTable`): a dictionary from state keys to
 * value estimates, the greedy move choice (`get_next_move`), the learning
 * step (`run_model`) and the key codec used when the table is written out
 * (`json` / `from_json`). Values, alpha and gamma are exact reals.
 */
module QLearning {
  import opened Board
  import opened Keys

  /** `QTable.state`: state key -> value estimate. */
  type Table = map<Key, real>

  /** The value of `k`, with the 0 an absent key is inserted with. */
  function Value(t: Table, k: Key): real
  {
    if k in t then t[k] else 0.0
  }

  /** `if k not in table: table[k] = 0`. */
  function Insert(t: Table, k: Key): (r: Table)
    ensures k in r && r[k] == Value(t, k)
    ensures r.Keys == t.Keys + {k} && forall j :: Value(r, j) == Value(t, j)
  {
    if k in t then t else t[k := 0.0]
  }

  /** `t` after every key of `ks` that was missing has been inserted with value 0, in order. */
  function Touch(t: Table, ks: seq<Key>): Table
  {
    if ks == [] then t else Insert(Touch(t, ks[..|ks| - 1]), ks[|ks| - 1])
  }

  /** Default insertion adds exactly the missing keys, at 0, and changes no stored value. */
  lemma {:induction false} TouchSpec(t: Table, ks: seq<Key>)
    ensures Touch(t, ks).Keys == t.Keys + (set k | k in ks)
    ensures forall k :: k in t ==> Touch(t, ks)[k] == t[k]
    ensures forall k :: k in Touch(t, ks) && k !in t ==> Touch(t, ks)[k] == 0.0
    ensures forall k :: Value(Touch(t, ks), k) == Value(t, k)
  {
    if ks != [] {
      var init := ks[..|ks| - 1];
      TouchSpec(t, init);
      assert ks == init + [ks[|ks| - 1]];
      assert (set k | k in ks) == (set k | k in init) + {ks[|ks| - 1]};
    }
  }

  /** One insertion step, and the value the loop then reads for the key. */
  lemma TouchStep(t: Table, ks: seq<Key>, i: nat)
    requires i < |ks|
    ensures Touch(t, ks[..i + 1]) == Insert(Touch(t, ks[..i]), ks[i])
    ensures Touch(t, ks[..i + 1])[ks[i]] == Value(t, ks[i])
  {
    assert ks[..i + 1][..i] == ks[..i];
    TouchSpec(t, ks[..i]);
  }

  /** The candidate next-state keys `state + (i, j) + (mark,)`, one per action. */
  function Candidates(state: Key, mark: Mark, actions: seq<Pos>): (cs: seq<Key>)
    ensures |cs| == |actions|
    ensures forall i :: 0 <= i < |actions| ==> cs[i] == state + Triple(actions[i].0, actions[i].1, mark)
  {
    seq(|actions|, i requires 0 <= i < |actions| => state + Triple(actions[i].0, actions[i].1, mark))
  }

  /** The values of `ks`, with 0 for absent keys. */
  function Values(t: Table, ks: seq<Key>): (vs: seq<real>)
    ensures |vs| == |ks| && forall i :: 0 <= i < |ks| ==> vs[i] == Value(t, ks[i])
  {
    seq(|ks|, i requires 0 <= i < |ks| => Value(t, ks[i]))
  }

  /** Python's `max(nvec)`. */
  function MaxOf(vals: seq<real>): (r: real)
    requires |vals| > 0
    ensures r in vals
    ensures forall j :: 0 <= j < |vals| ==> vals[j] <= r
  {
    if |vals| == 1 then vals[0]
    else
      var m := MaxOf(vals[..|vals| - 1]);
      if m < vals[|vals| - 1] then vals[|vals| - 1] else m
  }

  /**
   * The index `get_next_move` settles on: scanning left to right it replaces
   * its best only on a strictly larger value, so it ends on the first maximum.
   */
  function FirstMax(vals: seq<real>): (r: nat)
    requires |vals| > 0
    ensures r < |vals|
    ensures forall j :: 0 <= j < |vals| ==> vals[j] <= vals[r]
    ensures forall j :: 0 <= j < r ==> vals[j] < vals[r]
  {
    if |vals| == 1 then 0
    else
      var k := FirstMax(vals[..|vals| - 1]);
      if vals[k] < vals[|vals| - 1] then |vals| - 1 else k
  }

  /** One more step of the left-to-right scan with strict `<`, `bi` being the best index so far. */
  lemma ScanStep(vals: seq<real>, i: nat, bi: nat)
    requires i < |vals| && (i > 0 ==> bi < i && bi == FirstMax(vals[..i]))
    ensures FirstMax(vals[..i + 1]) == if i == 0 || vals[bi] < vals[i] then i else bi
  {
    assert vals[..i + 1][..i] == vals[..i];
  }

  /** The greedy choice of `get_next_move`: `(0, 0)` when there is no action. */
  function GreedyChoice(t: Table, state: Key, mark: Mark, actions: seq<Pos>): Pos
  {
    if actions == [] then (0, 0)
    else actions[FirstMax(Values(t, Candidates(state, mark, actions)))]
  }

  /**
   * With at least one action, the greedy choice is an action whose
   * candidate key has the largest value, and the earliest such action.
   */
  lemma GreedyChoiceSpec(t: Table, state: Key, mark: Mark, actions: seq<Pos>)
    ensures actions == [] ==> GreedyChoice(t, state, mark, actions) == (0, 0)
    ensures actions != [] ==>
      exists i :: 0 <= i < |actions| && GreedyChoice(t, state, mark, actions) == actions[i]
        && (forall j :: 0 <= j < |actions| ==>
              Value(t, state + Triple(actions[j].0, actions[j].1, mark)) <= Value(t, state + Triple(actions[i].0, actions[i].1, mark)))
        && (forall j :: 0 <= j < i ==>
              Value(t, state + Triple(actions[j].0, actions[j].1, mark)) < Value(t, state + Triple(actions[i].0, actions[i].1, mark)))
  {
    if actions != [] {
      var vals := Values(t, Candidates(state, mark, actions));
      var i := FirstMax(vals);
      assert GreedyChoice(t, state, mark, actions) == actions[i];
    }
  }

  /** `-inf` or a value: the running best of `get_next_move`. */
  datatype Bound = NegInf | Finite(v: real)

  /** `best[1] < value`. */
  predicate Below(b: Bound, v: real)
  {
    b.NegInf? || b.v < v
  }

  /** The learning rule of `run_model`: V + alpha * (reward - V + gamma * best). */
  function TdUpdate(v: real, reward: real, best: real, alpha: real, gamma: real): real
  {
    v + alpha * (reward - v + gamma * best)
  }

  /**
   * The table after `run_model(reward)`: `prev` and every candidate key
   * inserted with 0 if missing; when there is an action,
   * V(prev) <- V(prev) + alpha * (reward - V(prev) + gamma * max).
   */
  function Learned(t: Table, prev: Key, state: Key, mark: Mark, actions: seq<Pos>,
                   reward: real, alpha: real, gamma: real): Table
  {
    var cands := Candidates(state, mark, actions);
    var inserted := Touch(Insert(t, prev), cands);
    if actions == [] then inserted
    else
      inserted[prev := TdUpdate(Value(t, prev), reward, MaxOf(Values(t, cands)), alpha, gamma)]
  }

  /**
   * `run_model` leaves `prev` and every candidate key in the table, inserts
   * absent keys with 0, and changes no stored value other than that of `prev`.
   */
  lemma LearnedInserts(t: Table, prev: Key, state: Key, mark: Mark, actions: seq<Pos>,
                       reward: real, alpha: real, gamma: real)
    ensures var r := Learned(t, prev, state, mark, actions, reward, alpha, gamma);
      && prev in r
      && (forall i :: 0 <= i < |actions| ==> state + Triple(actions[i].0, actions[i].1, mark) in r)
      && (forall k :: k in r ==> k in t || k == prev || k in Candidates(state, mark, actions))
      && (forall k :: k in t ==> k in r)
      && (forall k :: k in t && k != prev ==> r[k] == t[k])
      && (forall k :: k in r && k !in t && k != prev ==> r[k] == 0.0)
  {
    var cands := Candidates(state, mark, actions);
    TouchSpec(Insert(t, prev), cands);
    forall i | 0 <= i < |actions| ensures cands[i] in cands {
    }
  }

  /** `best` is the largest value among the keys `cands`. */
  predicate IsBest(t: Table, cands: seq<Key>, best: real)
  {
    (exists i :: 0 <= i < |cands| && Value(t, cands[i]) == best)
    && forall j :: 0 <= j < |cands| ==> Value(t, cands[j]) <= best
  }

  /** The largest candidate value, as `max(nvec)` computes it. */
  lemma MaxOfIsBest(t: Table, cands: seq<Key>)
    requires cands != []
    ensures IsBest(t, cands, MaxOf(Values(t, cands)))
  {
    var vals := Values(t, cands);
    var i :| 0 <= i < |vals| && vals[i] == MaxOf(vals);
    assert Value(t, cands[i]) == MaxOf(vals);
  }

  /**
   * With at least one action, `run_model` sets V(prev) to
   * V + alpha * (reward - V + gamma * best), where V is the pre-call value
   * (0 if absent) and best the largest candidate value.
   */
  lemma {:induction false} LearnedUpdate(t: Table, prev: Key, state: Key, mark: Mark, actions: seq<Pos>,
                      reward: real, alpha: real, gamma: real)
    requires actions != []
    ensures IsBest(t, Candidates(state, mark, actions), MaxOf(Values(t, Candidates(state, mark, actions))))
    ensures Learned(t, prev, state, mark, actions, reward, alpha, gamma)[prev]
      == TdUpdate(Value(t, prev), reward, MaxOf(Values(t, Candidates(state, mark, actions))), alpha, gamma)
  {
    MaxOfIsBest(t, Candidates(state, mark, actions));
  }

  /** With no action (a full board), `run_model` only inserts `prev` and no value changes. */
  lemma LearnedNoAction(t: Table, prev: Key, state: Key, mark: Mark,
                        reward: real, alpha: real, gamma: real)
    ensures var r := Learned(t, prev, state, mark, [], reward, alpha, gamma);
      r.Keys == t.Keys + {prev} && forall k :: Value(r, k) == Value(t, k)
  {
    assert Candidates(state, mark, []) == [];
  }

  /**
   * The update is the usual TD form: a convex blend, by alpha, of the old
   * value and the target reward + gamma * max.
   */
  lemma UpdateIsTdBlend(v: real, reward: real, best: real, alpha: real, gamma: real)
    ensures TdUpdate(v, reward, best, alpha, gamma) == (1.0 - alpha) * v + alpha * (reward + gamma * best)
  {
  }

  /** The values of one more key. */
  lemma ValuesStep(t: Table, ks: seq<Key>, i: nat)
    requires i < |ks|
    ensures Values(t, ks[..i + 1]) == Values(t, ks[..i]) + [Value(t, ks[i])]
  {
  }

  /**
   * The first half of `run_model`: `prev` and then every candidate key are
   * inserted with 0 when missing, and `nvec` collects the candidates' values.
   */
  method InsertCandidates(t: Table, prev: Key, state: Key, mark: Mark, actions: seq<Pos>)
    returns (m: Table, nvec: seq<real>)
    ensures m == Touch(Insert(t, prev), Candidates(state, mark, actions))
    ensures nvec == Values(t, Candidates(state, mark, actions))
  {
    ghost var cands := Candidates(state, mark, actions);
    var start := Insert(t, prev);
    m := start;
    nvec := [];
    var i := 0;
    while i < |actions|
      invariant 0 <= i <= |actions|
      invariant m == Touch(start, cands[..i])
      invariant nvec == Values(t, cands[..i])
    {
      var cstate := state + Triple(actions[i].0, actions[i].1, mark);
      TouchStep(start, cands, i);
      ValuesStep(t, cands, i);
      m := Insert(m, cstate);
      nvec := nvec + [m[cstate]];
      i := i + 1;
    }
    assert cands[..i] == cands;
  }

  /**
   * The loop of `get_next_move`: every missing candidate key is inserted
   * with 0 and the first candidate of largest value wins, `(0, 0)` when
   * there is none.
   */
  method ScanCandidates(t: Table, state: Key, mark: Mark, actions: seq<Pos>) returns (m: Table, best: Pos)
    ensures m == Touch(t, Candidates(state, mark, actions))
    ensures best == GreedyChoice(t, state, mark, actions)
  {
    var bestValue: Bound := NegInf;
    best := (0, 0);
    ghost var cands := Candidates(state, mark, actions);
    ghost var vals := Values(t, cands);
    ghost var bi := 0;
    m := t;
    var i := 0;
    while i < |actions|
      invariant 0 <= i <= |actions|
      invariant m == Touch(t, cands[..i])
      invariant i == 0 ==> best == (0, 0) && bestValue == NegInf
      invariant i > 0 ==> bi < i && bi == FirstMax(vals[..i]) && best == actions[bi] && bestValue == Finite(vals[bi])
    {
      var next := state + Triple(actions[i].0, actions[i].1, mark);
      assert Insert(m, next) == Touch(t, cands[..i + 1]) && Insert(m, next)[next] == vals[i] by {
        TouchStep(t, cands, i);
      }
      m := Insert(m, next);
      ScanStep(vals, i, bi);
      if Below(bestValue, m[next]) {
        best, bestValue := actions[i], Finite(m[next]);
        bi := i;
      }
      i := i + 1;
    }
    assert cands[..i] == cands && vals[..i] == vals;
  }

  class QTable {
    /** `self.state`. */
    var table: Table
    const alpha: real
    const gamma: real

    constructor (alpha: real, gamma: real)
      ensures table == map[] && this.alpha == alpha && this.gamma == gamma
    {
      table := map[];
      this.alpha := alpha;
      this.gamma := gamma;
    }

    /**
     * `get_next_move`: when exploring, the picked action (the stand-in for
     * `random.choice`) and no table change; otherwise the greedy choice,
     * after inserting every candidate key that was missing.
     */
    method GetNextMove(explore: bool, pick: nat, state: Key, mark: Mark, actions: seq<Pos>) returns (act: Pos)
      requires explore ==> pick < |actions|
      modifies this`table
      ensures explore ==> act == actions[pick] && table == old(table)
      ensures !explore ==> act == GreedyChoice(old(table), state, mark, actions)
      ensures !explore ==> table == Touch(old(table), Candidates(state, mark, actions))
    {
      if explore {
        act := actions[pick];
        return;
      }
      var m;
      m, act := ScanCandidates(table, state, mark, actions);
      table := m;
    }

    /** `run_model(reward)`: the table becomes `Learned` of the old one. */
    method RunModel(prev: Key, state: Key, mark: Mark, actions: seq<Pos>, reward: int)
      modifies this`table
      ensures table == Learned(old(table), prev, state, mark, actions, reward as real, alpha, gamma)
    {
      var m, nvec := InsertCandidates(table, prev, state, mark, actions);
      if nvec != [] {
        assert prev in m && m[prev] == Value(table, prev) by {
          TouchSpec(Insert(table, prev), Candidates(state, mark, actions));
        }
        var best := MaxOf(nvec);
        m := m[prev := TdUpdate(m[prev], reward as real, best, alpha, gamma)];
      }
      table := m;
    }
  }
}
