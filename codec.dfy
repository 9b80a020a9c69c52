/**
 * Writing a Q-table out and reading it back (`QTable.json`,
 * `QTable.from_json`): every key is rewritten element by element with the
 * mark <-> sentinel codec of module Keys, and every value is carried over.
 * The JSON text itself (`repr`, `json.dumps`, `json.loads`) is not modelled.
 */
module TableCodec {
  import opened Keys
  import opened QLearning
  import opened Units

  /** No key of `t` holds a sentinel integer. */
  predicate TableSentinelFree(t: Table)
  {
    forall k :: k in t ==> SentinelFree(k)
  }

  /** The table of every well-kept unit meets the requirement of `EncodeTable`. */
  lemma AgentTableSentinelFree(a: Agent, n: nat)
    requires AgentOk(a, n)
    ensures TableSentinelFree(a.table)
  {
    forall k | k in a.table ensures SentinelFree(k) {
      KeyOkSentinelFree(k, n);
    }
  }

  /** The table as `json` writes it: marks replaced by sentinels, values unchanged. */
  function EncodeTable(t: Table): (e: map<seq<int>, real>)
    requires TableSentinelFree(t)
    ensures forall k :: k in t ==> EncodeKey(k) in e && e[EncodeKey(k)] == t[k]
    ensures e.Keys == set k | k in t :: EncodeKey(k)
  {
    EncodeKeysInjective(t);
    map k | k in t :: EncodeKey(k) := t[k]
  }

  /** The table as `from_json` rebuilds it: sentinels replaced by marks, values unchanged. */
  function DecodeTable(e: map<seq<int>, real>): (t: Table)
    ensures forall s :: s in e ==> DecodeKey(s) in t && t[DecodeKey(s)] == e[s]
    ensures t.Keys == set s | s in e :: DecodeKey(s)
  {
    DecodeKeysInjective(e);
    map s | s in e :: DecodeKey(s) := e[s]
  }

  lemma EncodeKeysInjective(t: Table)
    requires TableSentinelFree(t)
    ensures forall k1, k2 :: k1 in t && k2 in t && EncodeKey(k1) == EncodeKey(k2) ==> k1 == k2
  {
    forall k1, k2 | k1 in t && k2 in t && EncodeKey(k1) == EncodeKey(k2) ensures k1 == k2 {
      EncodeInjective(k1, k2);
    }
  }

  lemma DecodeKeysInjective(e: map<seq<int>, real>)
    ensures forall s1, s2 :: s1 in e && s2 in e && DecodeKey(s1) == DecodeKey(s2) ==> s1 == s2
  {
    forall s1, s2 | s1 in e && s2 in e && DecodeKey(s1) == DecodeKey(s2) ensures s1 == s2 {
      DecodeInjective(s1, s2);
    }
  }

  /** Every entry survives writing and reading, with its value. */
  lemma RoundTripKeeps(t: Table)
    requires TableSentinelFree(t)
    ensures forall k :: k in t ==> k in DecodeTable(EncodeTable(t)) && DecodeTable(EncodeTable(t))[k] == t[k]
  {
    var e := EncodeTable(t);
    var r := DecodeTable(e);
    forall k | k in t ensures k in r && r[k] == t[k] {
      DecodeEncode(k);
    }
  }

  /** Reading back what was written adds no entry. */
  lemma RoundTripAddsNothing(t: Table)
    requires TableSentinelFree(t)
    ensures forall k :: k in DecodeTable(EncodeTable(t)) ==> k in t
  {
    var e := EncodeTable(t);
    var r := DecodeTable(e);
    forall k | k in r ensures k in t {
      var s :| s in e && DecodeKey(s) == k;
      var k0 :| k0 in t && EncodeKey(k0) == s;
      DecodeEncode(k0);
    }
  }

  /** Writing a table out and reading it back gives the same table. */
  lemma TableRoundTrip(t: Table)
    requires TableSentinelFree(t)
    ensures DecodeTable(EncodeTable(t)) == t
  {
    RoundTripKeeps(t);
    RoundTripAddsNothing(t);
    SameEntries(t, DecodeTable(EncodeTable(t)));
  }

  lemma SameEntries(a: Table, b: Table)
    requires forall k :: k in a ==> k in b && b[k] == a[k]
    requires forall k :: k in b ==> k in a
    ensures b == a
  {
  }
}
