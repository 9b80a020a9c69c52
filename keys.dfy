/**
 * State keys of main.py's Q-tables. A key is a flat tuple of
 * (row, col, mark) triples: it starts as `(0, 0, mark)` and grows by one
 * triple per recorded move. To write a table as JSON the marks are replaced
 * by the sentinels -10 ('X') and -20 ('O') and mapped back on reading
 * (`QTable.json`, `QTable.from_json`); this module holds that
 * element-wise codec.
 */
module Keys {
  import opened Board

  /** One element of a key tuple: a coordinate (or any integer) or a mark. */
  datatype KeyElem = Num(n: int) | Sym(m: Mark)

  type Key = seq<KeyElem>

  /** The tuple `(x, y, mark)`. */
  function Triple(x: int, y: int, m: Mark): (k: Key)
    ensures |k| == 3
  {
    [Num(x), Num(y), Sym(m)]
  }

  /** The key a unit starts from: `(0, 0, mark)`. */
  function InitialKey(m: Mark): Key
  {
    Triple(0, 0, m)
  }

  /** Element `e` sits at position `slot` (0, 1 or 2) of a triple on a size-by-size board. */
  predicate ElemOk(e: KeyElem, slot: int, size: nat)
  {
    if slot == 2 then e.Sym? else e.Num? && 0 <= e.n < size
  }

  /** `k` is made of whole triples whose coordinates lie on an n-by-n board. */
  predicate KeyOk(k: Key, n: nat)
  {
    |k| % 3 == 0 && forall i :: 0 <= i < |k| ==> ElemOk(k[i], i % 3, n)
  }

  /** Appending an on-board triple keeps a key well formed; in particular the length stays a multiple of 3. */
  lemma KeyOkAppend(k: Key, x: int, y: int, m: Mark, n: nat)
    requires KeyOk(k, n) && 0 <= x < n && 0 <= y < n
    ensures KeyOk(k + Triple(x, y, m), n)
    ensures |k + Triple(x, y, m)| == |k| + 3
  {
    var r := k + Triple(x, y, m);
    forall i | 0 <= i < |r| ensures ElemOk(r[i], i % 3, n) {
      if i >= |k| {
        assert (i - |k|) % 3 == i % 3;
      }
    }
  }

  /** The starting key is well formed on any non-empty board. */
  lemma InitialKeyOk(m: Mark, n: nat)
    requires n >= 1
    ensures KeyOk(InitialKey(m), n)
  {
    assert InitialKey(m) == [] + Triple(0, 0, m);
    KeyOkAppend([], 0, 0, m, n);
  }

  // ---------------------------------------------------------------------
  // The mark <-> sentinel codec
  // ---------------------------------------------------------------------

  const XSentinel: int := -10
  const OSentinel: int := -20

  /** One element as `QTable.json` writes it. */
  function EncodeElem(e: KeyElem): int
  {
    match e
    case Num(v) => v
    case Sym(m) => if m == X then XSentinel else OSentinel
  }

  /** One element as `QTable.from_json` reads it back. */
  function DecodeElem(v: int): KeyElem
  {
    if v == XSentinel then Sym(X) else if v == OSentinel then Sym(O) else Num(v)
  }

  /** Encoding turns each 'X' into -10 and each 'O' into -20 and keeps every integer, in order. */
  function EncodeKey(k: Key): (r: seq<int>)
    ensures |r| == |k|
    ensures forall i :: 0 <= i < |k| ==>
      (k[i] == Sym(X) ==> r[i] == -10) && (k[i] == Sym(O) ==> r[i] == -20) && (k[i].Num? ==> r[i] == k[i].n)
  {
    seq(|k|, i requires 0 <= i < |k| => EncodeElem(k[i]))
  }

  /** Decoding turns each -10 into 'X' and each -20 into 'O' and keeps every other integer, in order. */
  function DecodeKey(s: seq<int>): (r: Key)
    ensures |r| == |s|
    ensures forall i :: 0 <= i < |s| ==>
      (s[i] == -10 ==> r[i] == Sym(X)) && (s[i] == -20 ==> r[i] == Sym(O))
      && (s[i] != -10 && s[i] != -20 ==> r[i] == Num(s[i]))
  {
    seq(|s|, i requires 0 <= i < |s| => DecodeElem(s[i]))
  }

  /** No integer of `k` collides with a sentinel. */
  predicate SentinelFree(k: Key)
  {
    forall i :: 0 <= i < |k| ==> k[i] != Num(XSentinel) && k[i] != Num(OSentinel)
  }

  /** A well-formed key has non-negative coordinates, so it holds no sentinel. */
  lemma KeyOkSentinelFree(k: Key, n: nat)
    requires KeyOk(k, n)
    ensures SentinelFree(k)
  {
    forall i | 0 <= i < |k| ensures k[i] != Num(XSentinel) && k[i] != Num(OSentinel) {
      assert ElemOk(k[i], i % 3, n);
    }
  }

  /** Reading back what was written restores the key element for element. */
  lemma DecodeEncode(k: Key)
    requires SentinelFree(k)
    ensures DecodeKey(EncodeKey(k)) == k
  {
    var r := DecodeKey(EncodeKey(k));
    forall i | 0 <= i < |k| ensures r[i] == k[i] {
      match k[i]
      case Num(v) => assert v != -10 && v != -20;
      case Sym(m) => assert m == X || m == O;
    }
  }

  /** Writing back what was read restores the integer list: every -10/-20 came from a mark. */
  lemma EncodeDecode(s: seq<int>)
    ensures EncodeKey(DecodeKey(s)) == s
  {
    var r := EncodeKey(DecodeKey(s));
    forall i | 0 <= i < |s| ensures r[i] == s[i] {
      assert DecodeKey(s)[i] == DecodeElem(s[i]);
    }
  }

  /** Distinct sentinel-free keys are written as distinct integer lists. */
  lemma EncodeInjective(k1: Key, k2: Key)
    requires SentinelFree(k1) && SentinelFree(k2) && EncodeKey(k1) == EncodeKey(k2)
    ensures k1 == k2
  {
    DecodeEncode(k1);
    DecodeEncode(k2);
  }

  /** Distinct integer lists are read as distinct keys. */
  lemma DecodeInjective(s1: seq<int>, s2: seq<int>)
    requires DecodeKey(s1) == DecodeKey(s2)
    ensures s1 == s2
  {
    EncodeDecode(s1);
    EncodeDecode(s2);
  }
}
