/**
 * Tables as sequences of rows with an integer key: lookup of the first row matching a WHERE
 * clause, DELETE by key, and the invariants a SERIAL key column keeps (keys unique, and below
 * the next one the sequence hands out).
 */
module Keyed {
  import opened Wrappers
  import opened Sequences

  /** The position of the first row satisfying p (SELECT ... WHERE ... fetchone()). */
  function FindFirst<T>(rows: seq<T>, p: T -> bool): (r: Option<nat>)
    ensures r.Some? ==> r.value < |rows| && p(rows[r.value])
    ensures r.Some? ==> forall k :: 0 <= k < r.value ==> !p(rows[k])
    ensures r.None? <==> forall k :: 0 <= k < |rows| ==> !p(rows[k])
    decreases |rows|
  {
    if |rows| == 0 then None
    else if p(rows[0]) then Some(0)
    else
      match FindFirst(rows[1..], p)
      case None =>
        assert forall k :: 1 <= k < |rows| ==> rows[k] == rows[1..][k - 1];
        None
      case Some(i) =>
        assert forall k :: 1 <= k < i + 1 ==> rows[k] == rows[1..][k - 1];
        Some(i + 1)
  }

  /** Every key is below the bound. */
  predicate KeysBelow<T>(rows: seq<T>, key: T -> nat, bound: nat) {
    forall k :: 0 <= k < |rows| ==> key(rows[k]) < bound
  }

  /** The rows left after DELETE ... WHERE key = k. */
  function RemoveKey<T(!new)>(rows: seq<T>, key: T -> nat, k: nat): (r: seq<T>)
    ensures forall x :: x in r <==> x in rows && key(x) != k
  {
    Filter(rows, (x: T) => key(x) != k)
  }

  lemma RemoveKeyCons<T(!new)>(rows: seq<T>, key: T -> nat, k: nat)
    requires |rows| > 0
    ensures RemoveKey(rows, key, k) == (if key(rows[0]) != k then [rows[0]] else []) + RemoveKey(rows[1..], key, k)
  {
  }

  lemma DistinctTail<T>(rows: seq<T>, key: T -> nat)
    requires |rows| > 0 && DistinctKeys(rows, key)
    ensures DistinctKeys(rows[1..], key)
    ensures forall x :: x in rows[1..] ==> key(x) != key(rows[0])
  {
    forall a, b | 0 <= a < b < |rows[1..]| ensures key(rows[1..][a]) != key(rows[1..][b]) {
      assert rows[1..][a] == rows[a + 1] && rows[1..][b] == rows[b + 1];
    }
    forall x | x in rows[1..] ensures key(x) != key(rows[0]) {
      var m :| 0 <= m < |rows[1..]| && rows[1..][m] == x;
      assert rows[m + 1] == x;
    }
  }

  lemma RemoveKeyHead<T(!new)>(rows: seq<T>, key: T -> nat)
    requires |rows| > 0 && DistinctKeys(rows, key)
    ensures RemoveKey(rows, key, key(rows[0])) == rows[1..]
  {
    var k := key(rows[0]);
    DistinctTail(rows, key);
    RemoveKeyCons(rows, key, k);
    FilterAll(rows[1..], (x: T) => key(x) != k);
  }

  lemma Splice<T>(rows: seq<T>, i: nat)
    requires 0 < i < |rows|
    ensures [rows[0]] + (rows[1..][..i - 1] + rows[1..][i..]) == rows[..i] + rows[i + 1..]
  {
    assert rows[1..][..i - 1] == rows[1..i];
    assert rows[1..][i..] == rows[i + 1..];
    assert [rows[0]] + rows[1..i] == rows[..i];
  }

  /** With unique keys, deleting by key removes exactly the one row at that position. */
  lemma {:induction false} RemoveKeyAt<T(!new)>(rows: seq<T>, key: T -> nat, i: nat)
    requires DistinctKeys(rows, key) && i < |rows|
    ensures RemoveKey(rows, key, key(rows[i])) == rows[..i] + rows[i + 1..]
    decreases |rows|
  {
    if i == 0 {
      RemoveKeyHead(rows, key);
      assert rows[..0] + rows[1..] == rows[1..];
    } else {
      var k := key(rows[i]);
      DistinctTail(rows, key);
      RemoveKeyCons(rows, key, k);
      assert rows[1..][i - 1] == rows[i];
      RemoveKeyAt(rows[1..], key, i - 1);
      Splice(rows, i);
    }
  }

  /** Appending a row whose key is the bound keeps the keys unique, below the next bound. */
  lemma AppendKeeps<T>(rows: seq<T>, key: T -> nat, bound: nat, x: T)
    requires DistinctKeys(rows, key) && KeysBelow(rows, key, bound) && key(x) == bound
    ensures DistinctKeys(rows + [x], key) && KeysBelow(rows + [x], key, bound + 1)
  {
    assert forall k :: 0 <= k < |rows| ==> (rows + [x])[k] == rows[k];
  }

  /** Replacing a row by one with the same key keeps the keys unique and bounded. */
  lemma ReplaceKeeps<T>(rows: seq<T>, key: T -> nat, bound: nat, i: nat, x: T)
    requires i < |rows| && key(x) == key(rows[i])
    requires DistinctKeys(rows, key) && KeysBelow(rows, key, bound)
    ensures DistinctKeys(rows[i := x], key) && KeysBelow(rows[i := x], key, bound)
  {
  }

  /** Removing one row keeps the keys unique and below the bound. */
  lemma RemoveKeeps<T>(rows: seq<T>, key: T -> nat, bound: nat, i: nat)
    requires i < |rows| && DistinctKeys(rows, key) && KeysBelow(rows, key, bound)
    ensures DistinctKeys(rows[..i] + rows[i + 1..], key) && KeysBelow(rows[..i] + rows[i + 1..], key, bound)
  {
    var rest := rows[..i] + rows[i + 1..];
    forall a | 0 <= a < |rest| ensures rest[a] == rows[if a < i then a else a + 1] {
    }
  }
}
