/**
 * The plain JavaScript object `getElectionVotes` fills in as a counter
 * (backend/blockchain/Blockchain.js:125-134): keys in insertion order, each
 * with a positive count.
 */
module Counters {
  import opened Text

  datatype Entry = Entry(key: string, count: nat)

  /** The count stored under `key`, or 0 when the table has no such key. */
  function Get(t: seq<Entry>, key: string): nat
  {
    if t == [] then 0
    else if t[0].key == key then t[0].count
    else Get(t[1..], key)
  }

  /** The keys present in the table. */
  function Keys(t: seq<Entry>): set<string>
  {
    if t == [] then {} else {t[0].key} + Keys(t[1..])
  }

  /** A well-formed counter: no key twice and no zero count. */
  predicate WellFormed(t: seq<Entry>)
  {
    t == [] || (t[0].count > 0 && t[0].key !in Keys(t[1..]) && WellFormed(t[1..]))
  }

  /** The sum of all counts in the table. */
  function Total(t: seq<Entry>): nat
  {
    if t == [] then 0 else t[0].count + Total(t[1..])
  }

  /** One more for `key`: an existing key keeps its place, a new one goes last with count 1. */
  function Bump(t: seq<Entry>, key: string): (r: seq<Entry>)
    ensures Get(r, key) == Get(t, key) + 1
    ensures forall k :: k != key ==> Get(r, k) == Get(t, k)
    ensures Keys(r) == Keys(t) + {key}
    ensures Total(r) == Total(t) + 1
    ensures |r| == if key in Keys(t) then |t| else |t| + 1
    ensures forall i :: 0 <= i < |t| ==> r[i].key == t[i].key
    ensures WellFormed(t) ==> WellFormed(r)
  {
    if t == [] then [Entry(key, 1)]
    else if t[0].key == key then [Entry(key, t[0].count + 1)] + t[1..]
    else
      var rest := Bump(t[1..], key);
      assert ([t[0]] + rest)[1..] == rest;
      [t[0]] + rest
  }

  /** In a well-formed counter a key is present exactly when its count is positive. */
  lemma {:induction false} GetPositiveIffKey(t: seq<Entry>, key: string)
    requires WellFormed(t)
    ensures Get(t, key) > 0 <==> key in Keys(t)
  {
    if t != [] {
      GetPositiveIffKey(t[1..], key);
    }
  }

  /** The table without the entry for `key`. */
  function Remove(t: seq<Entry>, key: string): (r: seq<Entry>)
    requires WellFormed(t)
    ensures WellFormed(r)
    ensures Get(r, key) == 0
    ensures forall k :: k != key ==> Get(r, k) == Get(t, k)
    ensures Keys(r) == Keys(t) - {key}
    ensures Total(r) + Get(t, key) == Total(t)
  {
    if t == [] then []
    else if t[0].key == key then
      GetPositiveIffKey(t[1..], key);
      t[1..]
    else
      var rest := Remove(t[1..], key);
      assert ([t[0]] + rest)[1..] == rest;
      [t[0]] + rest
  }

  /** The counts of the listed keys added up, absent keys counting 0. */
  function SumOf(t: seq<Entry>, keys: seq<string>): nat
  {
    if keys == [] then 0 else Get(t, keys[0]) + SumOf(t, keys[1..])
  }

  /** Keys outside the table contribute nothing, so removing one changes no sum that omits it. */
  lemma {:induction false} SumOfIgnoresOtherKeys(t: seq<Entry>, keys: seq<string>, key: string)
    requires WellFormed(t)
    requires key !in keys
    ensures SumOf(Remove(t, key), keys) == SumOf(t, keys)
  {
    if keys != [] {
      SumOfIgnoresOtherKeys(t, keys[1..], key);
    }
  }

  /** Counts looked up under distinct keys never add up to more than the table's total. */
  lemma {:induction false} SumOfDistinctAtMostTotal(t: seq<Entry>, keys: seq<string>)
    requires WellFormed(t)
    requires Distinct(keys)
    ensures SumOf(t, keys) <= Total(t)
    decreases |keys|
  {
    if keys != [] {
      var k := keys[0];
      assert k !in keys[1..] by {
        forall i | 0 <= i < |keys[1..]| ensures keys[1..][i] != k {
          assert keys[1..][i] == keys[i + 1];
        }
      }
      assert Distinct(keys[1..]) by {
        forall i, j | 0 <= i < j < |keys[1..]| ensures keys[1..][i] != keys[1..][j] {
          assert keys[1..][i] == keys[i + 1] && keys[1..][j] == keys[j + 1];
        }
      }
      SumOfIgnoresOtherKeys(t, keys[1..], k);
      SumOfDistinctAtMostTotal(Remove(t, k), keys[1..]);
    }
  }
}
