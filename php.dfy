/**
 * The few PHP built-ins the contact source relies on, as Dafny values:
 * `strtolower` (ASCII-only, as in PHP 8.2 and later), `array_change_key_case`
 * on an ordered array with string keys, `isset` lookup and `empty()` on a string.
 */
module Php {

  datatype Option<T> = None | Some(value: T) {
    function GetOr(default: T): T {
      match this
      case Some(v) => v
      case None => default
    }
  }

  /** An ordered PHP array with string keys, as its list of key/value pairs. */
  type Pairs<V> = seq<(string, V)>

  function LowerChar(c: char): char {
    if 'A' <= c <= 'Z' then (c as int + 32) as char else c
  }

  /** `strtolower`: only the ASCII letters A-Z change. */
  function Lower(s: string): (r: string)
    ensures |r| == |s|
    ensures forall i :: 0 <= i < |s| ==> r[i] == LowerChar(s[i])
  {
    seq(|s|, i requires 0 <= i < |s| => LowerChar(s[i]))
  }

  predicate IsLower(s: string) {
    forall i :: 0 <= i < |s| ==> !('A' <= s[i] <= 'Z')
  }

  lemma LowerIsLower(s: string)
    ensures IsLower(Lower(s))
    ensures IsLower(s) ==> Lower(s) == s
  {
  }

  /** `empty($s)` for a string: true for "" and for "0". */
  predicate Empty(s: string) {
    s == "" || s == "0"
  }

  /** The distinct keys of an array, in order. */
  predicate DistinctKeys<V>(kvs: Pairs<V>) {
    forall i, j :: 0 <= i < j < |kvs| ==> kvs[i].0 != kvs[j].0
  }

  /** `$a[$k]` when `isset($a[$k])`, on an array with distinct keys. */
  function Get<V>(kvs: Pairs<V>, k: string): Option<V> {
    if kvs == [] then None
    else if kvs[0].0 == k then Some(kvs[0].1)
    else Get(kvs[1..], k)
  }

  /** `$a[$k] = $v`: an existing key keeps its position, a new key goes last. */
  function Put<V>(kvs: Pairs<V>, k: string, v: V): (r: Pairs<V>)
    ensures |r| == |kvs| || |r| == |kvs| + 1
    ensures 0 < |r|
  {
    if kvs == [] then [(k, v)]
    else if kvs[0].0 == k then [(k, v)] + kvs[1..]
    else [kvs[0]] + Put(kvs[1..], k, v)
  }

  /**
   * `array_change_key_case($a, CASE_LOWER)`: every key lower-cased; when two
   * keys collide, the later value overwrites the earlier one in place.
   */
  function ChangeKeyCase<V>(ps: Pairs<V>): (r: Pairs<V>)
    ensures |r| <= |ps|
    ensures r == [] <==> ps == []
  {
    if ps == [] then []
    else Put(ChangeKeyCase(ps[..|ps| - 1]), Lower(ps[|ps| - 1].0), ps[|ps| - 1].1)
  }

  /**
   * Case-insensitive lookup in the array as given: the value of the LAST pair
   * whose key lower-cases to `k`. This is the reference against which
   * `Get(ChangeKeyCase(ps), k)` is proved.
   */
  function LastWith<V>(ps: Pairs<V>, k: string): Option<V> {
    if ps == [] then None
    else if Lower(ps[|ps| - 1].0) == k then Some(ps[|ps| - 1].1)
    else LastWith(ps[..|ps| - 1], k)
  }

  lemma {:induction false} GetPut<V>(kvs: Pairs<V>, k: string, v: V, k': string)
    ensures Get(Put(kvs, k, v), k') == if k' == k then Some(v) else Get(kvs, k')
  {
    if kvs != [] && kvs[0].0 != k {
      GetPut(kvs[1..], k, v, k');
    }
  }

  lemma {:induction false} PutKeys<V>(kvs: Pairs<V>, k: string, v: V)
    requires DistinctKeys(kvs)
    ensures DistinctKeys(Put(kvs, k, v))
    ensures forall i :: 0 <= i < |Put(kvs, k, v)| ==>
              Put(kvs, k, v)[i].0 == k || exists j :: 0 <= j < |kvs| && kvs[j].0 == Put(kvs, k, v)[i].0
  {
    if kvs != [] && kvs[0].0 != k {
      PutKeys(kvs[1..], k, v);
      var r := Put(kvs, k, v);
      forall i | 0 <= i < |r|
        ensures r[i].0 == k || exists j :: 0 <= j < |kvs| && kvs[j].0 == r[i].0
      {
        if i > 0 {
          var rest := Put(kvs[1..], k, v);
          assert r[i] == rest[i - 1];
          if rest[i - 1].0 != k {
            var j :| 0 <= j < |kvs[1..]| && kvs[1..][j].0 == rest[i - 1].0;
            assert kvs[j + 1].0 == r[i].0;
          }
        }
      }
    }
  }

  /** A new key is appended at the end. */
  lemma {:induction false} PutFresh<V>(kvs: Pairs<V>, k: string, v: V)
    requires forall i :: 0 <= i < |kvs| ==> kvs[i].0 != k
    ensures Put(kvs, k, v) == kvs + [(k, v)]
  {
    if kvs != [] {
      PutFresh(kvs[1..], k, v);
      assert kvs == [kvs[0]] + kvs[1..];
    }
  }

  /** Looking up a lower-cased array is a case-insensitive lookup, and the last duplicate wins. */
  lemma {:induction false} ChangeKeyCaseGet<V>(ps: Pairs<V>, k: string)
    ensures Get(ChangeKeyCase(ps), k) == LastWith(ps, k)
  {
    if ps != [] {
      var n := |ps| - 1;
      ChangeKeyCaseGet(ps[..n], k);
      GetPut(ChangeKeyCase(ps[..n]), Lower(ps[n].0), ps[n].1, k);
    }
  }

  /** The lower-cased array has distinct, lower-case keys. */
  lemma {:induction false} ChangeKeyCaseKeys<V>(ps: Pairs<V>)
    ensures DistinctKeys(ChangeKeyCase(ps))
    ensures forall i :: 0 <= i < |ChangeKeyCase(ps)| ==> IsLower(ChangeKeyCase(ps)[i].0)
  {
    if ps != [] {
      var n := |ps| - 1;
      var prev := ChangeKeyCase(ps[..n]);
      ChangeKeyCaseKeys(ps[..n]);
      PutKeys(prev, Lower(ps[n].0), ps[n].1);
      LowerIsLower(ps[n].0);
    }
  }

  /** Without collisions the array keeps its order and only its keys change. */
  lemma {:induction false} ChangeKeyCaseNoCollision<V>(ps: Pairs<V>)
    requires forall i, j :: 0 <= i < j < |ps| ==> Lower(ps[i].0) != Lower(ps[j].0)
    ensures |ChangeKeyCase(ps)| == |ps|
    ensures forall i :: 0 <= i < |ps| ==> ChangeKeyCase(ps)[i] == (Lower(ps[i].0), ps[i].1)
  {
    if ps != [] {
      var n := |ps| - 1;
      ChangeKeyCaseNoCollision(ps[..n]);
      PutFresh(ChangeKeyCase(ps[..n]), Lower(ps[n].0), ps[n].1);
    }
  }
}
