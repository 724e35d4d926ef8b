/**
 * `ORDER BY <amount> DESC` as a stable insertion sort on a numeric key:
 * the result is a permutation of its input whose keys never increase. Each
 * row is inserted in front of the later rows of equal key, so ties keep
 * their table order, but no contract here states that.
 */
module Sorting {

  ghost predicate NonIncreasing<T>(s: seq<T>, key: T -> real) {
    forall i, j :: 0 <= i < j < |s| ==> key(s[i]) >= key(s[j])
  }

  /** A row whose key bounds every key of a sorted tail can go in front of it. */
  lemma InsertStep<T>(x: T, s: seq<T>, rest: seq<T>, key: T -> real)
    requires s != [] && key(x) < key(s[0])
    requires multiset(rest) == multiset(s[1..]) + multiset{x}
    requires NonIncreasing(s[1..], key) ==> NonIncreasing(rest, key)
    ensures NonIncreasing(s, key) ==> NonIncreasing([s[0]] + rest, key)
  {
    if NonIncreasing(s, key) {
      assert NonIncreasing(s[1..], key) by {
        forall i, j | 0 <= i < j < |s[1..]| ensures key(s[1..][i]) >= key(s[1..][j]) {
          assert s[1..][i] == s[i + 1] && s[1..][j] == s[j + 1];
        }
      }
      var r := [s[0]] + rest;
      forall i, j | 0 <= i < j < |r| ensures key(r[i]) >= key(r[j]) {
        if i == 0 {
          var y := r[j];
          assert y == rest[j - 1];
          assert y in multiset(rest);
          if y != x {
            assert y in multiset(s[1..]);
            var k :| 0 <= k < |s[1..]| && s[1..][k] == y;
            assert s[k + 1] == y;
          }
        } else {
          assert r[i] == rest[i - 1] && r[j] == rest[j - 1];
        }
      }
    }
  }

  /** Puts `x` in front of the first row whose key does not exceed its own. */
  function Insert<T>(x: T, s: seq<T>, key: T -> real): (r: seq<T>)
    ensures multiset(r) == multiset(s) + multiset{x}
    ensures NonIncreasing(s, key) ==> NonIncreasing(r, key)
  {
    if s == [] || key(s[0]) <= key(x) then [x] + s
    else
      var rest := Insert(x, s[1..], key);
      assert s == [s[0]] + s[1..];
      InsertStep(x, s, rest, key);
      [s[0]] + rest
  }

  function SortDesc<T>(s: seq<T>, key: T -> real): (r: seq<T>)
    ensures multiset(r) == multiset(s)
    ensures NonIncreasing(r, key)
  {
    if s == [] then []
    else
      assert s == [s[0]] + s[1..];
      Insert(s[0], SortDesc(s[1..], key), key)
  }

  /** `ORDER BY ... DESC LIMIT n`: the first `n` rows of the sorted order. */
  function TopN<T>(s: seq<T>, key: T -> real, n: nat): (r: seq<T>)
    ensures |r| == if |s| < n then |s| else n
    ensures multiset(r) <= multiset(s)
    ensures NonIncreasing(r, key)
  {
    var sorted := SortDesc(s, key);
    var k := if |s| < n then |s| else n;
    assert |sorted| == |multiset(sorted)| == |s|;
    assert sorted == sorted[..k] + sorted[k..];
    sorted[..k]
  }

  /** The rows after position `k` of a sorted sequence have keys no higher than the row before `k`. */
  lemma TailBelow<T>(sorted: seq<T>, key: T -> real, k: nat)
    requires NonIncreasing(sorted, key)
    requires 0 < k <= |sorted|
    ensures forall x :: x in multiset(sorted[k..]) ==> key(x) <= key(sorted[k - 1])
  {
    forall x | x in multiset(sorted[k..]) ensures key(x) <= key(sorted[k - 1]) {
      assert x in sorted[k..];
      var j :| 0 <= j < |sorted[k..]| && sorted[k..][j] == x;
      assert sorted[k + j] == x;
    }
  }

  /** What a prefix leaves out of a permutation of `s` is the rest of that permutation. */
  lemma OmittedAreSuffix<T>(s: seq<T>, sorted: seq<T>, k: nat)
    requires multiset(sorted) == multiset(s) && k <= |sorted|
    ensures multiset(s) - multiset(sorted[..k]) == multiset(sorted[k..])
  {
    assert sorted == sorted[..k] + sorted[k..];
  }

  /** No row that `LIMIT n` leaves out has a key above the last row kept. */
  lemma TopNOmitsNoHigher<T>(s: seq<T>, key: T -> real, n: nat)
    requires n > 0
    ensures forall x :: x in multiset(s) - multiset(TopN(s, key, n)) ==>
      |TopN(s, key, n)| == n && key(x) <= key(TopN(s, key, n)[n - 1])
  {
    var sorted := SortDesc(s, key);
    var k := if |s| < n then |s| else n;
    assert |sorted| == |multiset(sorted)| == |s|;
    assert TopN(s, key, n) == sorted[..k];
    OmittedAreSuffix(s, sorted, k);
    if k < n {
      assert sorted[k..] == [];
    } else {
      TailBelow(sorted, key, k);
    }
  }
}
