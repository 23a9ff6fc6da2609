/** Shared vocabulary of the model: the optional result that stands for the
    source's `null`, rosters without duplicates, the stream of `Math.random()`
    draws, and the array search `indexOf`. */
module Common {

  /** `None` is the source's `null`. */
  datatype Option<T> = None | Some(value: T)

  /** No name occurs twice. */
  predicate Distinct<T(==)>(s: seq<T>) {
    forall i, k :: 0 <= i < k < |s| ==> s[i] != s[k]
  }

  /** Every draw is a value `Math.random()` can return: in [0, 1). */
  predicate AllUnit(draws: seq<real>) {
    forall k :: 0 <= k < |draws| ==> 0.0 <= draws[k] < 1.0
  }

  /** `Array.prototype.indexOf`: the first position holding `x`, or -1. */
  function IndexOf<T(==)>(s: seq<T>, x: T): (r: int)
    ensures -1 <= r
    ensures r == -1 <==> x !in s
    ensures 0 <= r ==> r < |s| && s[r] == x && x !in s[..r]
  {
    if |s| == 0 then -1
    else if s[0] == x then 0
    else
      var r := IndexOf(s[1..], x);
      assert s == [s[0]] + s[1..];
      if r == -1 then -1 else r + 1
  }

  /** In a roster without duplicates every name is counted at most once. */
  lemma {:induction false} DistinctCountsOnce<T>(s: seq<T>, v: T)
    requires Distinct(s)
    ensures multiset(s)[v] <= 1
  {
    if |s| > 0 {
      assert Distinct(s[1..]) by {
        forall i, k | 0 <= i < k < |s[1..]| ensures s[1..][i] != s[1..][k] {
          assert s[1..][i] == s[i + 1] && s[1..][k] == s[k + 1];
        }
      }
      DistinctCountsOnce(s[1..], v);
      assert s == [s[0]] + s[1..];
      if s[0] == v {
        assert v !in s[1..] by {
          forall k | 0 <= k < |s[1..]| ensures s[1..][k] != v {
            assert s[1..][k] == s[k + 1];
          }
        }
      }
    }
  }

  /** Two positions holding the same value make it count at least twice. */
  lemma RepeatCountsTwice<T>(s: seq<T>, i: nat, k: nat)
    requires i < k < |s| && s[i] == s[k]
    ensures multiset(s)[s[i]] >= 2
  {
    assert s == s[..i] + [s[i]] + s[i + 1..k] + [s[k]] + s[k + 1..];
  }

  /** A rearrangement of a roster without duplicates has none either. */
  lemma PermutationKeepsDistinct<T>(s: seq<T>, t: seq<T>)
    requires Distinct(s) && multiset(t) == multiset(s)
    ensures Distinct(t)
  {
    forall i, k | 0 <= i < k < |t| ensures t[i] != t[k] {
      if t[i] == t[k] {
        RepeatCountsTwice(t, i, k);
        DistinctCountsOnce(s, t[i]);
      }
    }
  }
}
