/** `shuffleAndDerange`: rejection sampling of Fisher–Yates shuffles until one
    leaves no name in its own place, with a budget of 100 attempts.

    `Math.random()` is replaced by swap partners handed in by the caller,
    one row per attempt: attempt `a` swaps position `i` (from the last down to
    1) with `rolls[a][t]`, `t` counting the passes from 0, and any partner in
    [0, i] may be chosen.  `Picks` turns `Math.random()` draws into such a row
    by the source's `floor(draw * (i + 1))`.  Every property below holds for
    every choice of partners. */
module Derangement {
  import opened Common

  /** The attempt budget (`maxAttempts`). */
  const MaxAttempts: nat := 100

  /** Exchange the elements at `i` and `j`. */
  function Swap<T>(s: seq<T>, i: nat, j: nat): (t: seq<T>)
    requires i < |s| && j < |s|
    ensures |t| == |s| && t[i] == s[j] && t[j] == s[i]
    ensures forall k :: 0 <= k < |s| && k != i && k != j ==> t[k] == s[k]
  {
    s[i := s[j]][j := s[i]]
  }

  /** A swap rearranges: it keeps the multiset. */
  lemma SwapPermutes<T>(s: seq<T>, i: nat, j: nat)
    requires i < |s| && j < |s|
    ensures multiset(Swap(s, i, j)) == multiset(s)
  {
  }

  /** How many draws one shuffle of `n` names consumes: one per position
      from `n - 1` down to 1. */
  function Width(n: nat): nat {
    if n == 0 then 0 else n - 1
  }

  /** `js` names a partner in [0, i - t] for each pass `t` of a shuffle that
      starts at position `i`. */
  predicate PartnerRow(js: seq<nat>, i: nat) {
    i <= |js| && forall t :: 0 <= t < i ==> js[t] <= i - t
  }

  /** Each row is a partner row for one shuffle of `n` names. */
  predicate Rolls(rolls: seq<seq<nat>>, n: nat) {
    forall a :: 0 <= a < |rolls| ==> PartnerRow(rolls[a], Width(n))
  }

  /** `Math.floor(Math.random() * (i + 1))`: a swap partner in [0, i]. */
  function Pick(r: real, i: nat): (j: nat)
    requires 0.0 <= r < 1.0
    ensures j <= i
    ensures j == 0 <==> r * (i + 1) as real < 1.0
  {
    assert 0.0 <= r * (i + 1) as real < (i + 1) as real;
    (r * (i + 1) as real).Floor
  }

  /** The partners the source draws for positions `i, i - 1, …, 1`. */
  function Picks(draws: seq<real>, i: nat): (js: seq<nat>)
    requires i <= |draws| && AllUnit(draws)
    ensures |js| == i && PartnerRow(js, i)
    decreases i
  {
    if i == 0 then []
    else [Pick(draws[0], i)] + Picks(draws[1..], i - 1)
  }

  /** The Fisher–Yates passes for positions `i, i - 1, …, 1`, the pass for
      position `i` using the first draw. */
  function ShuffleFrom<T>(s: seq<T>, js: seq<nat>, i: nat): seq<T>
    requires i == 0 || i < |s|
    requires PartnerRow(js, i)
    decreases i
  {
    if i == 0 then s
    else ShuffleFrom(Swap(s, i, js[0]), js[1..], i - 1)
  }

  /** One attempt: shuffle a copy of `arr` with one row of partners. */
  function Attempt<T>(arr: seq<T>, js: seq<nat>): (s: seq<T>)
    requires PartnerRow(js, Width(|arr|))
    ensures |s| == |arr| && multiset(s) == multiset(arr)
  {
    ShufflePermutes(arr, js, Width(|arr|));
    ShuffleFrom(arr, js, Width(|arr|))
  }

  /** `s` keeps no element of `arr` in its original position. */
  predicate NoFixedPoint<T(==)>(arr: seq<T>, s: seq<T>)
    requires |s| == |arr|
  {
    forall i :: 0 <= i < |arr| ==> s[i] != arr[i]
  }

  /** `s` is a derangement of `arr`: a rearrangement with no fixed point. */
  predicate IsDerangement<T(==)>(arr: seq<T>, s: seq<T>) {
    |s| == |arr| && multiset(s) == multiset(arr) && NoFixedPoint(arr, s)
  }

  /** The retry loop with `attempts` attempts left, as a function of the
      draws: the first attempt without a fixed point, or `None` once the
      budget is spent. */
  function Derange<T(==)>(arr: seq<T>, rolls: seq<seq<nat>>, attempts: nat): (r: Option<seq<T>>)
    requires attempts <= |rolls| && Rolls(rolls, |arr|)
    ensures r.Some? ==> IsDerangement(arr, r.value)
    decreases attempts
  {
    if attempts == 0 then None
    else
      var s := Attempt(arr, rolls[0]);
      ShufflePermutes(arr, rolls[0], Width(|arr|));
      if NoFixedPoint(arr, s) then Some(s)
      else Derange(arr, rolls[1..], attempts - 1)
  }

  // ---------------------------------------------------------------------
  // Properties of the specification

  /** Shuffling only swaps, so it keeps the length and the multiset. */
  lemma {:induction false} ShufflePermutes<T>(s: seq<T>, js: seq<nat>, i: nat)
    requires i == 0 || i < |s|
    requires PartnerRow(js, i)
    ensures |ShuffleFrom(s, js, i)| == |s|
    ensures multiset(ShuffleFrom(s, js, i)) == multiset(s)
    decreases i
  {
    if i > 0 {
      SwapPermutes(s, i, js[0]);
      ShufflePermutes(Swap(s, i, js[0]), js[1..], i - 1);
    }
  }

  /** The result is `None` exactly when every one of the attempts left a
      fixed point. */
  lemma {:induction false} DerangeNoneIff<T>(arr: seq<T>, rolls: seq<seq<nat>>, attempts: nat)
    requires attempts <= |rolls| && Rolls(rolls, |arr|)
    ensures Derange(arr, rolls, attempts).None? <==>
              forall a :: 0 <= a < attempts ==> !NoFixedPoint(arr, Attempt(arr, rolls[a]))
    decreases attempts
  {
    if attempts > 0 {
      DerangeNoneIff(arr, rolls[1..], attempts - 1);
      assert forall a :: 1 <= a < attempts ==> rolls[a] == rolls[1..][a - 1];
    }
  }

  /** A result that is not `None` is the first attempt that left no fixed
      point. */
  lemma {:induction false} DerangeFirstSuccess<T>(arr: seq<T>, rolls: seq<seq<nat>>, attempts: nat)
    requires attempts <= |rolls| && Rolls(rolls, |arr|)
    requires Derange(arr, rolls, attempts).Some?
    ensures exists a :: 0 <= a < attempts &&
              Derange(arr, rolls, attempts).value == Attempt(arr, rolls[a]) &&
              NoFixedPoint(arr, Attempt(arr, rolls[a])) &&
              forall b :: 0 <= b < a ==> !NoFixedPoint(arr, Attempt(arr, rolls[b]))
    decreases attempts
  {
    if NoFixedPoint(arr, Attempt(arr, rolls[0])) {
      assert Derange(arr, rolls, attempts).value == Attempt(arr, rolls[0]);
    } else {
      var rest := rolls[1..];
      DerangeFirstSuccess(arr, rest, attempts - 1);
      var a :| 0 <= a < attempts - 1 &&
               Derange(arr, rest, attempts - 1).value == Attempt(arr, rest[a]) &&
               NoFixedPoint(arr, Attempt(arr, rest[a])) &&
               forall b :: 0 <= b < a ==> !NoFixedPoint(arr, Attempt(arr, rest[b]));
      assert rest[a] == rolls[a + 1];
      assert forall b :: 1 <= b < a + 1 ==> rolls[b] == rest[b - 1];
    }
  }

  /** A one-name roster has no derangement: every attempt fails. */
  lemma {:induction false} SingleNameFails<T>(x: T, rolls: seq<seq<nat>>, attempts: nat)
    requires attempts <= |rolls| && Rolls(rolls, 1)
    ensures Derange([x], rolls, attempts) == None
    decreases attempts
  {
    if attempts > 0 {
      assert Attempt([x], rolls[0]) == [x];
      assert [x][0] == x && !NoFixedPoint([x], [x]);
      SingleNameFails(x, rolls[1..], attempts - 1);
    }
  }

  /** A two-name roster can only be answered by swapping the two names. */
  lemma TwoNamesSwap<T>(x: T, y: T, rolls: seq<seq<nat>>, attempts: nat)
    requires x != y
    requires attempts <= |rolls| && Rolls(rolls, 2)
    ensures Derange([x, y], rolls, attempts) == None ||
            Derange([x, y], rolls, attempts) == Some([y, x])
  {
    var r := Derange([x, y], rolls, attempts);
    if r.Some? {
      var s := r.value;
      assert s[0] in multiset([x, y]) && s[1] in multiset([x, y]);
      assert s == [y, x];
    }
  }

  /** For two names the first attempt succeeds when its partner is 0,
      which `Pick` chooses exactly for draws below 1/2. */
  lemma TwoNamesFirstDraw<T>(x: T, y: T, rolls: seq<seq<nat>>, attempts: nat)
    requires x != y && 0 < attempts
    requires attempts <= |rolls| && Rolls(rolls, 2)
    requires rolls[0][0] == 0
    ensures Derange([x, y], rolls, attempts) == Some([y, x])
  {
    assert Attempt([x, y], rolls[0]) == [y, x];
  }

  /** The empty roster is answered on the first attempt by the empty
      shuffle: the source returns `[]`, not `null`, for it. */
  lemma EmptyRosterSucceeds<T>(rolls: seq<seq<nat>>)
    requires MaxAttempts <= |rolls| && Rolls(rolls, 0)
    ensures Derange<T>([], rolls, MaxAttempts) == Some([])
  {
    assert Attempt<T>([], rolls[0]) == [];
  }

  // ---------------------------------------------------------------------
  // The implementation

  /** One pass of the retry loop, as seen by the specification. */
  lemma DerangeStep<T>(arr: seq<T>, rolls: seq<seq<nat>>, next: nat, attempts: nat)
    requires 0 < attempts && next + attempts <= |rolls| && Rolls(rolls, |arr|)
    ensures Rolls(rolls[next + 1..], |arr|) && |Attempt(arr, rolls[next])| == |arr|
    ensures Derange(arr, rolls[next..], attempts) ==
            if NoFixedPoint(arr, Attempt(arr, rolls[next])) then Some(Attempt(arr, rolls[next]))
            else Derange(arr, rolls[next + 1..], attempts - 1)
  {
    assert rolls[next..][0] == rolls[next] && rolls[next..][1..] == rolls[next + 1..];
    ShufflePermutes(arr, rolls[next], Width(|arr|));
  }

  /** One pass of the shuffle loop, as seen by the specification. */
  lemma ShuffleStep<T>(s: seq<T>, js: seq<nat>, used: nat, i: nat)
    requires 0 < i < |s| && used <= |js| && PartnerRow(js[used..], i)
    ensures PartnerRow(js[used + 1..], i - 1)
    ensures ShuffleFrom(s, js[used..], i) ==
            ShuffleFrom(Swap(s, i, js[used]), js[used + 1..], i - 1)
  {
    assert js[used..][0] == js[used] && js[used..][1..] == js[used + 1..];
  }

  /** One attempt's shuffle, in place (source lines 200-203). */
  method ShuffleInPlace<T>(a: array<T>, js: seq<nat>)
    requires PartnerRow(js, Width(a.Length))
    modifies a
    ensures a[..] == Attempt(old(a[..]), js)
  {
    // the source starts at `length - 1`, which for an empty copy is -1; the
    // loop body runs for neither start
    var i := Width(a.Length);
    var used := 0;  // partners consumed so far
    while i > 0
      invariant 0 <= i && 0 <= used && used + i == Width(a.Length)
      invariant PartnerRow(js[used..], i)
      invariant ShuffleFrom(a[..], js[used..], i) == Attempt(old(a[..]), js)
    {
      var j := js[used];
      ghost var before, rest := a[..], js[used..];
      a[i], a[j] := a[j], a[i];
      assert a[..] == Swap(before, i, j) by {
        assert |a[..]| == |before|;
        forall k | 0 <= k < a.Length ensures a[..][k] == Swap(before, i, j)[k] { }
      }
      ShuffleStep(before, js, used, i);
      used := used + 1;
      i := i - 1;
    }
  }

  /** The acceptance test (source lines 204-210): `valid` is true exactly when
      no position still holds its original element. */
  method CheckNoFixedPoint<T(==)>(arr: seq<T>, shuffled: array<T>) returns (valid: bool)
    requires shuffled.Length == |arr|
    ensures valid == NoFixedPoint(arr, shuffled[..])
  {
    valid := true;
    for i := 0 to |arr|
      invariant forall k :: 0 <= k < i ==> shuffled[k] != arr[k]
    {
      if arr[i] == shuffled[i] {
        valid := false;
        break;
      }
    }
  }

  /** The body of the retry loop (source lines 199-210): shuffle a fresh
      copy of the roster and test it. */
  method TryOnce<T(==)>(arr: seq<T>, js: seq<nat>) returns (valid: bool, shuffled: seq<T>)
    requires PartnerRow(js, Width(|arr|))
    ensures shuffled == Attempt(arr, js) && |shuffled| == |arr|
    ensures valid == NoFixedPoint(arr, shuffled)
  {
    var copy := new T[|arr|](k requires 0 <= k < |arr| => arr[k]);
    assert copy[..] == arr;
    ShuffleInPlace(copy, js);
    ShufflePermutes(arr, js, Width(|arr|));
    valid := CheckNoFixedPoint(arr, copy);
    shuffled := copy[..];
  }

  /** `shuffleAndDerange` (source lines 193-214). */
  method ShuffleAndDerange<T(==)>(arr: seq<T>, rolls: seq<seq<nat>>) returns (r: Option<seq<T>>)
    requires MaxAttempts <= |rolls| && Rolls(rolls, |arr|)
    ensures r == Derange(arr, rolls, MaxAttempts)
    ensures r.Some? ==> IsDerangement(arr, r.value)
  {
    var maxAttempts := MaxAttempts;
    var valid := false;
    var shuffled: seq<T> := [];
    var next := 0;  // rows of partners consumed so far
    ghost var spec := Derange(arr, rolls, MaxAttempts);
    assert rolls[next..] == rolls;
    while !valid && maxAttempts > 0
      invariant 0 <= maxAttempts <= MaxAttempts && next + maxAttempts == MaxAttempts
      invariant Rolls(rolls[next..], |arr|)
      invariant valid ==> spec == Some(shuffled)
      invariant !valid ==> spec == Derange(arr, rolls[next..], maxAttempts)
    {
      valid, shuffled := TryOnce(arr, rolls[next]);
      DerangeStep(arr, rolls, next, maxAttempts);
      next := next + 1;
      maxAttempts := maxAttempts - 1;
    }
    r := if valid then Some(shuffled) else None;
  }
}
