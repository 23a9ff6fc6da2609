/** `generateMatches`: pair each participant, in roster order, with the name
    at the same position of a derangement of the roster. */
module Matching {
  import opened Common
  import opened Derangement

  /** One assignment: `giver` buys a gift for `receiver`. */
  datatype Pair<T> = Pair(giver: T, receiver: T)

  /** `participants.map((giver, i) => ({ giver, receiver: shuffled[i] }))`. */
  function Zip<T>(participants: seq<T>, shuffled: seq<T>): seq<Pair<T>>
    requires |shuffled| == |participants|
  {
    seq(|participants|, i requires 0 <= i < |participants| => Pair(participants[i], shuffled[i]))
  }

  /** The receivers of `pairs`, in turn order. */
  function Receivers<T>(pairs: seq<Pair<T>>): (r: seq<T>)
    ensures |r| == |pairs|
  {
    seq(|pairs|, i requires 0 <= i < |pairs| => pairs[i].receiver)
  }

  /** `pairs` lists the roster as givers, in order, and a derangement of the
      roster as receivers. */
  predicate IsAssignment<T(==)>(participants: seq<T>, pairs: seq<Pair<T>>) {
    && |pairs| == |participants|
    && (forall i :: 0 <= i < |pairs| ==> pairs[i].giver == participants[i])
    && IsDerangement(participants, Receivers(pairs))
  }

  /** Zipping the roster with a derangement of it gives an assignment. */
  lemma ZipIsAssignment<T>(participants: seq<T>, shuffled: seq<T>)
    requires IsDerangement(participants, shuffled)
    ensures IsAssignment(participants, Zip(participants, shuffled))
  {
    assert Receivers(Zip(participants, shuffled)) == shuffled;
  }

  /** Every receiver of an assignment is on the roster, and every name on
      the roster receives. */
  lemma ReceiversAreRoster<T>(participants: seq<T>, pairs: seq<Pair<T>>)
    requires IsAssignment(participants, pairs)
    ensures forall i :: 0 <= i < |pairs| ==> pairs[i].receiver in participants
    ensures forall p :: p in participants ==>
              exists i :: 0 <= i < |pairs| && pairs[i].receiver == p
  {
    var rs := Receivers(pairs);
    forall p | p in participants
      ensures exists i :: 0 <= i < |pairs| && pairs[i].receiver == p
    {
      assert p in multiset(rs);
      var i :| 0 <= i < |rs| && rs[i] == p;
    }
    forall i | 0 <= i < |pairs| ensures pairs[i].receiver in participants {
      assert rs[i] in multiset(participants);
    }
  }

  /** For a roster without duplicates no two pairs share a receiver. */
  lemma ReceiversDistinct<T>(participants: seq<T>, pairs: seq<Pair<T>>)
    requires Distinct(participants) && IsAssignment(participants, pairs)
    ensures forall i, k :: 0 <= i < k < |pairs| ==> pairs[i].receiver != pairs[k].receiver
  {
    var rs := Receivers(pairs);
    PermutationKeepsDistinct(participants, rs);
    forall i, k | 0 <= i < k < |pairs| ensures pairs[i].receiver != pairs[k].receiver {
      assert rs[i] != rs[k];
    }
  }

  /** The givers are the roster, without repeats, and nobody is their own
      receiver. */
  lemma GiversAreRoster<T>(participants: seq<T>, pairs: seq<Pair<T>>)
    requires Distinct(participants) && IsAssignment(participants, pairs)
    ensures forall i :: 0 <= i < |pairs| ==> pairs[i].giver != pairs[i].receiver
    ensures forall i, k :: 0 <= i < k < |pairs| ==> pairs[i].giver != pairs[k].giver
    ensures forall p :: p in participants ==>
              exists i :: 0 <= i < |pairs| && pairs[i].giver == p
  {
    forall i | 0 <= i < |pairs| ensures pairs[i].giver != pairs[i].receiver {
      assert Receivers(pairs)[i] != participants[i];
    }
    forall p | p in participants ensures exists i :: 0 <= i < |pairs| && pairs[i].giver == p {
      var i :| 0 <= i < |participants| && participants[i] == p;
      assert pairs[i].giver == p;
    }
  }

  /** For a roster without duplicates an assignment is one-to-one: nobody
      gives to themself, every participant gives exactly once and receives
      exactly once, and every receiver is on the roster. */
  lemma AssignmentIsOneToOne<T>(participants: seq<T>, pairs: seq<Pair<T>>)
    requires Distinct(participants) && IsAssignment(participants, pairs)
    ensures forall i :: 0 <= i < |pairs| ==> pairs[i].giver != pairs[i].receiver
    ensures forall i, k :: 0 <= i < k < |pairs| ==>
              pairs[i].giver != pairs[k].giver && pairs[i].receiver != pairs[k].receiver
    ensures forall p :: p in participants ==>
              (exists i :: 0 <= i < |pairs| && pairs[i].giver == p) &&
              (exists i :: 0 <= i < |pairs| && pairs[i].receiver == p)
    ensures forall i :: 0 <= i < |pairs| ==> pairs[i].receiver in participants
  {
    ReceiversAreRoster(participants, pairs);
    ReceiversDistinct(participants, pairs);
    GiversAreRoster(participants, pairs);
  }

  /** What `generateMatches` returns for given draws: `None` when the shuffle
      gave up, otherwise the roster zipped with its derangement. */
  function Matches<T(==)>(participants: seq<T>, rolls: seq<seq<nat>>): (m: Option<seq<Pair<T>>>)
    requires MaxAttempts <= |rolls| && Rolls(rolls, |participants|)
    ensures m.None? <==> Derange(participants, rolls, MaxAttempts).None?
    ensures m.Some? ==> IsAssignment(participants, m.value)
  {
    match Derange(participants, rolls, MaxAttempts)
    case None => None
    case Some(shuffled) =>
      ZipIsAssignment(participants, shuffled);
      Some(Zip(participants, shuffled))
  }

  /** `generateMatches` (source lines 179-191). */
  method GenerateMatches<T(==)>(participants: seq<T>, rolls: seq<seq<nat>>)
    returns (matches: Option<seq<Pair<T>>>)
    requires MaxAttempts <= |rolls| && Rolls(rolls, |participants|)
    ensures matches == Matches(participants, rolls)
    ensures matches.None? <==> Derange(participants, rolls, MaxAttempts).None?
    ensures matches.Some? ==> IsAssignment(participants, matches.value)
  {
    var shuffled := ShuffleAndDerange(participants, rolls);
    if shuffled.None? {
      return None;
    }
    ZipIsAssignment(participants, shuffled.value);
    matches := Some(Zip(participants, shuffled.value));
  }
}
