/** The landing rule of `spinWheelToTarget`: where the wheel must stop so
    that the receiver's segment sits under the pointer, after at least five
    full turns forward from where it stands.

    Angles are Dafny `real`s, an idealisation of the source's doubles: no
    rounding is modelled.  A full turn is `TwoPi`, the decimal form of
    the double `2 * Math.PI`; only its positivity matters to the proofs. */
module Landing {
  import opened Common

  /** One full turn, `2 * Math.PI`. */
  const TwoPi: real := 6.283185307179586

  /** Full turns the wheel must make before landing (`spins`). */
  const Spins: nat := 5

  /** The angle of one segment, `(2 * Math.PI) / participants.length`. */
  function Arc(n: nat): (arc: real)
    requires 0 < n
    ensures 0.0 < arc && arc * n as real == TwoPi
  {
    TwoPi / n as real
  }

  /** `(Math.random() - 0.5) * (arc * 0.8)`: a jitter within 40% of a
      segment either side of its centre. */
  function Jitter(r: real, arc: real): (offset: real)
    requires 0.0 <= r < 1.0 && 0.0 < arc
    ensures -0.4 * arc <= offset < 0.4 * arc
  {
    assert 0.0 <= r * arc < arc;
    (r - 0.5) * (arc * 0.8)
  }

  /** `targetRotation`: the rotation, up to whole turns, that puts the centre
      of segment `k` of `n` under the pointer, shifted by the jitter. */
  function TargetRotation(k: nat, n: nat, r: real): (target: real)
    requires k < n && 0.0 <= r < 1.0
    ensures -(k as real * Arc(n)) - 0.9 * Arc(n) <= target < -(k as real * Arc(n)) - 0.1 * Arc(n)
  {
    -(k as real * Arc(n) + Arc(n) / 2.0) + Jitter(r, Arc(n))
  }

  /** How many times the landing loop adds a full turn to `rotation` before
      it reaches `bound`: the fewest whole turns that get there. */
  function Turns(rotation: real, bound: real): (t: nat)
    ensures bound <= rotation + t as real * TwoPi
    ensures t == 0 || rotation + (t - 1) as real * TwoPi < bound
    decreases bound - rotation
  {
    if rotation < bound then 1 + Turns(rotation + TwoPi, bound) else 0
  }

  /** The rotation the wheel comes to rest at: the target rotation plus the
      fewest whole turns that carry it at least `Spins` turns past `current`. */
  function FinalRotation(k: nat, n: nat, r: real, current: real): real
    requires k < n && 0.0 <= r < 1.0
  {
    var target := TargetRotation(k, n, r);
    target + Turns(target, current + Spins as real * TwoPi) as real * TwoPi
  }

  /** Segment `i` of `n` lies under the pointer when the wheel is drawn at
      rotation `theta`: drawn from `i * arc + theta` to `(i + 1) * arc + theta`
      relative to the pointer, it covers the pointer's direction `m` turns on. */
  predicate UnderPointer(i: nat, n: nat, theta: real, m: int)
    requires 0 < n
  {
    i as real * Arc(n) + theta <= m as real * TwoPi < (i + 1) as real * Arc(n) + theta
  }

  /** The landing rule's guarantees: the wheel turns forward by at least
      `Spins` full turns and by whole turns past the target rotation, by the
      fewest such turns; the centre of the target segment stops within 40%
      of a segment of the pointer, so the pointer rests inside that segment. */
  lemma {:induction false} FinalRotationLands(k: nat, n: nat, r: real, current: real)
    requires k < n && 0.0 <= r < 1.0
    ensures var f, t := FinalRotation(k, n, r, current),
                       Turns(TargetRotation(k, n, r), current + Spins as real * TwoPi);
      && current + Spins as real * TwoPi <= f
      && f == TargetRotation(k, n, r) + t as real * TwoPi
      && (t == 0 || f - TwoPi < current + Spins as real * TwoPi)
      && -0.4 * Arc(n) <= t as real * TwoPi - (k as real * Arc(n) + Arc(n) / 2.0 + f) <= 0.4 * Arc(n)
      && UnderPointer(k, n, f, t)
  {
    var arc := Arc(n);
    var target := TargetRotation(k, n, r);
    var j := Jitter(r, arc);
    assert target == -(k as real * arc + arc / 2.0) + j;
  }

  /** `spinWheelToTarget` up to the start of the animation (source lines
      300-353): `None` when the target is not on the roster (the source then
      returns without ever calling back), otherwise the rotation the
      animation ends at. */
  method SpinWheelToTarget<T(==)>(participants: seq<T>, targetName: T, currentRotation: real, r: real)
    returns (finalRotation: Option<real>)
    requires 0.0 <= r < 1.0
    ensures finalRotation.None? <==> targetName !in participants
    ensures finalRotation.Some? ==>
              var k := IndexOf(participants, targetName);
              0 <= k < |participants| && participants[k] == targetName &&
              finalRotation.value == FinalRotation(k, |participants|, r, currentRotation)
    ensures finalRotation.Some? ==>
              var k, f := IndexOf(participants, targetName), finalRotation.value;
              var t := Turns(TargetRotation(k, |participants|, r), currentRotation + Spins as real * TwoPi);
              && currentRotation + Spins as real * TwoPi <= f
              && f == TargetRotation(k, |participants|, r) + t as real * TwoPi
              && UnderPointer(k, |participants|, f, t)
  {
    var targetIndex := IndexOf(participants, targetName);
    if targetIndex == -1 {
      return None;
    }
    var arc := TwoPi / |participants| as real;
    var extraRot := Spins as real * TwoPi;
    var randomOffset := (r - 0.5) * (arc * 0.8);
    var targetRotation := -(targetIndex as real * arc + arc / 2.0) + randomOffset;
    assert targetRotation == TargetRotation(targetIndex, |participants|, r);
    var final := targetRotation;
    ghost var turns: nat := 0;
    while final < currentRotation + extraRot
      invariant final == targetRotation + turns as real * TwoPi
      invariant Turns(targetRotation, currentRotation + extraRot) ==
                turns + Turns(final, currentRotation + extraRot)
      decreases currentRotation + extraRot - final
    {
      final := final + TwoPi;
      turns := turns + 1;
    }
    FinalRotationLands(targetIndex, |participants|, r, currentRotation);
    finalRotation := Some(final);
  }
}
