/** The reveal session: whose turn it is, the spin in flight, and the end of
    the game.  The source keeps this state in the variables `currentPairs`,
    `wheelTurnIndex`, `isSpinning` and `currentRotation`, and in which click
    handler the spin button carries; `WheelSession` holds the same state as
    fields.  The pure functions first define each transition on a value of
    the state, and the lemmas about them state what a whole session does. */
module TurnEngine {
  import opened Common
  import opened Derangement
  import opened Matching
  import opened Landing

  /** The mode of the spin button and of the session:
      - `Idle`: no pairs (before the first start and after a reset);
      - `AwaitSpin`: the button shows "SPIN!" and calls `handleSpin`;
      - `Spinning`: the button is disabled while the wheel turns;
      - `Revealed`: the receiver is shown and the button calls `advance`;
      - `Over`: every gift is assigned and the button is hidden. */
  datatype Phase = Idle | AwaitSpin | Spinning | Revealed | Over

  /** The session variables as a value. */
  datatype TurnState<T> = TurnState(pairs: Option<seq<Pair<T>>>, turnIndex: int, spinning: bool, phase: Phase)

  /** What `setupTurn` shows: the end of the game, or whose turn it is. */
  datatype Turn<T> = GameOver | NextGiver(giver: T)

  /** What `startWheelMode` reports: the two alerts, or the first turn. */
  datatype StartOutcome<T> = TooFewParticipants | NoValidPairs | Started(first: Turn<T>)

  // ---------------------------------------------------------------------
  // The transitions, on values

  /** `validateParticipants`: a session needs at least two names. */
  predicate ValidateParticipants<T>(participants: seq<T>) {
    2 <= |participants|
  }

  /** `setupTurn`'s effect: game over once the cursor has passed the last
      pair, otherwise wait for a spin. */
  function Setup<T>(s: TurnState<T>): TurnState<T>
    requires s.pairs.Some?
  {
    if s.turnIndex >= |s.pairs.value| then s.(phase := Over) else s.(phase := AwaitSpin)
  }

  /** `setupTurn`'s display. */
  function Shown<T>(s: TurnState<T>): Turn<T>
    requires s.pairs.Some? && 0 <= s.turnIndex
  {
    if s.turnIndex >= |s.pairs.value| then GameOver else NextGiver(s.pairs.value[s.turnIndex].giver)
  }

  /** `startWheelMode`: nothing changes unless there are two names and the
      matches were found; then the pairs are installed with the cursor at 0. */
  function Start<T>(s: TurnState<T>, participants: seq<T>, matches: Option<seq<Pair<T>>>): TurnState<T> {
    if !ValidateParticipants(participants) || matches.None? then s
    else Setup(s.(pairs := matches, turnIndex := 0))
  }

  /** `handleSpin`: ignored while a spin is in flight. */
  function Spin<T>(s: TurnState<T>): TurnState<T> {
    if s.spinning then s else s.(spinning := true, phase := Spinning)
  }

  /** The spin's completion callback: the cursor moves on by one and the
      receiver is shown. */
  function Complete<T>(s: TurnState<T>): TurnState<T> {
    s.(spinning := false, turnIndex := s.turnIndex + 1, phase := Revealed)
  }

  /** `resetMatches`. */
  function Reset<T>(s: TurnState<T>): TurnState<T> {
    s.(pairs := None, turnIndex := 0, phase := Idle)
  }

  /** The session invariant for a roster without duplicates. */
  predicate Inv<T(==)>(participants: seq<T>, s: TurnState<T>) {
    && (s.pairs.None? <==> s.phase == Idle)
    && (s.phase == Idle ==> s.turnIndex == 0)
    && (s.pairs.Some? ==>
          IsAssignment(participants, s.pairs.value) && 0 <= s.turnIndex <= |participants|)
    && (s.spinning <==> s.phase == Spinning)
    && (s.phase == AwaitSpin || s.phase == Spinning ==> s.turnIndex < |participants|)
    && (s.phase == Revealed ==> 1 <= s.turnIndex)
    && (s.phase == Over ==> s.turnIndex == |participants|)
  }

  /** One full turn: spin, the spin completes, advance. */
  function Round<T>(s: TurnState<T>): TurnState<T>
    requires s.pairs.Some?
  {
    Setup(Complete(Spin(s)))
  }

  /** `k` full turns. */
  function Play<T>(s: TurnState<T>, k: nat): (t: TurnState<T>)
    requires s.pairs.Some?
    ensures t.pairs == s.pairs && t.turnIndex == s.turnIndex + k
    decreases k
  {
    if k == 0 then s else Play(Round(s), k - 1)
  }

  /** The receivers the wheel lands on during `k` full turns. */
  function Reveals<T>(s: TurnState<T>, k: nat): seq<T>
    requires s.pairs.Some? && 0 <= s.turnIndex && s.turnIndex + k <= |s.pairs.value|
    decreases k
  {
    if k == 0 then [] else [s.pairs.value[s.turnIndex].receiver] + Reveals(Round(s), k - 1)
  }

  // ---------------------------------------------------------------------
  // Properties of the transitions

  /** `startWheelMode` does nothing when `validateParticipants` refuses the
      roster or no matches were found; otherwise it installs the matches with
      the cursor at 0 and offers the first giver. */
  lemma StartNeedsTwoNames<T>(participants: seq<T>, s: TurnState<T>, matches: Option<seq<Pair<T>>>)
    requires matches.Some? ==> IsAssignment(participants, matches.value)
    ensures !ValidateParticipants(participants) || matches.None? ==>
              Start(s, participants, matches) == s
    ensures ValidateParticipants(participants) && matches.Some? ==>
              var t := Start(s, participants, matches);
              && t.pairs == matches && t.turnIndex == 0 && t.phase == AwaitSpin
              && Shown(t) == NextGiver(participants[0])
  {
  }

  /** Every transition keeps the invariant, from the phases in which the
      source can perform it. */
  lemma TransitionsKeepInv<T>(participants: seq<T>, s: TurnState<T>, matches: Option<seq<Pair<T>>>)
    requires Inv(participants, s)
    requires matches.Some? ==> IsAssignment(participants, matches.value)
    ensures s.phase in {Idle, AwaitSpin, Over} ==> Inv(participants, Start(s, participants, matches))
    ensures s.phase in {AwaitSpin, Spinning} ==> Inv(participants, Spin(s))
    ensures s.phase == Spinning ==> Inv(participants, Complete(s))
    ensures s.phase == Revealed ==> Inv(participants, Setup(s))
    ensures s.phase in {Idle, AwaitSpin, Over} ==> Inv(participants, Reset(s))
  {
  }

  /** Full turns from a state waiting for a spin visit the cursor values in
      order, one at a time, reveal the receivers in turn order, and end the
      game exactly when the cursor reaches the number of pairs. */
  lemma {:induction false} PlayVisitsInOrder<T>(participants: seq<T>, s: TurnState<T>, k: nat)
    requires Inv(participants, s) && s.phase == AwaitSpin
    requires s.turnIndex + k <= |participants|
    ensures Inv(participants, Play(s, k))
    ensures Play(s, k).phase == (if 0 < k && s.turnIndex + k == |participants| then Over else AwaitSpin)
    ensures Reveals(s, k) == Receivers(s.pairs.value)[s.turnIndex..s.turnIndex + k]
    decreases k
  {
    if k > 0 {
      var next := Round(s);
      assert next.turnIndex == s.turnIndex + 1 && next.pairs == s.pairs;
      if k > 1 {
        PlayVisitsInOrder(participants, next, k - 1);
        var rs := Receivers(s.pairs.value);
        assert rs[s.turnIndex..s.turnIndex + k] ==
               [rs[s.turnIndex]] + rs[s.turnIndex + 1..s.turnIndex + k];
      }
    }
  }

  /** A session started on a roster of distinct names runs through every
      pair one full turn at a time: before turn `k` the cursor is `k`, a spin
      is awaited and giver `k` is offered; after the last turn the game is
      over. */
  lemma SessionVisitsEveryTurn<T>(participants: seq<T>, s0: TurnState<T>, m: seq<Pair<T>>)
    requires ValidateParticipants(participants) && IsAssignment(participants, m)
    requires Inv(participants, s0) && s0.phase in {Idle, AwaitSpin, Over}
    ensures var s := Start(s0, participants, Some(m));
      && s.phase == AwaitSpin && s.turnIndex == 0
      && (forall k :: 0 <= k < |participants| ==>
            Play(s, k).phase == AwaitSpin && Shown(Play(s, k)) == NextGiver(participants[k]))
      && Play(s, |participants|).phase == Over
      && Shown(Play(s, |participants|)) == GameOver
  {
    var s := Start(s0, participants, Some(m));
    forall k | 0 <= k < |participants|
      ensures Play(s, k).phase == AwaitSpin && Shown(Play(s, k)) == NextGiver(participants[k])
    {
      PlayVisitsInOrder(participants, s, k);
    }
    PlayVisitsInOrder(participants, s, |participants|);
  }

  /** Over a whole session on a roster of distinct names the wheel lands on
      every participant exactly once, and never on the giver whose turn it
      is. */
  lemma SessionRevealsEveryoneOnce<T>(participants: seq<T>, s0: TurnState<T>, m: seq<Pair<T>>)
    requires Distinct(participants) && ValidateParticipants(participants)
    requires IsAssignment(participants, m)
    requires Inv(participants, s0) && s0.phase in {Idle, AwaitSpin, Over}
    ensures var s := Start(s0, participants, Some(m));
      && IsDerangement(participants, Reveals(s, |participants|))
      && Distinct(Reveals(s, |participants|))
  {
    var s := Start(s0, participants, Some(m));
    PlayVisitsInOrder(participants, s, |participants|);
    var rs := Receivers(m);
    assert rs[0..|participants|] == rs;
    PermutationKeepsDistinct(participants, rs);
  }

  // ---------------------------------------------------------------------
  // The session object

  class WheelSession<T(==)> {
    /** The roster, in giver order and wheel-segment order. */
    const participants: seq<T>
    var currentPairs: Option<seq<Pair<T>>>
    var wheelTurnIndex: int
    var isSpinning: bool
    /** The spin button's mode (see `Phase`). */
    var phase: Phase
    /** The wheel's cumulative rotation, kept across turns. */
    var currentRotation: real
    /** The rotation the spin in flight will come to rest at. */
    var landing: Option<real>

    function State(): TurnState<T>
      reads this
    {
      TurnState(currentPairs, wheelTurnIndex, isSpinning, phase)
    }

    ghost predicate Valid()
      reads this
    {
      Distinct(participants) && Inv(participants, State()) && (phase == Spinning <==> landing.Some?)
    }

    /** A fresh page: no pairs, cursor 0, wheel at rotation 0. */
    constructor (roster: seq<T>)
      requires Distinct(roster)
      ensures Valid() && participants == roster
      ensures State() == TurnState(None, 0, false, Idle)
      ensures currentRotation == 0.0 && landing == None
    {
      participants := roster;
      currentPairs := None;
      wheelTurnIndex := 0;
      isSpinning := false;
      phase := Idle;
      currentRotation := 0.0;
      landing := None;
    }

    /** `setupTurn` (source lines 108-123). */
    method SetupTurn() returns (turn: Turn<T>)
      requires Distinct(participants) && currentPairs.Some?
      requires IsAssignment(participants, currentPairs.value)
      requires 0 <= wheelTurnIndex <= |participants| && !isSpinning && landing.None?
      modifies this`phase
      ensures Valid()
      ensures State() == Setup(old(State())) && turn == Shown(old(State()))
    {
      if wheelTurnIndex >= |currentPairs.value| {
        phase := Over;
        return GameOver;
      }
      turn := NextGiver(currentPairs.value[wheelTurnIndex].giver);
      phase := AwaitSpin;
    }

    /** `startWheelMode` (source lines 94-106), with `validateParticipants`
        (lines 171-177) and `generateMatches` (lines 179-191). */
    method StartWheelMode(rolls: seq<seq<nat>>) returns (outcome: StartOutcome<T>)
      requires Valid() && phase in {Idle, AwaitSpin, Over}
      requires MaxAttempts <= |rolls| && Rolls(rolls, |participants|)
      modifies this
      ensures Valid()
      ensures State() == Start(old(State()), participants, Matches(participants, rolls))
      ensures outcome ==
                if !ValidateParticipants(participants) then TooFewParticipants
                else if Matches(participants, rolls).None? then NoValidPairs
                else Started(NextGiver(participants[0]))
      ensures currentRotation == old(currentRotation) && landing == old(landing)
    {
      if !ValidateParticipants(participants) {
        return TooFewParticipants;
      }
      var matches := GenerateMatches(participants, rolls);
      if matches.None? {
        return NoValidPairs;
      }
      currentPairs := matches;
      wheelTurnIndex := 0;
      var turn := SetupTurn();
      outcome := Started(turn);
    }

    /** `handleSpin` (source lines 125-131): ignored while spinning;
        otherwise the current receiver becomes the wheel's target, and the
        rotation the wheel will stop at is fixed, `r` standing for the
        jitter draw. */
    method HandleSpin(r: real) returns (target: Option<T>)
      requires Valid() && phase in {AwaitSpin, Spinning} && 0.0 <= r < 1.0
      modifies this
      ensures Valid()
      ensures State() == Spin(old(State())) && currentRotation == old(currentRotation)
      ensures old(isSpinning) ==> target == None && landing == old(landing)
      ensures !old(isSpinning) ==>
                && target == Some(old(currentPairs).value[old(wheelTurnIndex)].receiver)
                && target.value in participants
                && landing == Some(FinalRotation(IndexOf(participants, target.value),
                                                 |participants|, r, currentRotation))
    {
      if isSpinning {
        return None;
      }
      isSpinning := true;
      phase := Spinning;
      var currentTarget := currentPairs.value[wheelTurnIndex].receiver;
      ReceiversAreRoster(participants, currentPairs.value);
      landing := SpinWheelToTarget(participants, currentTarget, currentRotation, r);
      target := Some(currentTarget);
    }

    /** The end of the spin animation and its callback (source lines 131-145
        and 362-366): the wheel rests at the landing rotation, the receiver
        is revealed and the cursor moves on by exactly one. */
    method CompleteSpin() returns (revealed: T)
      requires Valid() && phase == Spinning
      modifies this
      ensures Valid()
      ensures State() == Complete(old(State()))
      ensures revealed == old(currentPairs).value[old(wheelTurnIndex)].receiver
      ensures currentRotation == old(landing).value && landing == None
    {
      currentRotation := landing.value;
      landing := None;
      isSpinning := false;
      revealed := currentPairs.value[wheelTurnIndex].receiver;
      wheelTurnIndex := wheelTurnIndex + 1;
      phase := Revealed;
    }

    /** `advance` (source lines 156-161): set up the next turn, or end the
        game when the cursor has passed the last pair. */
    method Advance() returns (turn: Turn<T>)
      requires Valid() && phase == Revealed
      modifies this
      ensures Valid()
      ensures State() == Setup(old(State())) && turn == Shown(old(State()))
      ensures currentRotation == old(currentRotation) && landing == old(landing)
    {
      turn := SetupTurn();
    }

    /** `resetMatches` (source lines 238-243). */
    method ResetMatches()
      requires Valid() && phase in {Idle, AwaitSpin, Over}
      modifies this
      ensures Valid()
      ensures State() == Reset(old(State()))
      ensures currentRotation == old(currentRotation) && landing == old(landing)
    {
      wheelTurnIndex := 0;
      currentPairs := None;
      phase := Idle;
    }
  }
}
