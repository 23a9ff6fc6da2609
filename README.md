# Secret Santa matching and reveal engine, in Dafny

This project models the core of a browser Secret Santa page (`script.js`)
and proves properties of the model. The core has three parts.

1. **Derangement generator** (`shuffleAndDerange`). Each attempt makes a
   Fisher–Yates shuffle of a copy of the roster. An attempt is accepted when
   no name is left in its own position. There are at most 100 attempts; if
   every one fails, the result is `null`.
2. **Match builder** (`generateMatches`, `validateParticipants`,
   `startWheelMode`). The roster, in order, is zipped with its derangement
   into giver/receiver pairs. A session starts only with at least two names
   and a successful shuffle.
3. **Turn engine** (`setupTurn`, `handleSpin` and its completion callback,
   `advance`, `resetMatches`, and the landing rule of `spinWheelToTarget`).
   One giver at a time spins the wheel. The wheel lands on that giver's
   receiver, the cursor moves on by one, and the game ends after the last
   pair.

Files:

- `common.dfy`: `Option` (the source's `null`), rosters without duplicates,
  `indexOf`.
- `derangement.dfy`: the shuffle and the retry loop. The shuffle works in
  place on an `array`, like the source, and is specified by the function
  `Derange` on sequences.
- `matching.dfy`: pairs, `generateMatches`, and the one-to-one property.
- `landing.dfy`: the landing rotation, over `real`.
- `turns.dfy`: the session transitions as pure functions on a `TurnState`
  value, lemmas about whole sessions, and the class `WheelSession`. The class
  holds the source's variables `currentPairs`, `wheelTurnIndex`,
  `isSpinning` and `currentRotation` as fields.

How randomness is modelled. `Math.random()` becomes input, and every
property holds for every choice:

- The shuffle takes one row of swap partners per attempt. The pass for
  position `i` may use any partner in `[0, i]`.
- `Pick` and `Picks` show that the source's `floor(Math.random() * (i + 1))`
  always yields such a partner.
- The jitter draw is a parameter `r` in `[0, 1)`.

The spin button's modes are explicit phases: `Idle`, `AwaitSpin`,
`Spinning`, `Revealed`, `Over`. The source completes a spin asynchronously,
so `handleSpin` is split into `HandleSpin`, which starts the spin, and
`CompleteSpin`, which is the end of the animation and its callback.

On these points the model follows what `script.js` does:

- The cursor goes up when a spin completes (`script.js:145`), not on advance.
- `shuffleAndDerange` does not reject short rosters. For `[]` it returns
  `[]`, and for one name it returns `null` after 100 attempts. Only
  `validateParticipants` keeps them out of a session.
- The jitter lies in the half-open range `[-0.4·arc, 0.4·arc)`.

## Model

| member | source | states |
|---|---|---|
| `Common.IndexOf` | script.js:301 | the result is -1 exactly when the name is absent; otherwise it is the first position holding the name |
| `Derangement.Pick` | script.js:201 | `floor(draw * (i + 1))` lies in `[0, i]` for every draw in `[0, 1)`, and is 0 exactly when `draw * (i + 1) < 1` |
| `Derangement.Picks` | script.js:200-201 | the partners drawn for positions `i` down to 1 form a valid row: pass `t` gets a partner in `[0, i - t]` |
| `Derangement.Swap` | script.js:202 | the destructuring swap keeps the length, exchanges the two elements and leaves every other position as it was |
| `Derangement.SwapPermutes` | script.js:202 | a swap keeps the multiset |
| `Derangement.ShufflePermutes` | script.js:199-203 | `ShuffleFrom`, the Fisher–Yates `for` loop written as recursion over the passes: a shuffle attempt changes the copy only by swaps, so it keeps the length and the multiset of the roster |
| `Derangement.ShuffleInPlace` | script.js:200-203 | the in-place loop over the array leaves exactly the specified shuffle of the old contents |
| `Derangement.CheckNoFixedPoint` | script.js:204-210 | `valid` is true exactly when no position still holds its original name |
| `Derangement.TryOnce` | script.js:199-210 | one loop body: the copy's shuffle and whether it has no fixed point |
| `Derangement.Derange` | script.js:198-213 | a non-null result is a derangement of the roster: same length, same multiset, no fixed point |
| `Derangement.Attempt` | script.js:199-203 | one shuffle attempt on a copy keeps the roster's length and its multiset of names |
| `Derangement.DerangeNoneIff` | script.js:194-213 | the result is `null` exactly when every one of the attempts left a fixed point |
| `Derangement.DerangeFirstSuccess` | script.js:194-212 | a non-null result is the shuffle of some attempt that left no fixed point, and every earlier attempt left one |
| `Derangement.SingleNameFails` | script.js:204-213 | a one-name roster always gives `null` |
| `Derangement.TwoNamesSwap` | script.js:204-213 | for two distinct names the only possible answer is the swapped pair |
| `Derangement.TwoNamesFirstDraw` | script.js:200-213 | for two names, an attempt whose partner is 0 (a draw below 1/2) succeeds at once |
| `Derangement.EmptyRosterSucceeds` | script.js:204-213 | the empty roster gives the empty list, not `null` |
| `Derangement.ShuffleAndDerange` | script.js:193-214 | the loop with its counter of 100 returns the specified result, and a non-null result is a derangement |
| `Matching.ZipIsAssignment` | script.js:187-190 | `Zip`, the `map` over the roster: zipping the roster with a derangement gives the roster as givers, in order, and the derangement as receivers |
| `Matching.Matches` | script.js:179-191 | `null` exactly when the shuffle failed; otherwise an assignment of the roster |
| `Matching.GenerateMatches` | script.js:179-191 | the method returns `null` iff the shuffle failed; otherwise the pairs `(participants[i], shuffled[i])` |
| `Matching.ReceiversAreRoster` | script.js:187-190 | every receiver is on the roster, and every name on the roster receives |
| `Matching.ReceiversDistinct` | script.js:55 | when names are unique (as `addName` ensures), no two pairs share a receiver |
| `Matching.GiversAreRoster` | script.js:187-189 | the givers are the roster without repeats, and nobody is their own receiver |
| `Matching.AssignmentIsOneToOne` | script.js:179-191 | with unique names, everyone gives exactly once and receives exactly once, and never gives to themself |
| `Landing.Arc` | script.js:304 | a segment is a positive angle, and `n` segments make one full turn |
| `Landing.Jitter` | script.js:326 | the jitter lies in `[-0.4·arc, 0.4·arc)` |
| `Landing.TargetRotation` | script.js:342 | the target rotation puts the wheel between 0.1 and 0.9 of segment `k` back from the pointer: the centre of the segment, moved by at most 0.4 of a segment |
| `Landing.Turns` | script.js:349-353 | the loop adds the fewest whole turns that reach the bound: enough turns, and one fewer would fall short |
| `Landing.FinalRotationLands` | script.js:342-353 | `FinalRotation`, the result of the loop that adds full turns: the final rotation is at least 5 full turns past the current one, and differs from the target by a whole number of turns, the fewest possible. The target segment's centre stops within 0.4·arc of the pointer, so the pointer lies inside that segment |
| `Landing.SpinWheelToTarget` | script.js:300-353 | no landing (and so no callback) exactly when the target is not on the roster; otherwise the landing rotation for the target's index |
| `TurnEngine.StartNeedsTwoNames` | script.js:94-106 | `Start`, the effect of `startWheelMode` on the session: when `ValidateParticipants` (`validateParticipants`, script.js:171-177: at least 2 names) fails or no matches were found, starting changes nothing. Otherwise the matches are installed, the cursor is 0 and the first name on the roster is offered as giver |
| `TurnEngine.TransitionsKeepInv` | script.js:94-161 | starting, spinning, completing, advancing and resetting each keep the session invariant. The cursor stays within `0..N`, spinning holds exactly in the `Spinning` phase, and game over holds only at cursor `N` (that it holds exactly there after full turns is `PlayVisitsInOrder`). `Start`, `Spin`, `Complete`, `Setup` and `Reset` are the transitions of script.js:94-106, 125-130, 131-145, 108-123 and 238-243 |
| `TurnEngine.Play` | script.js:125-161 | `k` full turns keep the pairs and move the cursor by exactly `k` |
| `TurnEngine.PlayVisitsInOrder` | script.js:108-161 | full turns visit the cursor values one at a time, in order. They reveal the receivers in turn order, and the game ends exactly when the cursor reaches `N` |
| `TurnEngine.SessionVisitsEveryTurn` | script.js:94-123 | after a successful start, turn `k` offers giver `k` for every `k < N`, and after `N` turns the game is over with the spin button hidden |
| `TurnEngine.SessionRevealsEveryoneOnce` | script.js:130-145 | over a whole session the wheel lands on every participant exactly once, never on the giver whose turn it is |
| `TurnEngine.WheelSession.constructor` | script.js:20-23 | the page starts with no pairs, cursor 0, not spinning, and rotation 0 |
| `TurnEngine.WheelSession.SetupTurn` | script.js:108-123 | the new state is `Setup` of the old one and the display is `Shown`: the game is over (button hidden) exactly when the cursor has passed the last pair; otherwise the current giver is offered |
| `TurnEngine.WheelSession.StartWheelMode` | script.js:94-106 | the new state is `Start` of the old one: with fewer than 2 names or a failed shuffle, nothing changes; otherwise the pairs are set, the cursor is 0 and the first giver is offered |
| `TurnEngine.WheelSession.HandleSpin` | script.js:125-131 | the new state is `Spin` of the old one: while spinning, nothing changes. Otherwise spinning starts, and the target is the current receiver, which is on the roster, so the wheel will call back. The landing rotation is fixed |
| `TurnEngine.WheelSession.CompleteSpin` | script.js:131-145 | the new state is `Complete` of the old one: spinning stops, the cursor increases by exactly 1, the current receiver is revealed, and the stored rotation becomes the landing rotation |
| `TurnEngine.WheelSession.Advance` | script.js:156-161 | the new state is `Setup` of the old one: runs `setupTurn`: game over exactly when the cursor is at or past the number of pairs |
| `TurnEngine.WheelSession.ResetMatches` | script.js:238-243 | the new state is `Reset` of the old one: the pairs are cleared and the cursor is 0; the wheel's rotation is kept |

## Left out

- Rendering is not modelled. This covers `drawWheel`, `renderParticipants`, `displayListMatches`, `escapeHtml`, `shakeInput`, the alerts and the modal class changes (script.js:72-92, 218-258, 266-298). It is DOM and canvas work with no checkable logic. The alerts become the `StartOutcome` values, and the drawn segment layout is stated by `Landing.UnderPointer`.
- Roster editing (`addName`, `removeName`, script.js:50-70) is input handling. The model takes its outcome, a roster without duplicates, as a precondition of `WheelSession`, and the roster is a constant.
- The animation frames (`animate`, script.js:355-378) are not modelled: `performance.now`, `requestAnimationFrame`, the ease-out quartic and the intermediate angles. They are floating point and frame scheduling. Only the end state is modelled: the rotation equals the landing rotation, followed by the callback.
- The 2000 ms `setTimeout` and the swap of click listeners (script.js:146-165) become the phase change from `Spinning` to `Revealed`, then `Advance`.
- The close-modal handler (script.js:43-46) is not modelled. It clears `isSpinning` while an animation may still be running, which is a race between callbacks.
- The random gift (script.js:135) is display-only and does not affect matching.
- The distribution of `Math.random()` is not modelled. The properties hold for every draw.
- Angles and the products `Math.random() * (i + 1)` in `Pick` are Dafny reals, not doubles: rounding is not modelled. A full turn is the decimal form of the double `2 * Math.PI`, not its exact value.
- TurnEngine.WheelSession.StartWheelMode: requires the `Idle`, `AwaitSpin` or `Over` phase. In the source the start control sits behind the open wheel, so it can be reached only after the modal is closed. Starting after a close during a spin or a reveal would mix a pending callback or a swapped listener into the new session, and that close is not modelled.
- TurnEngine.WheelSession.ResetMatches: requires the `Idle`, `AwaitSpin` or `Over` phase, for the same reason. A reset after the wheel was closed during a reveal leaves `advance` (script.js:156-160) as the button's listener. After the next start, the first click then runs `advance` and offers giver 0 again, not `handleSpin`; that left-over listener is not modelled.
- TurnEngine.WheelSession.HandleSpin: requires the `AwaitSpin` or `Spinning` phase. Only in those phases is `handleSpin` the visible button's listener.
- TurnEngine.WheelSession.Advance: requires the `Revealed` phase, the only phase in which `advance` is the button's listener.
- Derangement.ShuffleInPlace: for an empty copy the loop starts at 0 instead of the source's -1. The loop body runs for neither start.
