# Activation-economy combat tracker — a Dafny model

This project models the core of `lancer-initiative`'s combat extension
(`src/modules/lancer-combat.ts`). The extension replaces the host tabletop
engine's fixed turn order with a pool of activations per combatant:

- any combatant with activations left may act;
- a GM activates a combatant, which spends one activation and moves the
  turn pointer to that combatant;
- a player who is not a GM only raises an activation request;
- a hidden sentinel ("dummy") combatant always sorts first, so turn pointer
  0 means that nobody is acting.

Modules:

- `Wrappers` (`wrappers.dfy`): `Option`, the model of a property that may be
  `undefined`; `GetOr` is `??`.
- `Ledger` (`ledger.dfy`): the activation ledger `{max?, value?}`. It holds the
  arithmetic of `addActivations` and `modifyCurrentActivations` (with
  `Math.clamped`) and the ledger invariant `Consistent`, which both mutators keep.
- `Combatants` (`combatant.dfy`): the combatant record and the getters of
  `LancerCombatant`: `disposition`, `isVisible`, `testUserPermission`, the
  defeated test, `prepareBaseData`, the sentinel's shape, and one combatant's
  round reset.
- `TurnOrder` (`turn_order.dfy`): the comparator `_sortCombatants`, the turn
  sequence built with it, and `findIndex` by id.
- `LancerCombat` (`combat.dfy`): the class `Combat`, with mutable `round`,
  `turn` and `combatants`, and the `LancerCombat` operations as methods on it;
  plus `addMissingDummy` over a sequence of combats.
- `Scenarios` (`scenarios.dfy`): client methods. They show what a caller can
  conclude from the contracts alone, in typical tracker situations.

Host inputs are reduced to parameters:

- the user is a `User` with an `isGM` flag;
- actor ownership is the actor's `owners` set;
- the defeated status effect is a flag on the actor;
- `canvas.ready` is a boolean;
- the host's visibility is a boolean;
- the roll data is a map from property paths to numbers;
- `CONFIG.time.roundTime` is a parameter;
- the host's tie-break comparator is the combat's `tieBreak`;
- the host's own `startCombat`, `nextRound` and `resetAll` are a `HostStep`
  function from the combatants and the (round, turn) pair to a new pair.

`Hooks.callAll("LancerCombatRequestActivate", …)` becomes an append to the
ghost log `requests` of the combat. An `update` or `updateEmbeddedDocuments`
call is a direct field assignment. An absent `activations` flag reads as
`Unset` (`{}`), so the `activations` getter is the record field.

## Notes on the code

- `resetActivations` writes `0` (a skipped defeated combatant) or `max ?? 0`
  into every combatant, the sentinel included. The sentinel ends with 0
  because its `max` is 0.
- `addActivations` and `modifyCurrentActivations` read an unset `max` as 1.
  The reset reads it as 0.
- `activateCombatant` has no override flag. A non-GM call always becomes a
  request, and the only gate is `isGM`.
- `prepareBaseData` reads a roll-data path (`activation_path`) and has no
  branch for a numeric activation count, although `src/index.ts:62-67`
  declares the configuration option as `activations?: string | number`. An
  unset or empty path gives 1.
- The two ledger mutators and the reset keep `0 <= value <= max`.
  `prepareBaseData` can break it: it initialises `max` without looking at
  `value` (`Combatants.PrepareBaseDataConsistent` states exactly when it
  holds). A negative roll-data value gives a negative `max`; a later
  `modifyCurrentActivations` then stores that negative `max` as the value,
  since `Math.clamped` returns its upper bound when the range is empty.
- In the host a GM holds OWNER permission on every actor; the `owners` set of
  the model does not encode that. It makes no difference to the model,
  because every caller of `IsOwner` also accepts a GM.

## Model

| member | source | states |
|---|---|---|
| `Ledger.Clamp` | src/modules/lancer-combat.ts:220 | `Math.clamped` lands in `[lo, hi]` when the range is non-empty, returns `x` inside it, `lo` below it and `hi` above it, and `hi` when the range is empty |
| `Ledger.ModifyCurrent` | src/modules/lancer-combat.ts:215-223 | no-op for 0; otherwise `max` is kept and the value is `value ?? 0` plus `num`, clamped into `[0, max ?? 1]` (exact inside the range, 0 below it, the maximum above it, and a negative maximum itself) |
| `Ledger.AddActivations` | src/modules/lancer-combat.ts:200-209 | no-op for 0; otherwise both fields are written: `max` is `(max ?? 1) + num` floored at 1, `value` is `(value ?? 0) + num` floored at 0 |
| `Ledger.ModifyCurrentKeepsConsistent` | src/modules/lancer-combat.ts:215-223 | `modifyCurrentActivations` keeps `0 <= value <= max` |
| `Ledger.AddActivationsKeepsConsistent` | src/modules/lancer-combat.ts:200-209 | `addActivations` keeps `0 <= value <= max` |
| `Ledger.SpendOneLowersByOne` | src/modules/lancer-combat.ts:105-106 | on a consistent ledger with a truthy value, spending one activation lowers the value by exactly 1 |
| `Ledger.ModifyCurrentInverse` | src/modules/lancer-combat.ts:215-223 | `modifyCurrentActivations(n)` then `(-n)` restores the ledger when neither call clamps |
| `Ledger.AddActivationsInverse` | src/modules/lancer-combat.ts:200-209 | `addActivations(n)` then `(-n)` restores the ledger when neither floor applies |
| `Ledger.ClampIdempotent` | src/modules/lancer-combat.ts:220 | clamping twice into the same range is clamping once |
| `Combatants.NewDummy` | src/modules/lancer-combat.ts:25-31 | the sentinel is flagged `dummy`, hidden, has `max = 0` and no value, actor, token, disposition flag or defeat |
| `Combatants.Disposition` | src/modules/lancer-combat.ts:186-194 | the explicit flag wins; else 2 for a player-owned actor; else the token's disposition, else the actor's token disposition, else -2 |
| `Combatants.IsVisible` | src/modules/lancer-combat.ts:167-171 | a sentinel is never visible; anyone else is as visible as the host says |
| `Combatants.IsOwner` | src/modules/lancer-combat.ts:138-144 | OWNER permission comes from the actor; without an actor only a GM has it |
| `Combatants.RollDataLookup` | src/modules/lancer-combat.ts:156-159 | the lookup is defined exactly when there is an actor whose roll data has the path, and then gives that value |
| `Combatants.InitialMax` | src/modules/lancer-combat.ts:154-160 | an unset or empty path gives 1; otherwise the roll-data value, or 1 when it is missing |
| `Combatants.PrepareBaseData` | src/modules/lancer-combat.ts:147-164 | only an unset `max`, and only when the canvas is ready, becomes the derived count; `value` and all other fields are kept |
| `Combatants.PrepareBaseDataIdempotent` | src/modules/lancer-combat.ts:151 | preparing twice equals preparing once: `max` is initialised only the first time |
| `Combatants.PrepareBaseDataConsistent` | src/modules/lancer-combat.ts:151-162 | the initialisation keeps the ledger consistent if and only if the derived count is at least the current value |
| `Combatants.DummyShape` | src/modules/lancer-combat.ts:25-31 | a fresh sentinel ranks -2, only GMs own it, it is never visible, never defeated, and its ledger is consistent |
| `Combatants.ResetValue` | src/modules/lancer-combat.ts:43-55 | a skipped defeated combatant gets value 0, any other gets `max ?? 0`; `max` and every other field are kept |
| `Combatants.ResetValueProperties` | src/modules/lancer-combat.ts:43-55 | the reset leaves a ledger with a non-negative maximum consistent, is idempotent, and gives the sentinel `{max: 0, value: 0}` |
| `TurnOrder.CompareAgrees` | src/modules/lancer-combat.ts:8-16 | a sentinel `a` gives -1; a sentinel `b` with a non-sentinel `a` gives 1; different dispositions give `b - a` (negative exactly when `a` ranks higher); only two non-sentinels of equal disposition reach the host tie-break |
| `TurnOrder.InsertCorrect` | src/modules/lancer-combat.ts:8-16 | inserting with the comparator adds exactly one element and keeps the sequence in comparator order |
| `TurnOrder.SortTurnsCorrect` | src/modules/lancer-combat.ts:8-16 | the turn sequence is a permutation of the combatants, sentinels first and then disposition descending |
| `TurnOrder.SentinelFirst` | src/modules/lancer-combat.ts:10-14 | with a sentinel present it is at index 0 of the turns; with exactly one, no other index holds a sentinel and the rest come in non-increasing disposition |
| `TurnOrder.IndexOf` | src/modules/lancer-combat.ts:107 | `findIndex` gives the first position holding the id, or -1 exactly when no element has it |
| `LancerCombat.WithDummyCorrect` | src/modules/lancer-combat.ts:32-34 | appending the sentinel keeps the earlier combatants in order, adds exactly one hidden sentinel with `max = 0`, and keeps ids unique |
| `LancerCombat.BackfillCorrect` | src/modules/lancer-combat.ts:232-244 | a combat with no sentinel gains exactly one; a combat with one is untouched; a second pass adds nothing |
| `LancerCombat.ResetOutcome` | src/modules/lancer-combat.ts:41-57 | after a reset, a skipped defeated combatant has 0 and every other one has `max ?? 0` (so the sentinel has 0); maxima and ids are kept; consistency is kept |
| `LancerCombat.FoundInTurns` | src/modules/lancer-combat.ts:107 | every combatant's id is found in the turn sequence |
| `LancerCombat.Combat.Turns` | src/modules/lancer-combat.ts:8-16 | `turns` holds the same combatants, in comparator order |
| `LancerCombat.Combat.PointerZeroIsSentinel` | src/modules/lancer-combat.ts:10 | with a sentinel present, turn pointer 0 designates a sentinel |
| `LancerCombat.Combat.PreCreate` | src/modules/lancer-combat.ts:19-36 | the combatants become the old ones with one sentinel appended; round, turn and ids stay valid |
| `LancerCombat.Combat.ResetActivations` | src/modules/lancer-combat.ts:41-57 | every combatant is reset for the round, in place and in order; round and turn are unchanged |
| `LancerCombat.Combat.StartCombat` | src/modules/lancer-combat.ts:60-63 | reset, then the host's start transition applied to the reset combatants |
| `LancerCombat.Combat.NextRound` | src/modules/lancer-combat.ts:66-69 | reset, then the host's round advance |
| `LancerCombat.Combat.ResetAll` | src/modules/lancer-combat.ts:90-93 | reset, then the host's full reset |
| `LancerCombat.Combat.NextTurn` | src/modules/lancer-combat.ts:75-77 | the pointer becomes 0 and nothing else changes |
| `LancerCombat.Combat.PreviousRound` | src/modules/lancer-combat.ts:80-87 | reset; the round becomes `max(round - 1, 0)`, turn 0; the time adjustment is minus one round's duration exactly when the new round is positive, else 0 |
| `LancerCombat.Combat.ModifyCurrentActivations` | src/modules/lancer-combat.ts:215-223 | only the given combatant's ledger changes, as `ModifyCurrent` says |
| `LancerCombat.Combat.AddActivations` | src/modules/lancer-combat.ts:200-209 | only the given combatant's ledger changes, as `Ledger.AddActivations` says |
| `LancerCombat.Combat.RequestActivation` | src/modules/lancer-combat.ts:126-129 | one request for the id is logged; round, turn and combatants are unchanged |
| `LancerCombat.Combat.ActivateCombatant` | src/modules/lancer-combat.ts:100-109 | a non-GM changes nothing and logs one request; for a GM, a missing combatant or a 0/unset value changes nothing; otherwise only that combatant spends one activation and the pointer moves to its position in `turns` |
| `LancerCombat.Combat.DeactivateCombatant` | src/modules/lancer-combat.ts:116-121 | the pointer returns to 0 exactly when the id is at the current turn and the user owns it or is a GM; otherwise nothing changes; activations are never restored |
| `LancerCombat.AddMissingDummy` | src/modules/lancer-combat.ts:229-246 | a non-GM changes nothing; for a GM every combat is backfilled (exactly one sentinel added where none was); rounds, turns and requests are unchanged |

## Left out

- `setAppearance` in `src/index.ts`: it writes CSS custom properties and re-renders the UI. `src/global.d.ts` holds only type declarations.
- The host's own `startCombat`, `nextRound`, `resetAll` and `_sortCombatants`: they are uninterpreted (`HostStep`, `tieBreak`). Any time advance the host applies in them is not modelled.
- The host's sort: the turn sequence is a stable insertion sort with the comparator. The engine's real sort may order host-tied combatants differently. Every proved property is about the order the comparator fixes regardless of ties.
- Document persistence and sync, async sequencing, and races between two GMs activating at once: every update is an immediate field assignment.
- The `Hooks.callAll` broadcast and whoever listens to it: a request only becomes an entry in the ghost `requests` log.
- `console.log` in `addMissingDummy` (src/modules/lancer-combat.ts:237): logging is not modelled, and the model assumes the line does not throw. It interpolates `module`, which that function never declares; in an ES-module build that is a ReferenceError, which would stop the backfill at the first combat without a sentinel.
- Host-generated document ids: `FreshId` picks an id longer than every existing one instead of a random one.
- `LancerCombat.Combat.DeactivateCombatant`: `turn` is a `nat`, so the crash the source would hit when the pointer is -1 and the id is absent (reading `turns[-1]`) cannot happen in the model. The host only sets -1 when there are no combatants, so a combat that holds its sentinel never reaches it; a combat with no combatants at all (one from before the migration, or whose sentinel was deleted) could, and the model does not capture that crash.
- `LancerCombat.Combat.ModifyCurrentActivations`, `LancerCombat.Combat.AddActivations`: the combatant is addressed by its position in `combatants`, not by an object reference.
- `LancerCombat.AddMissingDummy`: the combats must be distinct objects, as they are in the host's collection keyed by id.
- The `activations` getter: an absent flag is the value `Unset`, so the getter is the record field and has no member of its own.
