# rabbitholesim core, modelled in Dafny

rabbitholesim is a browser text life simulator. A player store holds the
character: numeric stats, worldview stats, multipliers, status effects,
inventory, the events already triggered and unlocked, and a capped log,
newest entry first. Each turn the character ages, debt and status effects
are settled, and the death checks run. Then an event is drawn by weighted
roulette among the eligible events, and one of its choices is resolved,
either automatically or by the player. Texts pass through a template parser
that handles conditional, random, variable and escape syntax. Conditions
are judged by three evaluators, and a tag-conflict table gates choices. A
data center merges the base game files with the enabled DLC packs. A DLC
store keeps, imports, removes and toggles packs. An achievement store keeps
the unlocked achievement ids.

One Dafny module models each core source file:

| module | file | models |
|---|---|---|
| `PlayerStore` | playerstore.dfy | `src/stores/playerStore.js`: `class Player` with one field per store field. `View()` packs the fields into the value `PlayerState`. Every action is specified by a function on that value. |
| `EventCenter` | eventcenter.dfy | `src/composables/eventCenter.js`: the condition evaluator, `findEventById`, `findTriggerableEvent`, `makeChoice`, `processEvent` and `getManualChoices` |
| `EventEngine` | eventengine.dfy | `src/composables/useEventEngine.js`: the older, reduced engine |
| `UseConditionChecker` | useconditionchecker.dfy | `src/composables/useConditionChecker.js` |
| `ConditionChecker` | conditionchecker.dfy | `src/utils/conditionChecker.js` |
| `TagUtils` | tagutils.dfy | `src/utils/tagUtils.js` |
| `TextParser` | textparser.dfy | `src/utils/textParser.js` |
| `InteractiveGame` | interactivegame.dfy | `src/composables/useInteractiveGame.js`: `class Game` over a `Player` |
| `DataCenter` | datacenter.dfy | `src/composables/dataCenter.js`: `class Center` |
| `DlcStore` | dlcstore.dfy | `src/stores/dlcStore.js`: `class Store` |
| `AchievementStore` | achievementstore.dfy | `src/stores/achievementStore.js`: `class Store` |

The three helper modules come from no single source file:

- `Common` models the JavaScript built-ins the core relies on: `Math.round`, `Math.floor(Math.random() * n)`, `trim`, `split`/`join`, `Number(...)`, `String(n)`, `toFixed(1)` and `filter`.
- `Content` holds the authored records: conditions, outcomes, choices, events, talents, DLC packs and achievements.
- `Selection` holds the weighted-roulette loop that the source writes out five times (`randomTarget -= w[i]; if (randomTarget <= 0)`).

All randomness comes in as parameters:

- A `Math.random()` result is a `Unit`, a real in [0, 1).
- A sequence of calls is a stream `nat -> Unit`.
- The random-comparator sort in the interactive game is a `Shuffle` function. The ghost predicate `IsShuffle` requires it to return a permutation.

Results of the databases and the file system also come in as parameters:

- `stored` is what `getAllDlcs()` returns.
- `written(k)` says whether the k-th database write succeeded.
- `deleted` says whether the delete succeeded.
- `files` is the list of base data files.

## Model

| member | source | states |
|---|---|---|
| `PlayerStore.InitialState` | src/stores/playerStore.js:3-28 | a fresh store is well formed, alive and has an empty log |
| `PlayerStore.Player.constructor` | src/stores/playerStore.js:30-31 | the store starts as the fresh state |
| `PlayerStore.DominantWorldviewIsLastMaximum` | src/stores/playerStore.js:35-43 | the getter returns a worldview holding the maximum of the four, and no later worldview in the order logic, gnosis, weirdness, irony holds as much (ties go to the later key, because the reduction uses `>`) |
| `PlayerStore.DominantFromIsLastMaximum` | src/stores/playerStore.js:42 | the `reduce` returns an element of the list holding its maximum, and every element after it is strictly smaller |
| `PlayerStore.PushLogBounded` | src/stores/playerStore.js:63-66 | after `addLog` the new entry is first, the log never exceeds 50 entries, and the older entries follow in order, the oldest dropped past the cap |
| `PlayerStore.Player.AddLog` | src/stores/playerStore.js:63-66 | the log becomes the pushed log and no other field changes |
| `PlayerStore.Player.Reset` | src/stores/playerStore.js:47-50 | the store becomes the reset state: the fresh fields are assigned, then the reset line is logged |
| `PlayerStore.ResetStats` | src/stores/playerStore.js:48 | after `Object.assign` every stat that `nextTurn` reads is present |
| `PlayerStore.ResetKeepsUninitialised` | src/stores/playerStore.js:48-49 | reset keeps the fields the fresh state does not list (tags, variables, talents, choices made, modifiers), leaves the player alive, and leaves exactly the reset line in the log |
| `PlayerStore.Player.AssignInitialStats` | src/stores/playerStore.js:5-17 | the numeric fields are overwritten by the fresh values, and numeric fields outside the fresh set survive |
| `PlayerStore.Player.ClearProgress` | src/stores/playerStore.js:5-27 | alive, with no multipliers, effects, items, triggered or unlocked events, and an empty log |
| `PlayerStore.Player.ClearEffects` | src/stores/playerStore.js:5-23 | alive, with no multipliers and no status effects, every other field unchanged |
| `PlayerStore.Player.ClearHistory` | src/stores/playerStore.js:24-27 | no items, triggered or unlocked events, and an empty log, every other field unchanged |
| `PlayerStore.ScaleMultiplier` | src/stores/playerStore.js:85-95 | `add_multiplier` sets the stat's multiplier to the old one (1 when unset or zero) times the factor, and leaves every other multiplier alone |
| `PlayerStore.ApplyOutcome` | src/stores/playerStore.js:70-103 | one directive keeps the set of stats and changes only stats, multipliers, inventory and unlocked events |
| `PlayerStore.ApplyAll` | src/stores/playerStore.js:68-105 | the directives applied in order keep the set of stats and change only those four fields |
| `PlayerStore.ApplyAllKeepsUntouched` | src/stores/playerStore.js:72-82 | a stat that no `change_stat` mentions keeps its value |
| `PlayerStore.MultiplierScalesLaterDelta` | src/stores/playerStore.js:76-93 | a multiplier of 1.5 added before a `change_stat` of +10 raises the stat by exactly 15 |
| `PlayerStore.MultipliersCompound` | src/stores/playerStore.js:89-93 | two `add_multiplier` on one stat, the first non-zero, multiply together |
| `PlayerStore.AddItemAppends` | src/stores/playerStore.js:97-99 | `add_item` appends the item, and a second call appends a duplicate |
| `PlayerStore.Player.ChangeStat` | src/stores/playerStore.js:72-82 | each stat the store has rises by the rounded product of its delta and its multiplier, and every other field is unchanged |
| `PlayerStore.Player.ApplyOne` | src/stores/playerStore.js:70-103 | the store becomes `ApplyOutcome` of its old state |
| `PlayerStore.Player.ApplyOutcomes` | src/stores/playerStore.js:68-105 | the store becomes `ApplyAll` of its old state |
| `PlayerStore.ApplyTalents` | src/stores/playerStore.js:56-60 | the talents' effects, applied in order, keep the set of stats and change only the outcome fields |
| `PlayerStore.InitializeWithTalentsLog` | src/stores/playerStore.js:52-61 | a new life starts alive with exactly two log lines: the talent line above the reset line |
| `PlayerStore.Player.InitializeWithTalents` | src/stores/playerStore.js:52-61 | the store becomes the reset state, plus the talent line, plus every talent's effects |
| `PlayerStore.Aged` | src/stores/playerStore.js:109-114 | the clock step changes only stat values, and keeps the set of stats |
| `PlayerStore.Player.AgeOneTurn` | src/stores/playerStore.js:109-114 | the store becomes the aged state |
| `PlayerStore.DebtStep` | src/stores/playerStore.js:116-127 | the debt step changes only the status effects and the log |
| `PlayerStore.Player.SettleDebt` | src/stores/playerStore.js:116-127 | the store becomes the debt-step state |
| `PlayerStore.TickStep` | src/stores/playerStore.js:132-138 | one pass of the effect loop lowers exactly effect i's duration by one and keeps the stats' keys, the log and `isAlive` |
| `PlayerStore.TickFrom` | src/stores/playerStore.js:132-138 | the loop from i on keeps the set of stats, the log, `isAlive` and the number of effects |
| `PlayerStore.TickFromDurations` | src/stores/playerStore.js:132-138 | the loop from i on keeps the effects before i and lowers every later duration by exactly one |
| `PlayerStore.Tick` | src/stores/playerStore.js:130-140 | the status-effect step keeps the set of stats, the log and `isAlive` |
| `PlayerStore.Player.TickStatusEffects` | src/stores/playerStore.js:130-140 | the store becomes the ticked state |
| `PlayerStore.Player.TickEach` | src/stores/playerStore.js:132-138 | the `forEach` leaves the store in the state the tick loop specifies from position 0 |
| `PlayerStore.Player.TickEffect` | src/stores/playerStore.js:133-137 | one effect applies its definition's outcomes, then loses one turn |
| `PlayerStore.EndGameState` | src/stores/playerStore.js:150-154 | `endGame` changes only `isAlive` and the log |
| `PlayerStore.EndGameOnce` | src/stores/playerStore.js:150-154 | after the first call the player is dead, and a second call changes nothing |
| `PlayerStore.Player.EndGame` | src/stores/playerStore.js:150-154 | the store becomes the end-game state |
| `PlayerStore.DeathChecks` | src/stores/playerStore.js:142-147 | the four death checks change only `isAlive` and the log |
| `PlayerStore.DeathChecksFacts` | src/stores/playerStore.js:142-147 | on a living player the checks leave the stats alone, end the game exactly on fatal stats, and log the first reason that holds |
| `PlayerStore.Player.CheckDeath` | src/stores/playerStore.js:142-147 | the store becomes the death-checked state |
| `PlayerStore.Player.NextTurn` | src/stores/playerStore.js:107-148 | the store becomes the next-turn state |
| `PlayerStore.NextTurnWhenDead` | src/stores/playerStore.js:108 | a dead player's state does not change |
| `PlayerStore.NextTurnDeath` | src/stores/playerStore.js:142-147 | a living player survives the turn exactly when no death check holds on the stats after the tick, and a death logs the first reason that holds (a debt death needs money below -20000) |
| `PlayerStore.NextTurnKeepsBookkeeping` | src/stores/playerStore.js:107-148 | a turn keeps the triggered events, the choices made and the tags, and keeps every stat `nextTurn` reads |
| `PlayerStore.NextTurnAdvancesClock` | src/stores/playerStore.js:109-110 | when no status effect touches turn or age, a living turn adds exactly 1 to the turn and 0.5 to the age |
| `PlayerStore.NextTurnEffectsActive` | src/stores/playerStore.js:137-139 | after a living turn every remaining effect has a positive duration |
| `PlayerStore.NextTurnEntersDebt` | src/stores/playerStore.js:118-120 | negative money without the debt effect adds it, and it has already lost its first turn (duration 9998) |
| `PlayerStore.NextTurnLeavesDebt` | src/stores/playerStore.js:123-125 | money at zero or above removes every debt effect |
| `EventCenter.StatCheckFalseCases` | src/composables/eventCenter.js:40-50 | a stat check fails on a missing stat or an unknown operator, and each of the five operators compares as written |
| `EventCenter.KindDefaults` | src/composables/eventCenter.js:51-96 | unknown types are met; a has/has_not check with neither key is not met; a `has` key decides even when `has_not` is also given; `has_not` alone is the negation |
| `EventCenter.VariableCheckCases` | src/composables/eventCenter.js:75-95 | a missing key is false; an absent variable gives `!exists` when `exists` is given and false otherwise; with no operator a present variable is met iff it is truthy; NaN fails every comparison but `!=` |
| `EventCenter.FindEventById` | src/composables/eventCenter.js:28-30 | the result is an event of the list with that id, and it is null exactly when no event has that id |
| `EventCenter.FindEventByIdFirst` | src/composables/eventCenter.js:29 | when several events share an id, the first one is found |
| `EventCenter.AvailableMembers` | src/composables/eventCenter.js:105-111 | the filter keeps exactly the eligible events |
| `EventCenter.AvailableNone` | src/composables/eventCenter.js:105-113 | with no eligible event the filter keeps nothing |
| `EventCenter.BaseWeight` | src/composables/eventCenter.js:116 | the base weight is at least 0.1; it is 1 for a missing priority and the priority itself from 0.1 on |
| `EventCenter.EventWeight` | src/composables/eventCenter.js:115-130 | an event's weight is never negative |
| `EventCenter.UnmodifiedWeight` | src/composables/eventCenter.js:116-129 | with no applicable tag or event modifier the weight is the base weight, so it is positive |
| `EventCenter.TagProductNeutral` | src/composables/eventCenter.js:117-123 | tags without a truthy modifier leave the weight unscaled |
| `EventCenter.ModifierProductNeutral` | src/composables/eventCenter.js:124-128 | modifiers naming other events leave the weight unscaled |
| `EventCenter.ZeroModifierSilences` | src/composables/eventCenter.js:124-129 | a modifier of zero for the event zeroes its weight |
| `EventCenter.Weights` | src/composables/eventCenter.js:115-132 | one weight per eligible event, none negative, so the total the roulette spins over is never negative |
| `EventCenter.ApplyTagModifiers` | src/composables/eventCenter.js:117-123 | the tag loop multiplies by the product of the truthy tag modifiers |
| `EventCenter.ApplyEventModifiers` | src/composables/eventCenter.js:124-128 | the modifier loop multiplies by the product of the multipliers naming the event |
| `EventCenter.ComputeWeight` | src/composables/eventCenter.js:115-130 | the `map` callback computes `EventWeight` |
| `EventCenter.ComputeWeights` | src/composables/eventCenter.js:115-130 | the `map` computes `Weights` |
| `EventCenter.FindTriggerableEvent` | src/composables/eventCenter.js:104-142 | the method returns the event the specification function picks for the draw |
| `EventCenter.TriggerableEventEligible` | src/composables/eventCenter.js:105-111 | the event found is one of the events and passes every check: not meta, not a hidden test event, not a spent unique event, not locked, conditions met |
| `EventCenter.TriggerableEventRoulette` | src/composables/eventCenter.js:113-141 | nothing is found exactly when no event is eligible or the total weight is 0; otherwise the event is the first eligible one whose running weight reaches `r * total`, and the fallback line is dead |
| `EventCenter.ValidChoicesMembers` | src/composables/eventCenter.js:150-154 | the choice filter keeps exactly the choices whose conditions hold and that add no conflicting tag |
| `EventCenter.ChoiceScore` | src/composables/eventCenter.js:156-160 | a score is at least 0.1 and at least tendency plus 40 times the impulse |
| `EventCenter.Scores` | src/composables/eventCenter.js:156-160 | one score per valid choice, each at least 0.1 and at least its tendency plus forty times its impulse, so a non-empty list has a positive total |
| `EventCenter.MakeChoice` | src/composables/eventCenter.js:149-168 | the method returns the choice the specification function picks |
| `EventCenter.AutoChoiceValid` | src/composables/eventCenter.js:149-168 | the automatic choice belongs to the event and is allowed; there is none exactly when no choice is allowed |
| `EventCenter.AutoChoiceFirstReaching` | src/composables/eventCenter.js:161-167 | since every score is at least 0.1, the pick is the first valid choice whose running score reaches `r * total` |
| `EventCenter.BucketWeights` | src/composables/eventCenter.js:186 | one weight per bucket and never zero: a non-zero weight is kept, and a bucket with a non-negative weight gets a positive one |
| `EventCenter.ResolvePicksBucket` | src/composables/eventCenter.js:185-196 | a choice with buckets resolves to one of its buckets; one without buckets takes its flat feedback and outcomes |
| `EventCenter.ResolveFirstReaching` | src/composables/eventCenter.js:187-193 | with non-negative weights the bucket is the first whose running weight reaches `r * total` |
| `EventCenter.PickBucket` | src/composables/eventCenter.js:186-193 | the loop returns the roulette bucket, with the last bucket as the fallback |
| `EventCenter.ResolveChoice` | src/composables/eventCenter.js:184-196 | the method computes `Resolve` |
| `EventCenter.TakeChoice` | src/composables/eventCenter.js:180-203 | the store becomes the chosen state: the choice id recorded, the choice line logged, the resolution's feedback logged and its outcomes applied |
| `EventCenter.RecordEvent` | src/composables/eventCenter.js:175-178 | the parsed title and text are logged and the event is marked triggered |
| `EventCenter.ProcessEvent` | src/composables/eventCenter.js:174-207 | the store becomes the processed state |
| `EventCenter.ChosenStateBookkeeping` | src/composables/eventCenter.js:181 | taking a choice records its id when it has one, and leaves the triggered events alone |
| `EventCenter.ProcessedRecords` | src/composables/eventCenter.js:178-181 | `processEvent` always marks the event triggered, and records only the id of the choice taken |
| `EventCenter.ProcessedWithoutChoice` | src/composables/eventCenter.js:204-206 | without a valid choice only the log and the triggered events change, and the last line is the system line |
| `EventCenter.EventCandidatesKept` | src/composables/eventCenter.js:231-247 | an event's candidates are its own choices, kept by the list they go to |
| `EventCenter.CandidatesKept` | src/composables/eventCenter.js:230-248 | every candidate is a choice of one of the events, names that event as parent, and passes its list's tests (no tag conflict, the right kind, conditions met) |
| `EventCenter.NormalWeight` | src/composables/eventCenter.js:257-261 | a normal weight is at least 1 |
| `EventCenter.NormalWeights` | src/composables/eventCenter.js:257-261 | one weight per remaining candidate |
| `EventCenter.Without` | src/composables/eventCenter.js:271 | `splice(i, 1)` removes exactly one element |
| `EventCenter.WithoutMultiset` | src/composables/eventCenter.js:271 | splicing removes exactly one occurrence of the element |
| `EventCenter.NormalPick` | src/composables/eventCenter.js:266-275 | a round of the draw names an index of the non-empty pool |
| `EventCenter.NormalPicker` | src/composables/eventCenter.js:256-276 | the manual draw's rule always names an index of the remaining pool |
| `EventCenter.DrawFromCount` | src/composables/eventCenter.js:256-276 | the draw yields as many as are wanted, or the whole pool |
| `EventCenter.DrawFromPool` | src/composables/eventCenter.js:271-272 | the draw is without replacement: its multiset is contained in the pool's |
| `EventCenter.DrawnFromPool` | src/composables/eventCenter.js:266-272 | every choice drawn is a candidate of the pool |
| `EventCenter.ManualWithNormal` | src/composables/eventCenter.js:214-280 | any rule that agrees with the roulette where it is spun yields the specified offer |
| `EventCenter.CollectCandidates` | src/composables/eventCenter.js:227-248 | the nested `forEach` builds exactly the special and normal candidate lists |
| `EventCenter.CollectFromEvent` | src/composables/eventCenter.js:231-247 | the inner `forEach` appends the event's candidates to both lists |
| `EventCenter.SortChoice` | src/composables/eventCenter.js:237-246 | a choice with a tag conflict is skipped; otherwise a choice whose conditions are met joins the list its `isSpecial` flag names |
| `EventCenter.SpinNormals` | src/composables/eventCenter.js:257-275 | the spin finds nothing exactly on an empty pool; otherwise it stops at the index the rule names |
| `EventCenter.DrawLoop` | src/composables/eventCenter.js:255-277 | the `while` loop appends the specified draw to the list |
| `EventCenter.GetManualChoices` | src/composables/eventCenter.js:214-280 | the method returns the specified offer |
| `EventCenter.OfferFromLists` | src/composables/eventCenter.js:250-277 | everything offered comes from one of the two lists |
| `EventCenter.OfferShape` | src/composables/eventCenter.js:250-277 | only the first offered choice can be special, and only on a draw below 0.5; at most `count` are offered, and exactly `count` when there are that many normal candidates |
| `EventCenter.ManualWithKept` | src/composables/eventCenter.js:217-248 | every offered choice belongs to an eligible event, names it as parent, adds no conflicting tag and has its conditions met |
| `EventCenter.ManualWithShape` | src/composables/eventCenter.js:250-277 | at most one special choice is offered, only first, only on a draw below 0.5; at most `count` are offered, and exactly `count` when there are enough normal candidates |
| `EventCenter.ManualChoicesNoEvent` | src/composables/eventCenter.js:225 | with no eligible event nothing is offered |
| `EventEngine.ReducedKinds` | src/composables/useEventEngine.js:24-39 | `>` and `<` fail a stat check; every type other than stat and worldview checks is met, whatever the store |
| `EventEngine.AgreesWithEventCenter` | src/composables/useEventEngine.js:26-36 | on stat checks with `>=`, `<=` or `==` and on worldview checks, the two evaluators agree |
| `EventEngine.OnlyStatsMatter` | src/composables/useEventEngine.js:24-39 | two stores with the same stats get the same verdict on every condition |
| `EventEngine.AvailableMembers` | src/composables/useEventEngine.js:43-47 | the filter keeps exactly the events that are not spent unique events, not locked, and have their conditions met |
| `EventEngine.TriggerableEventPasses` | src/composables/useEventEngine.js:42-50 | none exactly when no event passes; otherwise an event of the list that passes, at index `floor(r * n)` |
| `EventEngine.MetaNotFiltered` | src/composables/useEventEngine.js:43-47 | there is no meta or test filter: a tagged event that passes is still available |
| `EventEngine.ValidChoicesMembers` | src/composables/useEventEngine.js:56 | the filter keeps exactly the choices whose conditions hold |
| `EventEngine.MakeChoice` | src/composables/useEventEngine.js:53-83 | the method returns the specified choice |
| `EventEngine.EngineChoiceValid` | src/composables/useEventEngine.js:53-83 | the choice belongs to the event and meets its conditions; there is none exactly when no choice does; the pick is the first whose running score reaches `r * total` |
| `EventEngine.ValidChoicesStatsOnly` | src/composables/useEventEngine.js:56 | the valid choices depend only on the stats |
| `EventEngine.TagsIgnored` | src/composables/useEventEngine.js:53-83 | there is no tag-conflict gate: giving the player any tags changes no choice |
| `EventEngine.EngineProcessedRecords` | src/composables/useEventEngine.js:86-98 | the event is always marked triggered and no choice id is recorded; the log gains the age-labelled event line, then either the choice line (and the feedback line when there is one) or the system line |
| `EventEngine.BucketsIgnored` | src/composables/useEventEngine.js:93 | result buckets play no part: only the choice's flat outcomes are applied |
| `EventEngine.ProcessEvent` | src/composables/useEventEngine.js:86-98 | the store becomes the processed state |
| `UseConditionChecker.EveryIff` | src/composables/useConditionChecker.js:75 | a list is met exactly when each of its conditions is met |
| `UseConditionChecker.EveryAppend` | src/composables/useConditionChecker.js:75 | `every` splits over concatenation, and the second part is evaluated only when the first is met |
| `UseConditionChecker.AppendNeverHelps` | src/composables/useConditionChecker.js:75 | appending a condition never turns an unmet list into a met one |
| `UseConditionChecker.AreConditionsMetIff` | src/composables/useConditionChecker.js:71-76 | an absent or empty list is met; a present one is met iff all its conditions are |
| `UseConditionChecker.Defaults` | src/composables/useConditionChecker.js:15-61 | a missing type or missing params are met; a stat check on a missing stat or with an unknown operator fails; a has/has_not check with neither key fails; `variable_check` and unknown types are met |
| `UseConditionChecker.EndingIff` | src/composables/useConditionChecker.js:59-60 | `ending_id` holds exactly when the recorded reason is the one named; without `is` it holds exactly when no reason is recorded |
| `UseConditionChecker.AgreesWithEventCenter` | src/composables/useConditionChecker.js:14-63 | it agrees with the event center's evaluator on every condition both can evaluate, except `variable_check`, `ending_id` and a known type without params |
| `UseConditionChecker.DiffersFromEventCenter` | src/composables/useConditionChecker.js:15-61 | where the two differ: a known type without params, and a variable check on a missing key |
| `ConditionChecker.EveryIff` | src/utils/conditionChecker.js:71 | a list is met exactly when each of its conditions is met |
| `ConditionChecker.AreConditionsMetIff` | src/utils/conditionChecker.js:69-72 | an absent or empty list is met; a present one is met iff every condition is |
| `ConditionChecker.NoStore` | src/utils/conditionChecker.js:3-5 | malformed conditions are met even without a store; without a store every well-formed condition fails |
| `ConditionChecker.NoStoreList` | src/utils/conditionChecker.js:69-72 | without a store a list of well-formed conditions is met only when it is empty |
| `ConditionChecker.StrictEquality` | src/utils/conditionChecker.js:12-62 | `==` fails every stat check and `===` is equality; on a variable `==` is not an operator, so the raw value's truthiness decides |
| `ConditionChecker.AbsentCollections` | src/utils/conditionChecker.js:40-52 | without a tag list `has` fails and `has_not` holds; without variables `exists: false` holds |
| `ConditionChecker.UnknownKinds` | src/utils/conditionChecker.js:65 | unknown types, `ending_id` among them, are met |
| `ConditionChecker.AgreesWithEventCenter` | src/utils/conditionChecker.js:2-67 | with `==`/`===` and `!=`/`!==` respelled, it agrees with the event center's evaluator on every well-formed condition |
| `TagUtils.Others` | src/utils/tagUtils.js:11 | `group.filter(t => t !== tag)` keeps exactly the other members, in order |
| `TagUtils.BuildConflictMap` | src/utils/tagUtils.js:7-15 | the loop builds the table that enters every group in order |
| `TagUtils.ConflictsOfDomain` | src/utils/tagUtils.js:9-13 | a tag is in the table exactly when some group lists it |
| `TagUtils.LastGroupWins` | src/utils/tagUtils.js:9-13 | a tag listed in several groups gets the entry of the last group that lists it |
| `TagUtils.NeverSelfConflicting` | src/utils/tagUtils.js:11-21 | in a table built from groups no tag conflicts with itself |
| `TagUtils.NotExclusiveWithItself` | src/utils/tagUtils.js:42-45 | no tag is mutually exclusive with itself |
| `TagUtils.AnyInIff` | src/utils/tagUtils.js:23-26 | `hasConflict` finds a conflict exactly when some existing tag is among the new tag's conflicts |
| `TagUtils.GetConflictInfo` | src/utils/tagUtils.js:28-36 | the info carries the new tag and its conflicts |
| `TagUtils.HasConflictIffInfo` | src/utils/tagUtils.js:23-36 | `hasConflict` holds exactly when the info lists an existing conflict |
| `TagUtils.ExistingConflictsSublist` | src/utils/tagUtils.js:30 | the existing conflicts keep exactly the matching occurrences of the existing tags, in order |
| `TagUtils.BucketOutcomesMembers` | src/utils/tagUtils.js:50 | an outcome is in the flattened list exactly when some bucket lists it |
| `TagUtils.AnyAddsConflictIff` | src/utils/tagUtils.js:59-66 | the scan reports a conflict exactly when some outcome adds a plain tag (non-empty, no `replace`) that a player tag conflicts with |
| `TagUtils.ChoiceAddsConflictingTagIff` | src/utils/tagUtils.js:55-67 | the gate holds exactly when the choice would add a plain tag that one of the player's tags conflicts with |
| `TagUtils.NoTagsNoConflict` | src/utils/tagUtils.js:58 | with absent or empty player tags, no choice is gated |
| `TextParser.Options` | src/utils/textParser.js:14 | a group always has at least one option, and has exactly one when there is no `\|` |
| `TextParser.TrimAll` | src/utils/textParser.js:14 | one piece per input piece, none longer than it, none starting or ending with white space |
| `TextParser.ConditionalAt` | src/utils/textParser.js:61 | a recognised `{$cond:yes\|no}` group has a positive length that fits in the text |
| `TextParser.ConditionalGroupParts` | src/utils/textParser.js:61 | `{$cond:yes\|no}` is recognised with exactly those three parts when each part avoids the characters the regular expression excludes |
| `TextParser.ConditionalGroupChosen` | src/utils/textParser.js:62-67 | the group becomes its trimmed true branch when the trimmed condition holds, else its trimmed false branch, and the scan goes on after the group |
| `TextParser.ConditionalTextAbsent` | src/utils/textParser.js:59-68 | text with no `{` is left unchanged |
| `TextParser.ComparisonFrom` | src/utils/textParser.js:74 | a recognised comparison has a known operator and a non-empty left operand that is a prefix of the condition |
| `TextParser.RightOperand` | src/utils/textParser.js:74 | the right operand is non-empty and has no line terminator (`(.+)$`) |
| `TextParser.ComparisonSplitsPlain` | src/utils/textParser.js:74 | `a>=1` splits as `a`, `>=`, `1` |
| `TextParser.ComparisonSplitsSpaced` | src/utils/textParser.js:74 | `a >= 1` splits as `a`, `>=`, `1` |
| `TextParser.ComparisonSplitsBacktracking` | src/utils/textParser.js:74 | `a>=` splits as `a`, `>`, `=`, because the left operand is lazy and the operators are tried in order |
| `TextParser.ComparisonNeedsOperator` | src/utils/textParser.js:74-75 | a text with no operator is not a comparison |
| `TextParser.ComparisonIsFirstSplit` | src/utils/textParser.js:74-75 | for every condition: the comparison found splits it at the shortest left operand after which an operator fits, with the first alternative in `>=, <=, ==, !=, >, <` order that fits there and the right operand after it; there is none exactly when no left operand admits an operator |
| `TextParser.OperatorFromNone` | src/utils/textParser.js:74 | no operator alternative is taken exactly when none fits |
| `TextParser.OperatorFromEarliest` | src/utils/textParser.js:74 | when an alternative fits, the one taken is it or an earlier one |
| `EventCenter.StatValueAgreesWithStatOf` | src/utils/textParser.js:92-98 | a variable of the name shadows the store; otherwise a stat reads as `stat_check` reads it, `isAlive` as 1 or 0, and an unknown name as 0 |
| `TextParser.OperandValue` | src/utils/textParser.js:100-111 | `tag:x` is 1 exactly when the player has tag x, else 0; `status:x` likewise for a status effect; anything else is `Number(x) \|\| 0` |
| `TextParser.CheckSimpleCondition` | src/utils/textParser.js:70-90 | false without a player and false without a recognised comparison |
| `TextParser.CloseFrom` | src/utils/textParser.js:13 | the scan for `}` returns a position holding `}` |
| `TextParser.CloseFromIsFirst` | src/utils/textParser.js:13 | the scan stops at the first `}`, and finds none only when there is none |
| `TextParser.BraceAt` | src/utils/textParser.js:13 | a recognised brace group starts with `{`, ends with `}` and has non-empty content |
| `TextParser.BraceAtContent` | src/utils/textParser.js:13 | the content holds no `}`, and a text starting with `{` is a group exactly when a `}` follows the first content character |
| `TextParser.BraceGroupParts` | src/utils/textParser.js:141 | `{c}` with non-empty content c that has no `}` is recognised with content c |
| `TextParser.RandomGroupAt` | src/utils/textParser.js:13 | a random group is a brace group that fits in the text |
| `TextParser.RandomTextCopies` | src/utils/textParser.js:11-18 | text with no `{` is copied by the random stage |
| `TextParser.DollarGroupKept` | src/utils/textParser.js:13 | a `{$...}` group is not a random group and is kept as it is |
| `TextParser.SingleOptionKept` | src/utils/textParser.js:15 | a group with one option is left as it is |
| `TextParser.MultiOptionPicked` | src/utils/textParser.js:14-16 | a group with several options becomes the trimmed option that draw k picks, and the next group gets the next draw |
| `TextParser.RandomTextPicks` | src/utils/textParser.js:13-16 | a random group with several options at the start of the text becomes the option draw k picks |
| `TextParser.KeySpan` | src/utils/textParser.js:30 | the key is the longest run of `[\w一-龥]` characters |
| `TextParser.ReferenceAt` | src/utils/textParser.js:30 | a recognised reference has a positive length that fits in the text |
| `TextParser.ReferenceParts` | src/utils/textParser.js:30 | `{var.key}` and `{var.key:default}` are recognised with exactly those parts |
| `TextParser.ReferenceReplaced` | src/utils/textParser.js:30-35 | a reference to a present variable becomes `String(value)`; to an absent one, the default when given, else "0" |
| `TextParser.ReferenceScanAbsent` | src/utils/textParser.js:30 | text with no `{` has no reference |
| `TextParser.VariableText` | src/utils/textParser.js:26-36 | without a player or without variables the text is returned unchanged |
| `TextParser.ReplacePairAbsent` | src/utils/textParser.js:45-50 | one replacement pass leaves text without a backslash unchanged |
| `TextParser.ReplacePairStep` | src/utils/textParser.js:45-50 | a global `replace` pass works left to right: the first occurrence of the pair becomes the replacement and the pass resumes after it |
| `TextParser.EscapeChars` | src/utils/textParser.js:43-51 | text without a backslash is unchanged |
| `TextParser.EscapeSequences` | src/utils/textParser.js:46-50 | `\n`, `\t`, `\{`, `\}` and `\\` each become their character |
| `TextParser.EscapePassesInOrder` | src/utils/textParser.js:45-50 | the passes run one after another, so an escaped backslash before `n` still becomes a backslash and a line break |
| `TextParser.ParseText` | src/utils/textParser.js:119-127 | empty text is returned as it is |
| `TextParser.PlainTextFixed` | src/utils/textParser.js:119-127 | text with no braces and no backslashes passes every stage unchanged |
| `TextParser.GroupKeyInjective` | src/utils/textParser.js:149 | distinct group numbers give distinct `__random_i__` keys |
| `TextParser.GroupTableLookup` | src/utils/textParser.js:149-150 | the table has exactly the keys `__random_0__` and onwards, and maps the i-th key to the i-th group |
| `TextParser.FlattenMembers` | src/utils/textParser.js:151 | an option is in `allOptions` exactly when some multi-option group has it |
| `TextParser.ScanAt` | src/utils/textParser.js:144-154 | one `exec` step moves forward and yields the options of a group found there |
| `TextParser.ExtractRandomOptions` | src/utils/textParser.js:134-157 | `allOptions` is the concatenation of the multi-option groups, in order, and `optionsPerGroup` maps `__random_i__` to the i-th of them |
| `InteractiveGame.TimePasses` | src/composables/useInteractiveGame.js:8-12 | the sentinel is a system choice with id `system_time_passes` and no parent event |
| `InteractiveGame.ShowableChoicesMembers` | src/composables/useInteractiveGame.js:35-40 | the filter keeps exactly the system choices and the choices that meet their conditions and add no conflicting tag, without adding any |
| `InteractiveGame.SystemChoicesPass` | src/composables/useInteractiveGame.js:36 | a system choice always passes the filter |
| `InteractiveGame.Render` | src/composables/useInteractiveGame.js:48-53 | one entry per choice, each with the event as parent; only the text changes, to its parsed form |
| `InteractiveGame.OfferedValid` | src/composables/useInteractiveGame.js:35-53 | min(3, number of showable choices) are shown; each names the event as parent and is a showable choice of it with its text parsed |
| `InteractiveGame.TurnGuards` | src/composables/useInteractiveGame.js:20-63 | a dead player changes nothing; a death during the tick leaves an empty screen; otherwise the screen is never empty, and is the time-passes sentinel when no event is found |
| `InteractiveGame.TurnShowsEventChoices` | src/composables/useInteractiveGame.js:30-58 | when an event is found, 1 to 3 choices are shown: the sentinel, or the event's filtered and rendered choices |
| `InteractiveGame.TurnKeepsBookkeeping` | src/composables/useInteractiveGame.js:20-63 | a turn does not mark events triggered or record choices |
| `InteractiveGame.Chosen` | src/composables/useInteractiveGame.js:71-95 | taking a choice keeps the set of stats and the alive flag |
| `InteractiveGame.ChosenRecords` | src/composables/useInteractiveGame.js:71-73 | the parent event (when named) is marked triggered and the choice id (when present) is recorded; without feedback the log gains only the choice line |
| `InteractiveGame.SystemChoiceOnlyAdvances` | src/composables/useInteractiveGame.js:66-69 | a system choice only runs the next turn, with no bookkeeping |
| `InteractiveGame.ChoiceThenTurn` | src/composables/useInteractiveGame.js:65-100 | selecting an ordinary choice while alive is taking it and then running a turn; a dead player keeps the shown choices |
| `InteractiveGame.Game.constructor` | src/composables/useInteractiveGame.js:14-18 | the game starts with no choices shown |
| `InteractiveGame.Game.NextTurn` | src/composables/useInteractiveGame.js:20-63 | the player and the shown choices become the turn's screen |
| `InteractiveGame.Game.ShowEvent` | src/composables/useInteractiveGame.js:31-58 | the event is logged, and its offered choices, or the system line and the sentinel, are shown |
| `InteractiveGame.Game.TakeChoice` | src/composables/useInteractiveGame.js:71-95 | the player becomes the chosen state |
| `InteractiveGame.Game.HandleChoiceSelected` | src/composables/useInteractiveGame.js:65-100 | the player and the shown choices become the selected screen |
| `DataCenter.BaseData` | src/composables/dataCenter.js:47-61 | base files never contribute custom stats |
| `DataCenter.DlcDataConcatLists` | src/composables/dataCenter.js:71-77 | the pack lists of two runs of packs are concatenated, in order |
| `DataCenter.DlcDataConcatEffects` | src/composables/dataCenter.js:75 | the status effects of two runs of packs merge with the later run overriding |
| `DataCenter.DlcDataMembers` | src/composables/dataCenter.js:71-77 | an event, talent, ending, custom stat or status key is merged exactly when some pack has it |
| `DataCenter.LastPackWins` | src/composables/dataCenter.js:75 | a status key takes the value of the last pack that defines it |
| `DataCenter.OnlyEnabledContribute` | src/composables/dataCenter.js:64-77 | a disabled pack adds nothing; an enabled one is merged |
| `DataCenter.LoadedFacts` | src/composables/dataCenter.js:79-85 | lists are base followed by pack; custom stats come only from packs; a status key no pack defines keeps its base value; otherwise the last defining pack wins |
| `DataCenter.ReadBaseFiles` | src/composables/dataCenter.js:52-61 | the loop computes the base data |
| `DataCenter.MergePacks` | src/composables/dataCenter.js:71-77 | the loop computes the merged pack data |
| `DataCenter.Center.constructor` | src/composables/dataCenter.js:8-16 | all data empty, not loaded |
| `DataCenter.Center.ResetData` | src/composables/dataCenter.js:18-26 | all data empty, not loaded |
| `DataCenter.Center.LoadAllData` | src/composables/dataCenter.js:32-97 | when cached and not forced nothing changes; otherwise the DLC store is initialised and the data become the loaded merge of base files and enabled packs; the custom stats are returned |
| `DlcStore.EnabledContentMembers` | src/stores/dlcStore.js:32-34 | the enabled content is exactly the packs whose id is enabled |
| `DlcStore.EnabledContentConcat` | src/stores/dlcStore.js:33 | the getter keeps pack order |
| `DlcStore.AllEnabled` | src/stores/dlcStore.js:32-34 | when every id is enabled, all packs are enabled content |
| `DlcStore.WithoutMembers` | src/stores/dlcStore.js:124-125 | filtering out an id keeps exactly the packs with other ids |
| `DlcStore.WithoutAbsent` | src/stores/dlcStore.js:89-93 | filtering out an id no pack has changes nothing |
| `DlcStore.WithoutUnique` | src/stores/dlcStore.js:124-125 | filtering keeps pack ids distinct |
| `DlcStore.Toggle` | src/stores/dlcStore.js:137-144 | toggling flips the id's membership and leaves other ids alone |
| `DlcStore.ToggleTwice` | src/stores/dlcStore.js:137-144 | toggling twice restores the enabled set |
| `DlcStore.InitializedFacts` | src/stores/dlcStore.js:42-72 | initialisation is idempotent; the first load takes the stored packs; with no saved selection every pack is enabled and saved |
| `DlcStore.ImportStepFacts` | src/stores/dlcStore.js:82-97 | a pack without id or name changes nothing; an imported pack is the last one and the only one with its id, it is enabled, the others are kept in order, and ids stay distinct |
| `DlcStore.ImportEachFacts` | src/stores/dlcStore.js:78-105 | importing only adds enabled ids and leaves the load flag and the saved selection alone; ids stay distinct only with the handlers run one at a time (see Left out) |
| `DlcStore.RemovedFacts` | src/stores/dlcStore.js:121-131 | after a removal no pack has the id and the id is not enabled; the other packs are kept; the enabled content is as before; ids stay distinct |
| `DlcStore.SameEnabled` | src/stores/dlcStore.js:32-34 | two enabled-id sets that differ only in an id no pack has give the same enabled content |
| `DlcStore.Store.constructor` | src/stores/dlcStore.js:25-29 | no packs, the saved selection enabled, not loaded |
| `DlcStore.Store.Initialize` | src/stores/dlcStore.js:42-72 | the store becomes the initialized state |
| `DlcStore.Store.ToggleDlc` | src/stores/dlcStore.js:137-144 | the store becomes the toggled state and the selection is saved |
| `DlcStore.Store.ImportOne` | src/stores/dlcStore.js:82-97 | the import succeeds exactly for a pack with id and name whose write succeeds; the store becomes the import step |
| `DlcStore.Store.ImportDlcFiles` | src/stores/dlcStore.js:78-115 | the files are imported one at a time in list order, and the selection is saved only when all succeed |
| `DlcStore.Store.RemoveDlc` | src/stores/dlcStore.js:121-131 | the store becomes the removed state, unchanged when the delete fails |
| `AchievementStore.AfterUnlock` | src/stores/achievementStore.js:26-43 | the id is unlocked afterwards exactly when it was before or is non-empty and known; no other id changes |
| `AchievementStore.UnlockIdempotent` | src/stores/achievementStore.js:26-43 | unlocking twice is unlocking once, and never removes an id |
| `AchievementStore.ListsMembers` | src/stores/achievementStore.js:18-24 | the unlocked list holds exactly the unlocked achievements; the locked list exactly the visible ones not unlocked |
| `AchievementStore.ListsPartition` | src/stores/achievementStore.js:18-24 | no achievement is in both lists; each visible one is in exactly one; a hidden one is never locked |
| `AchievementStore.ListsConcat` | src/stores/achievementStore.js:19-23 | both lists keep the achievement order |
| `AchievementStore.UnlockMoves` | src/stores/achievementStore.js:26-43 | unlocking a known visible achievement moves it from the locked list to the unlocked one |
| `AchievementStore.Store.constructor` | src/stores/achievementStore.js:5-16 | the unlocked set is the saved one, or empty when nothing is saved |
| `AchievementStore.Store.UnlockAchievement` | src/stores/achievementStore.js:26-43 | the unlocked set becomes `AfterUnlock` of the old one |
| `AchievementStore.FindAchievement` | src/stores/achievementStore.js:31 | `find` returns the first achievement with the id, and none exactly when no achievement has it |
| `Selection.Spin` | src/composables/eventCenter.js:136-139 | the subtraction loop stops at the first index whose running total reaches the target |
| `Selection.FirstReaching` | src/composables/eventCenter.js:136-139 | the index found reaches the target and no earlier one does; none means no index does |
| `Selection.DrawTarget` | src/composables/eventCenter.js:135 | `Math.random() * total` lies in [0, total) for a positive total |
| `Selection.Roulette` | src/composables/eventCenter.js:135-141 | the roulette names an index of the list |
| `Selection.RouletteSpin` | src/composables/eventCenter.js:135-141 | the roulette is the loop with its fallback: the first index reaching the target, else the last index |
| `Selection.ReachedBelowTotal` | src/composables/eventCenter.js:136-141 | a target no larger than the total is always reached, so the fallback is not taken |
| `Selection.RouletteIsFirstReaching` | src/composables/eventCenter.js:132-141 | for a positive total the roulette answer is exactly the first index reaching `r * total` |
| `Selection.ReachedWeightPositive` | src/composables/eventCenter.js:136-139 | a positive target never stops at a weight that is not positive |
| `Selection.SumAtLeastCount` | src/composables/eventCenter.js:262-264 | with every weight at least 1 the total is at least the count, so its `totalWeight === 0` break never fires on a non-empty pool |
| `Selection.SumNonNegative` | src/composables/eventCenter.js:132-133 | non-negative weights have a non-negative total |
| `Common.Round` | src/stores/playerStore.js:78 | `Math.round` is within half of its argument |
| `Common.Max` | src/composables/eventCenter.js:129 | `Math.max` is at least both arguments and is one of them |
| `Common.RandomIndex` | src/composables/useEventEngine.js:49 | `Math.floor(Math.random() * n)` is an index below n |
| `Common.RandomIndexIff` | src/composables/useEventEngine.js:49 | index i is picked exactly for draws in [i/n, (i+1)/n), so the pick is uniform |
| `Common.Trim` | src/utils/textParser.js:14 | the trimmed text neither starts nor ends with white space |
| `Common.TrimIsInfix` | src/utils/textParser.js:14 | trimming removes only the surrounding white space: the text is a run of white space, the trimmed text, and another run of white space |
| `Common.TrimOfUnspaced` | src/utils/textParser.js:14 | trimming text that has no white space at either end changes nothing |
| `Common.Split` | src/utils/textParser.js:14 | a split has at least one piece, and no piece holds the separator |
| `Common.JoinSplit` | src/utils/textParser.js:14 | joining the pieces with the separator gives the text back |
| `Common.SplitSingleIffNoSeparator` | src/utils/textParser.js:14-15 | a split yields one piece exactly when the separator does not occur |
| `Common.ToFixed1Halves` | src/composables/useEventEngine.js:87 | an age of h/2 prints as its integer part followed by `.0` or `.5` |
| `Common.ParseIntToString` | src/utils/textParser.js:30-35 | `Number(String(n))` gives the integer n back |
| `Common.ParsePositive` | src/utils/textParser.js:92-111 | `Number` reads a run of digits as its decimal value |
| `Common.ParseNegative` | src/utils/textParser.js:92-111 | `Number` reads a minus sign and a run of digits as the negated value |
| `Common.NatToString` | src/utils/textParser.js:32 | `String(n)` of a natural number is a non-empty run of digits |
| `Common.FilterMultiset` | src/stores/achievementStore.js:19 | a filter keeps exactly the occurrences that pass, in order |
| `Common.Filter` | src/stores/achievementStore.js:19 | a filter keeps exactly the elements that pass, and is no longer than its input |
| `Common.FilterConcat` | src/stores/dlcStore.js:33 | a filter splits over concatenation |

## Left out

- I/O is left out: `localStorage` reads and writes, IndexedDB (`getAllDlcs`, `setDlc`, `deleteDlc`), `fetchJSON`, `FileReader`, `JSON.parse` and `console` output. Database results and write or delete success are parameters. The storage writes of the achievement store and the DLC store carry no state here, except that the DLC store's saved selection is a field.
- Seeding the built-in DLC packs into the database, and `Promise.all`, are left out because they are I/O. `stored` is the database content after seeding.
- `DlcStore.Store.ImportDlcFiles`: `FileReader` callbacks finish in an unknown order. The model imports the files in list order. A file that fails to parse is represented as a pack without id or name.
- `DlcStore.ImportEachFacts`: each `onload` handler is modelled as running to completion before the next starts. In the source a handler suspends at `await setDlc(content)` (src/stores/dlcStore.js:94). That is after its id check and filter (:89-93) and before its push (:95), so other handlers can run in between. Two files with the same new id in one import can both pass the check and both be pushed, leaving `dlcs` with two packs of that id. The distinct-ids clause holds only under the one-at-a-time model.
- `DataCenter.Center.LoadAllData`: `import.meta.glob` and the path tests (`/events/`, `talents.json`, ...) are left out. Each base file arrives already classified as a `DataFile` variant, in `files` order.
- `Date.now()` and `Math.random()` in log ids, and `uuidv4()`, are left out: they carry no behaviour the model reads.
- `Common.Value`: a player variable holds an integer, a string or a boolean only. Fractional numbers, `null`, arrays and objects cannot be stored. So `String(player.variables[key])` for them (for example "2.5", "null", "a,b" at src/utils/textParser.js:32) is not modelled. Nor are `Number(...)` of them at src/utils/textParser.js:94, or the `variable_check` comparisons on them in src/composables/eventCenter.js and src/utils/conditionChecker.js.
- Floating point is modelled as exact reals. `toFixed(1)` is modelled for non-negative values below the exponent range only. `Number(...)` on strings reads decimal literals only: exponents, hex and `Infinity` read as NaN.
- `Math.random()` draws are parameters. The template parser takes one draw stream that every parse of a turn shares.
- A store field that is not numeric is outside the model when `stat_check` or `parseStatValue` reads it: stats are a map to reals. The one exception is `isAlive`, which `parseStatValue` reads as `Number(true)` = 1 or `Number(false)` = 0. `parseStatValue` on `inventory`, `statusEffects`, `log` or `triggeredEventIds` reads 0 in the model. The source gives the same except for an inventory of one numeric string.
- `ending_id`: an empty `is` stands for an absent one. The model therefore lumps `is: ""` (false in the source unless the reason is `""`) together with an absent `is`.
- The dynamic `import()` of the status-effect table in `nextTurn` is a parameter (`defs`).
- Where the source would throw (for example `params.x` of a known condition type without params, or `tags.includes` on absent tags), the model uses a definedness precondition. Behaviour after a throw is left out.
- `InteractiveGame.Game.NextTurn`: `player.nextTurn()` is async and not awaited in the source. It is modelled as completing before the event is drawn.
- `EventCenter.GetManualChoices`: the spread `{ ...c, uuid }` copy is not modelled. The special pick's `Math.floor(Math.random() * n)` is modelled, but the uniformity of the pick is stated only in `Common.RandomIndexIff`, on plain values.
- `getTagGroups` is left out: it returns the input table unchanged.
- `src/utils/idb.js`, `src/composables/useGameLoop.js` and `src/composables/devConfig.js` are not part of this model. `showTestEvents` is a parameter.
- `useEventEngine.loadEvents` is left out: it is module loading (I/O).
- `reset` via `Object.assign`: fields that the fresh state does not list keep their values.
- `PlayerStore.Player.constructor`: the source store never initialises `madeChoices`, `talents`, `tags`, `variables`, `tagProbabilityModifiers`, `eventModifiers` or `deathReason`. They are absent from `getInitialState` (src/stores/playerStore.js:3-28), and no core file assigns them. So the source throws at src/composables/eventCenter.js:119 and :124 (weights of a tagged event, and any non-empty available list), at :181 and src/composables/useInteractiveGame.js:72 (a choice with an id), and at src/composables/eventCenter.js:66-69 and src/composables/useConditionChecker.js:50-53 (`made_choice_check` and `talent_check`). The model assumes these fields start empty, with `tags`, `variables` and `deathReason` absent, so those paths run instead of throwing.
