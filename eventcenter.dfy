/**
 * The event center: the condition evaluator the game uses, the choice of the
 * next event by weighted roulette, the automatic choice of an option, the
 * processing of one event against the player store, and the candidate list
 * of manual mode.
 *
 * The composable closes over the player store, the loaded events and the
 * test-event flag; here they are parameters. Each `Math.random()` draw is a
 * `Unit` parameter, or a stream `nat -> Unit` where a loop draws repeatedly.
 */
module EventCenter {
  import opened Common
  import opened Content
  import opened PlayerStore
  import opened Selection
  import opened TagUtils
  import opened TextParser

  // ---------------------------------------------------------------------------
  // Conditions

  /** The condition types this evaluator has a case for. */
  predicate KnownKind(kind: string) {
    kind == "stat_check" || kind == "worldview_check" || kind == "status_check" || kind == "event_check"
    || kind == "inventory_check" || kind == "made_choice_check" || kind == "talent_check"
    || kind == "tag_check" || kind == "variable_check"
  }

  /**
   * The evaluator reads `params.x` in every known case, so a known type
   * without params throws; every other condition can be evaluated.
   */
  predicate Defined(c: Condition) {
    !(c.MissingParams? && KnownKind(c.kind))
  }

  /** `player[stat]` for a numeric field of the store; None stands for `undefined`. */
  function StatOf(st: PlayerState, stat: string): Option<real> {
    if stat in st.stats then Some(st.stats[stat]) else None
  }

  /** The five comparison operators of `stat_check`; any other spelling is false. */
  function CompareStat(value: real, op: string, bound: real): bool {
    if op == ">=" then value >= bound
    else if op == "<=" then value <= bound
    else if op == "==" then value == bound
    else if op == ">" then value > bound
    else if op == "<" then value < bound
    else false
  }

  /**
   * The comparisons of `variable_check` on `Number(value)`, None standing for
   * NaN (false under every comparison, true under `!=`); without a known
   * operator, the truthiness of the raw value.
   */
  function CompareVariable(value: Value, op: string, bound: real): bool {
    var n := ToNumber(value);
    if op == ">=" then n.Some? && n.value >= bound
    else if op == "<=" then n.Some? && n.value <= bound
    else if op == "==" then n.Some? && n.value == bound
    else if op == ">" then n.Some? && n.value > bound
    else if op == "<" then n.Some? && n.value < bound
    else if op == "!=" then !(n.Some? && n.value == bound)
    else Truthy(value)
  }

  predicate HasStatus(st: PlayerState, id: string) {
    exists k :: 0 <= k < |st.statusEffects| && st.statusEffects[k].id == id
  }

  predicate HasTalent(st: PlayerState, id: string) {
    exists k :: 0 <= k < |st.talents| && st.talents[k].id == id
  }

  /** `player.variables?.[key]`. */
  function VariableOf(st: PlayerState, key: string): Option<Value> {
    if st.variables.Some? && key in st.variables.value then Some(st.variables.value[key]) else None
  }

  /**
   * `isConditionMet`. Empty strings stand for absent `has`/`has_not` keys;
   * a has/has_not check with neither key is false. An unknown or missing
   * type is met. A known type without params throws in the source; it is
   * excluded by `Defined` wherever a condition is evaluated and reads as
   * false here.
   */
  function IsConditionMet(c: Condition, st: PlayerState): bool {
    match c
    case StatCheck(stat, op, bound) =>
      var v := StatOf(st, stat);
      v.Some? && CompareStat(v.value, op, bound)
    case WorldviewCheck(dominant) => DominantWorldview(st.stats) == dominant
    case StatusCheck(has, hasNot) =>
      if has != "" then HasStatus(st, has)
      else if hasNot != "" then !HasStatus(st, hasNot)
      else false
    case EventCheck(has, hasNot) =>
      if has != "" then has in st.triggeredEventIds
      else if hasNot != "" then hasNot !in st.triggeredEventIds
      else false
    case InventoryCheck(has, hasNot) =>
      if has != "" then has in st.inventory
      else if hasNot != "" then hasNot !in st.inventory
      else false
    case MadeChoiceCheck(id) => id in st.madeChoices
    case TalentCheck(has, hasNot) =>
      if has != "" then HasTalent(st, has)
      else if hasNot != "" then !HasTalent(st, hasNot)
      else false
    case TagCheck(has, hasNot) =>
      if has != "" then st.tags.Some? && has in st.tags.value
      else if hasNot != "" then st.tags.None? || hasNot !in st.tags.value
      else false
    case VariableCheck(key, existsFlag, op, bound) =>
      if key == "" then false
      else
        var v := VariableOf(st, key);
        if v.None? then (if existsFlag.Some? then !existsFlag.value else false)
        else CompareVariable(v.value, op, bound)
    case MissingParams(kind) => !KnownKind(kind)
    case _ => true
  }

  /** `conditions.every(isConditionMet)`. */
  predicate AllMet(cs: seq<Condition>, st: PlayerState) {
    forall k :: 0 <= k < |cs| ==> IsConditionMet(cs[k], st)
  }

  /**
   * `every` stops at the first unmet condition: every condition it reaches
   * can be evaluated.
   */
  predicate AllMetDefined(cs: seq<Condition>, st: PlayerState) {
    forall k :: 0 <= k < |cs| && (forall j :: 0 <= j < k ==> IsConditionMet(cs[j], st)) ==> Defined(cs[k])
  }

  /** A stat the player lacks fails every stat check; an unknown operator fails one the player has. */
  lemma StatCheckFalseCases(st: PlayerState, stat: string, op: string, bound: real)
    ensures stat !in st.stats ==> !IsConditionMet(StatCheck(stat, op, bound), st)
    ensures op != ">=" && op != "<=" && op != "==" && op != ">" && op != "<"
      ==> !IsConditionMet(StatCheck(stat, op, bound), st)
    ensures stat in st.stats ==>
      (IsConditionMet(StatCheck(stat, ">=", bound), st) <==> st.stats[stat] >= bound)
  {
  }

  /**
   * Unknown types are met; a has/has_not check with neither key is not; a
   * `has` key decides on its own even when `has_not` is also given.
   */
  lemma KindDefaults(st: PlayerState, kind: string, has: string, hasNot: string)
    ensures !KnownKind(kind) ==> IsConditionMet(OtherCondition(kind), st) && IsConditionMet(MissingParams(kind), st)
    ensures IsConditionMet(Untyped, st)
    ensures !IsConditionMet(StatusCheck("", ""), st) && !IsConditionMet(EventCheck("", ""), st)
    ensures !IsConditionMet(InventoryCheck("", ""), st) && !IsConditionMet(TalentCheck("", ""), st)
    ensures !IsConditionMet(TagCheck("", ""), st)
    ensures has != "" ==> (IsConditionMet(InventoryCheck(has, hasNot), st) <==> has in st.inventory)
    ensures has != "" ==> (IsConditionMet(EventCheck(has, hasNot), st) <==> has in st.triggeredEventIds)
    ensures has == "" && hasNot != "" ==>
      (IsConditionMet(TagCheck(has, hasNot), st) <==> st.tags.None? || hasNot !in st.tags.value)
  {
  }

  /**
   * `variable_check`: a missing key is false; an absent variable yields
   * `!exists` when `exists` is given and false otherwise; without an
   * operator, a present variable is met iff its value is truthy.
   */
  lemma VariableCheckCases(st: PlayerState, key: string, existsFlag: Option<bool>, op: string, bound: real)
    ensures !IsConditionMet(VariableCheck("", existsFlag, op, bound), st)
    ensures key != "" && VariableOf(st, key).None? ==>
      (IsConditionMet(VariableCheck(key, existsFlag, op, bound), st) <==> existsFlag == Some(false))
    ensures key != "" && VariableOf(st, key).Some? && op == "" ==>
      (IsConditionMet(VariableCheck(key, existsFlag, op, bound), st) <==> Truthy(VariableOf(st, key).value))
    ensures key != "" && VariableOf(st, key).Some? && ToNumber(VariableOf(st, key).value).None? ==>
      (IsConditionMet(VariableCheck(key, existsFlag, "!=", bound), st)
       && !IsConditionMet(VariableCheck(key, existsFlag, "==", bound), st)
       && !IsConditionMet(VariableCheck(key, existsFlag, ">=", bound), st))
  {
  }

  // ---------------------------------------------------------------------------
  // Finding an event

  /** `allEvents.find(event => event.id === eventId) || null`. */
  function FindEventById(events: seq<Event>, id: string): (r: Option<Event>)
    ensures r.Some? ==> r.value in events && r.value.id == id
    ensures r.None? <==> forall k :: 0 <= k < |events| ==> events[k].id != id
  {
    if events == [] then None
    else if events[0].id == id then Some(events[0])
    else
      assert forall k :: 0 < k < |events| ==> events[k] == events[1..][k - 1];
      FindEventById(events[1..], id)
  }

  /** When several events share an id, the first one is found. */
  lemma {:induction false} FindEventByIdFirst(events: seq<Event>, id: string, i: nat)
    requires i < |events| && events[i].id == id
    requires forall k :: 0 <= k < i ==> events[k].id != id
    ensures FindEventById(events, id) == Some(events[i])
  {
    if i > 0 {
      assert forall k :: 0 <= k < i - 1 ==> events[1..][k] == events[k + 1];
      FindEventByIdFirst(events[1..], id, i - 1);
    }
  }

  /** The checks before an event's conditions: not meta, not a hidden test event, not spent, not locked. */
  predicate Admissible(e: Event, st: PlayerState, showTest: bool) {
    "meta" !in e.tags
    && (showTest || "test" !in e.tags)
    && !(e.isUnique && e.id in st.triggeredEventIds)
    && !(e.requiresUnlock && e.id !in st.unlockedEventIds)
  }

  /** The filter of `findTriggerableEvent` (and of `getManualChoices`). */
  predicate Eligible(e: Event, st: PlayerState, showTest: bool) {
    Admissible(e, st, showTest) && AllMet(e.conditions, st)
  }

  /** The filter evaluates an event's conditions only past the other checks. */
  predicate EventsDefined(events: seq<Event>, st: PlayerState, showTest: bool) {
    forall k :: 0 <= k < |events| && Admissible(events[k], st, showTest) ==> AllMetDefined(events[k].conditions, st)
  }

  /** `allEvents.filter(...)`: the eligible events, in order. */
  function Available(events: seq<Event>, st: PlayerState, showTest: bool): seq<Event> {
    if events == [] then []
    else (if Eligible(events[0], st, showTest) then [events[0]] else []) + Available(events[1..], st, showTest)
  }

  /** The filter keeps exactly the eligible events. */
  lemma {:induction false} AvailableMembers(events: seq<Event>, st: PlayerState, showTest: bool)
    ensures forall e :: e in Available(events, st, showTest) <==> e in events && Eligible(e, st, showTest)
  {
    if events != [] {
      AvailableMembers(events[1..], st, showTest);
      assert events == [events[0]] + events[1..];
    }
  }

  /** With no eligible event, the filter keeps nothing. */
  lemma {:induction false} AvailableNone(events: seq<Event>, st: PlayerState, showTest: bool)
    requires forall e :: e in events ==> !Eligible(e, st, showTest)
    ensures Available(events, st, showTest) == []
  {
    if events != [] {
      assert events[0] in events;
      assert forall e :: e in events[1..] ==> e in events;
      AvailableNone(events[1..], st, showTest);
    }
  }

  /** `tagProbabilityModifiers[tag]` when it is truthy, else no factor. */
  function TagFactor(mods: map<string, real>, tag: string): real {
    if tag in mods && mods[tag] != 0.0 then mods[tag] else 1.0
  }

  /** The product of the truthy tag modifiers over the tags, in order. */
  function TagProduct(mods: map<string, real>, tags: seq<string>): real {
    if tags == [] then 1.0 else Times(TagProduct(mods, tags[..|tags| - 1]), TagFactor(mods, tags[|tags| - 1]))
  }

  /** `modifier.multiplier` when the modifier names the event, else no factor. */
  function ModifierFactor(m: EventModifier, id: string): real {
    if m.eventId == id then m.multiplier else 1.0
  }

  /** The product of the multipliers of the event modifiers naming the event, in order. */
  function ModifierProduct(mods: seq<EventModifier>, id: string): real {
    if mods == [] then 1.0 else Times(ModifierProduct(mods[..|mods| - 1], id), ModifierFactor(mods[|mods| - 1], id))
  }

  /** `Math.max(0.1, event.priority || 1)`. */
  function BaseWeight(e: Event): (w: real)
    ensures w >= 0.1
    ensures e.priority == 0.0 ==> w == 1.0
    ensures e.priority >= 0.1 ==> w == e.priority
  {
    Max(0.1, if e.priority != 0.0 then e.priority else 1.0)
  }

  /** The weight of an event: the base, times the tag and event modifiers, floored at zero. */
  function EventWeight(e: Event, st: PlayerState): (w: real)
    ensures w >= 0.0
  {
    Max(0.0, Times(Times(BaseWeight(e), TagProduct(st.tagProbabilityModifiers, e.tags)),
                   ModifierProduct(st.eventModifiers, e.id)))
  }

  lemma {:induction false} TagProductNeutral(mods: map<string, real>, tags: seq<string>)
    requires forall k :: 0 <= k < |tags| ==> tags[k] !in mods || mods[tags[k]] == 0.0
    ensures TagProduct(mods, tags) == 1.0
  {
    if tags != [] {
      TagProductNeutral(mods, tags[..|tags| - 1]);
    }
  }

  lemma {:induction false} ModifierProductNeutral(mods: seq<EventModifier>, id: string)
    requires forall k :: 0 <= k < |mods| ==> mods[k].eventId != id
    ensures ModifierProduct(mods, id) == 1.0
  {
    if mods != [] {
      ModifierProductNeutral(mods[..|mods| - 1], id);
    }
  }

  /** Without applicable modifiers the weight is the base weight, which is positive. */
  lemma UnmodifiedWeight(e: Event, st: PlayerState)
    requires forall k :: 0 <= k < |e.tags| ==> e.tags[k] !in st.tagProbabilityModifiers || st.tagProbabilityModifiers[e.tags[k]] == 0.0
    requires forall k :: 0 <= k < |st.eventModifiers| ==> st.eventModifiers[k].eventId != e.id
    ensures EventWeight(e, st) == BaseWeight(e) && EventWeight(e, st) >= 0.1
  {
    TagProductNeutral(st.tagProbabilityModifiers, e.tags);
    ModifierProductNeutral(st.eventModifiers, e.id);
  }

  /** A modifier of zero for the event removes it from the draw. */
  lemma {:induction false} ZeroModifierSilences(e: Event, st: PlayerState, i: nat)
    requires i < |st.eventModifiers| && st.eventModifiers[i] == EventModifier(e.id, 0.0)
    ensures EventWeight(e, st) == 0.0
  {
    ModifierProductZero(st.eventModifiers, e.id, i);
  }

  lemma {:induction false} ModifierProductZero(mods: seq<EventModifier>, id: string, i: nat)
    requires i < |mods| && mods[i] == EventModifier(id, 0.0)
    ensures ModifierProduct(mods, id) == 0.0
  {
    var n := |mods| - 1;
    if i < n {
      ModifierProductZero(mods[..n], id, i);
    }
  }

  function Weights(events: seq<Event>, st: PlayerState): (w: seq<real>)
    ensures |w| == |events|
    ensures forall k :: 0 <= k < |w| ==> w[k] >= 0.0
    ensures Sum(w) >= 0.0
  {
    var w := seq(|events|, k requires 0 <= k < |events| => EventWeight(events[k], st));
    SumNonNegative(w);
    w
  }

  /**
   * The event `findTriggerableEvent` returns for the draw r: none when no
   * event is eligible or the weights add up to zero, otherwise the roulette
   * pick among the eligible events.
   */
  function TriggerableEvent(events: seq<Event>, st: PlayerState, showTest: bool, r: Unit): Option<Event> {
    var avail := Available(events, st, showTest);
    if avail == [] then None
    else
      var w := Weights(avail, st);
      if Sum(w) <= 0.0 then None else Some(avail[Roulette(w, r)])
  }

  /** The tag loop of the weight: multiply by each truthy tag modifier in turn. */
  method ApplyTagModifiers(w0: real, tags: seq<string>, mods: map<string, real>) returns (w: real)
    ensures w == Times(w0, TagProduct(mods, tags))
  {
    w := w0;
    var i := 0;
    while i < |tags|
      invariant 0 <= i <= |tags|
      invariant w == Times(w0, TagProduct(mods, tags[..i]))
    {
      var tag := tags[i];
      assert tags[..i + 1][..i] == tags[..i];
      Associate(w0, TagProduct(mods, tags[..i]), TagFactor(mods, tag));
      if tag in mods && mods[tag] != 0.0 {
        w := w * mods[tag];
      }
      i := i + 1;
    }
    assert tags[..i] == tags;
  }

  /** The modifier loop of the weight: multiply by the multiplier of each modifier naming the event. */
  method ApplyEventModifiers(w0: real, modifiers: seq<EventModifier>, id: string) returns (w: real)
    ensures w == Times(w0, ModifierProduct(modifiers, id))
  {
    w := w0;
    var j := 0;
    while j < |modifiers|
      invariant 0 <= j <= |modifiers|
      invariant w == Times(w0, ModifierProduct(modifiers[..j], id))
    {
      var m := modifiers[j];
      assert modifiers[..j + 1][..j] == modifiers[..j];
      Associate(w0, ModifierProduct(modifiers[..j], id), ModifierFactor(m, id));
      if m.eventId == id {
        w := w * m.multiplier;
      }
      j := j + 1;
    }
    assert modifiers[..j] == modifiers;
  }

  /** The weight of one event, as the `available.map` callback computes it. */
  method ComputeWeight(e: Event, st: PlayerState) returns (w: real)
    ensures w == EventWeight(e, st)
  {
    var finalWeight := BaseWeight(e);
    finalWeight := ApplyTagModifiers(finalWeight, e.tags, st.tagProbabilityModifiers);
    finalWeight := ApplyEventModifiers(finalWeight, st.eventModifiers, e.id);
    w := Max(0.0, finalWeight);
  }

  lemma Associate(a: real, b: real, c: real)
    ensures Times(a, Times(b, c)) == Times(Times(a, b), c)
    ensures Times(a, 1.0) == a
  {
  }

  /** `available.map(...)`: the weight of every eligible event, in order. */
  method ComputeWeights(available: seq<Event>, st: PlayerState) returns (weights: seq<real>)
    ensures weights == Weights(available, st)
  {
    weights := [];
    var i := 0;
    while i < |available|
      invariant 0 <= i <= |available|
      invariant |weights| == i
      invariant forall k :: 0 <= k < i ==> weights[k] == EventWeight(available[k], st)
    {
      var w := ComputeWeight(available[i], st);
      weights := weights + [w];
      i := i + 1;
    }
  }

  /** `findTriggerableEvent`: filter, weigh, and spin once. */
  method FindTriggerableEvent(events: seq<Event>, st: PlayerState, showTest: bool, r: Unit) returns (found: Option<Event>)
    requires EventsDefined(events, st, showTest)
    ensures found == TriggerableEvent(events, st, showTest, r)
  {
    var available := Available(events, st, showTest);
    if |available| == 0 {
      return None;
    }
    var weights := ComputeWeights(available, st);
    var totalWeight := Sum(weights);
    if totalWeight <= 0.0 {
      return None;
    }
    var pick := Spin(weights, DrawTarget(r, totalWeight));
    RouletteSpin(weights, r);
    if pick.Some? {
      return Some(available[pick.value]);
    }
    return Some(available[|available| - 1]);
  }

  /**
   * The event found is one of the events and passes every check of the
   * filter: it is not meta, not a test event while they are hidden, not a
   * unique event already triggered, not locked, and its conditions hold.
   */
  lemma TriggerableEventEligible(events: seq<Event>, st: PlayerState, showTest: bool, r: Unit)
    requires TriggerableEvent(events, st, showTest, r).Some?
    ensures var e := TriggerableEvent(events, st, showTest, r).value;
      e in events && "meta" !in e.tags && (showTest || "test" !in e.tags)
      && !(e.isUnique && e.id in st.triggeredEventIds)
      && !(e.requiresUnlock && e.id !in st.unlockedEventIds)
      && forall k :: 0 <= k < |e.conditions| ==> IsConditionMet(e.conditions[k], st)
  {
    var avail := Available(events, st, showTest);
    var w := Weights(avail, st);
    AvailableMembers(events, st, showTest);
    assert avail[Roulette(w, r)] in avail;
  }

  /**
   * No event is found exactly when none is eligible or all eligible weights
   * are zero; otherwise the event found is the first whose running weight
   * reaches `r * total`.
   */
  lemma TriggerableEventRoulette(events: seq<Event>, st: PlayerState, showTest: bool, r: Unit)
    ensures var avail := Available(events, st, showTest);
      TriggerableEvent(events, st, showTest, r).None? <==> avail == [] || Sum(Weights(avail, st)) == 0.0
    ensures var avail := Available(events, st, showTest);
      var w := Weights(avail, st);
      avail != [] && Sum(w) > 0.0 ==>
        exists i :: FirstReaching(w, DrawTarget(r, Sum(w))) == Some(i) && TriggerableEvent(events, st, showTest, r) == Some(avail[i])
  {
    var avail := Available(events, st, showTest);
    if avail != [] {
      var w := Weights(avail, st);
      forall k | 0 <= k < |w| ensures w[k] >= 0.0 { }
      SumNonNegative(w);
      if Sum(w) > 0.0 {
        RouletteIsFirstReaching(w, r);
      }
    }
  }

  // ---------------------------------------------------------------------------
  // Choosing automatically

  /** A choice can be taken: its conditions hold and it adds no tag conflicting with the player's. */
  predicate ChoiceAllowed(table: ConflictMap, c: Choice, st: PlayerState) {
    AllMet(c.conditions, st) && !ChoiceAddsConflictingTag(table, c, st.tags)
  }

  /** Every choice's conditions can be evaluated as far as `every` reaches. */
  predicate ChoicesDefined(choices: seq<Choice>, st: PlayerState) {
    forall k :: 0 <= k < |choices| ==> AllMetDefined(choices[k].conditions, st)
  }

  /** `(choices || []).filter(...)`: the allowed choices, in order. */
  function ValidChoices(table: ConflictMap, choices: seq<Choice>, st: PlayerState): seq<Choice> {
    if choices == [] then []
    else (if ChoiceAllowed(table, choices[0], st) then [choices[0]] else []) + ValidChoices(table, choices[1..], st)
  }

  /** The filter keeps exactly the allowed choices. */
  lemma {:induction false} ValidChoicesMembers(table: ConflictMap, choices: seq<Choice>, st: PlayerState)
    ensures forall c :: c in ValidChoices(table, choices, st) <==> c in choices && ChoiceAllowed(table, c, st)
  {
    if choices != [] {
      ValidChoicesMembers(table, choices[1..], st);
      assert choices == [choices[0]] + choices[1..];
    }
  }

  /** `choice.magnitude || 1`. */
  function Magnitude(c: Choice): real {
    if c.magnitude != 0.0 then c.magnitude else 1.0
  }

  /** `(player[choice.worldview] || 0) * (choice.magnitude || 1)`. */
  function Tendency(c: Choice, st: PlayerState): real {
    Times(StatOf(st, c.worldview).GetOr(0.0), Magnitude(c))
  }

  /** `Math.max(0.1, worldviewForce + Math.random() * 40)`. */
  function ChoiceScore(c: Choice, st: PlayerState, impulse: Unit): (s: real)
    ensures s >= 0.1
    ensures s >= Tendency(c, st) + impulse * 40.0
  {
    Max(0.1, Tendency(c, st) + impulse * 40.0)
  }

  /** The scores of the valid choices, the k-th drawing impulse k. */
  function Scores(cs: seq<Choice>, st: PlayerState, impulses: nat -> Unit): (w: seq<real>)
    ensures |w| == |cs|
    ensures forall k :: 0 <= k < |w| ==> w[k] >= 0.1 && w[k] >= Tendency(cs[k], st) + impulses(k) * 40.0
    ensures cs != [] ==> Sum(w) > 0.0
  {
    var w := seq(|cs|, k requires 0 <= k < |cs| => ChoiceScore(cs[k], st, impulses(k)));
    assert forall k :: 0 <= k < |w| ==> w[k] == ChoiceScore(cs[k], st, impulses(k)) && w[k] >= 0.1;
    if cs != [] then SumAtLeastLast(w); w else w
  }

  /**
   * `parseStatValue` of the text parser reads a stat as `stat_check` does,
   * a missing name as 0 and the alive flag as 1 or 0; a variable of the same
   * name shadows all of them.
   */
  lemma StatValueAgreesWithStatOf(name: string, st: PlayerState)
    ensures st.variables.Some? && name in st.variables.value ==>
      StatValue(name, st) == OrZero(ToNumber(st.variables.value[name]))
    ensures (st.variables.None? || name !in st.variables.value) && name != "isAlive" ==>
      StatValue(name, st) == (if StatOf(st, name).Some? then StatOf(st, name).value else 0.0)
    ensures (st.variables.None? || name !in st.variables.value) && name == "isAlive" ==>
      (StatValue(name, st) == 1.0 <==> st.isAlive) && (StatValue(name, st) == 0.0 || StatValue(name, st) == 1.0)
  {
  }

  /** The choice `makeChoice` takes: none without a valid choice, else the roulette pick by score. */
  function AutoChoice(table: ConflictMap, choices: seq<Choice>, st: PlayerState, impulses: nat -> Unit, r: Unit): Option<Choice> {
    var valid := ValidChoices(table, choices, st);
    if valid == [] then None else Some(valid[Roulette(Scores(valid, st, impulses), r)])
  }

  /** `makeChoice`: filter, score each valid choice with its own impulse, then spin once. */
  method MakeChoice(table: ConflictMap, choices: seq<Choice>, st: PlayerState, impulses: nat -> Unit, r: Unit)
    returns (choice: Option<Choice>)
    requires ChoicesDefined(choices, st)
    ensures choice == AutoChoice(table, choices, st, impulses, r)
  {
    var validChoices := ValidChoices(table, choices, st);
    if |validChoices| == 0 {
      return None;
    }
    var scores := Scores(validChoices, st, impulses);
    var totalScore := Sum(scores);
    var pick := Spin(scores, DrawTarget(r, totalScore));
    RouletteSpin(scores, r);
    if pick.Some? {
      return Some(validChoices[pick.value]);
    }
    return Some(validChoices[|validChoices| - 1]);
  }

  /** A non-empty list of non-negative weights adds up to at least its last weight. */
  lemma SumAtLeastLast(w: seq<real>)
    requires |w| > 0 && forall k :: 0 <= k < |w| ==> w[k] >= 0.0
    ensures Sum(w) >= w[|w| - 1]
  {
    var init := w[..|w| - 1];
    forall k | 0 <= k < |init| ensures init[k] >= 0.0 {
      assert init[k] == w[k];
    }
    SumNonNegative(init);
  }

  /**
   * The automatic choice is a valid one: it belongs to the event, its
   * conditions hold and it adds no conflicting tag; there is none exactly
   * when no choice is valid.
   */
  lemma AutoChoiceValid(table: ConflictMap, choices: seq<Choice>, st: PlayerState, impulses: nat -> Unit, r: Unit)
    ensures var c := AutoChoice(table, choices, st, impulses, r);
      c.Some? ==> c.value in choices && AllMet(c.value.conditions, st) && !ChoiceAddsConflictingTag(table, c.value, st.tags)
    ensures AutoChoice(table, choices, st, impulses, r).None? <==> forall c :: c in choices ==> !ChoiceAllowed(table, c, st)
  {
    var valid := ValidChoices(table, choices, st);
    ValidChoicesMembers(table, choices, st);
    if valid != [] {
      var w := Scores(valid, st, impulses);
      assert valid[Roulette(w, r)] in valid;
    } else {
      assert forall c :: c in choices ==> !ChoiceAllowed(table, c, st);
    }
  }

  /**
   * Every score being at least 0.1, the total is positive and the fallback
   * to the last choice is never taken: the pick is the first valid choice
   * whose running score reaches `r * total`.
   */
  lemma AutoChoiceFirstReaching(table: ConflictMap, choices: seq<Choice>, st: PlayerState, impulses: nat -> Unit, r: Unit)
    ensures var valid := ValidChoices(table, choices, st);
      var w := Scores(valid, st, impulses);
      valid != [] ==> (Sum(w) > 0.0 && FirstReaching(w, DrawTarget(r, Sum(w))).Some?
        && AutoChoice(table, choices, st, impulses, r) == Some(valid[FirstReaching(w, DrawTarget(r, Sum(w))).value]))
  {
    var valid := ValidChoices(table, choices, st);
    if valid != [] {
      var w := Scores(valid, st, impulses);
      SumAtLeastLast(w);
      RouletteIsFirstReaching(w, r);
    }
  }

  // ---------------------------------------------------------------------------
  // Processing an event

  /** The line logged when the player has no valid choice. */
  const LOST_MESSAGE: string := "> 你感到一阵迷茫，不知何去何从。"

  /** What a choice resolves to: the feedback to log and the outcomes to apply. */
  datatype Resolution = Resolution(feedback: string, outcomes: seq<Outcome>)

  /** `r.weight || 1`. */
  function BucketWeights(results: seq<ResultBucket>): (w: seq<real>)
    ensures |w| == |results|
    ensures forall k :: 0 <= k < |w| ==> w[k] != 0.0
    ensures forall k :: 0 <= k < |w| && results[k].weight != 0.0 ==> w[k] == results[k].weight
    ensures forall k :: 0 <= k < |w| && results[k].weight >= 0.0 ==> w[k] > 0.0
  {
    seq(|results|, k requires 0 <= k < |results| => if results[k].weight != 0.0 then results[k].weight else 1.0)
  }

  /**
   * The result of a choice: the roulette pick among its buckets when it has
   * any (the last bucket when the loop runs out), else its flat feedback
   * and outcomes.
   */
  function Resolve(c: Choice, r: Unit): Resolution {
    if |c.results| > 0 then
      var b := c.results[Roulette(BucketWeights(c.results), r)];
      Resolution(b.feedback, b.outcomes)
    else Resolution(c.feedback, c.outcomes.GetOr([]))
  }

  /** A choice with buckets resolves to one of them; one without takes its flat feedback and outcomes. */
  lemma ResolvePicksBucket(c: Choice, r: Unit)
    ensures |c.results| > 0 ==>
      exists k :: 0 <= k < |c.results| && Resolve(c, r) == Resolution(c.results[k].feedback, c.results[k].outcomes)
    ensures |c.results| == 0 ==> (Resolve(c, r).feedback == c.feedback
      && Resolve(c, r).outcomes == (if c.outcomes.Some? then c.outcomes.value else []))
  {
    if |c.results| > 0 {
      var k := Roulette(BucketWeights(c.results), r);
      assert Resolve(c, r) == Resolution(c.results[k].feedback, c.results[k].outcomes);
    }
  }

  /** With non-negative weights the fallback is dead: the bucket is the first whose running weight reaches `r * total`. */
  lemma ResolveFirstReaching(c: Choice, r: Unit)
    requires |c.results| > 0 && forall k :: 0 <= k < |c.results| ==> c.results[k].weight >= 0.0
    ensures var w := BucketWeights(c.results);
      Sum(w) > 0.0 && FirstReaching(w, DrawTarget(r, Sum(w))).Some?
      && Resolve(c, r) == Resolution(c.results[FirstReaching(w, DrawTarget(r, Sum(w))).value].feedback,
                                     c.results[FirstReaching(w, DrawTarget(r, Sum(w))).value].outcomes)
  {
    var w := BucketWeights(c.results);
    assert w[|w| - 1] > 0.0;
    SumAtLeastLast(w);
    RouletteIsFirstReaching(w, r);
  }

  /** The player after the event text is logged and the event recorded as triggered. */
  function RecordedState(st: PlayerState, event: Event, td: nat -> Unit): PlayerState {
    var title := ParseText(event.title, Some(st), td);
    var text := ParseText(event.text, Some(st), td);
    var s := st.(log := PushLog(st.log, LogEntry(EventLine(title, text), "event")));
    s.(triggeredEventIds := s.triggeredEventIds + {event.id})
  }

  /** The player after a choice is recorded and its result resolved and applied. */
  function ChosenState(st: PlayerState, c: Choice, td: nat -> Unit, r: Unit): PlayerState {
    var s1 := if c.id != "" then st.(madeChoices := st.madeChoices + {c.id}) else st;
    var s2 := s1.(log := PushLog(s1.log, LogEntry(Line("> " + ParseText(c.text, Some(s1), td)), "choice")));
    var res := Resolve(c, r);
    var s3 := if res.feedback != "" then s2.(log := PushLog(s2.log, LogEntry(Line(ParseText(res.feedback, Some(s2), td)), "feedback")))
              else s2;
    ApplyAll(s3, res.outcomes)
  }

  /**
   * The player after `processEvent`. Every text goes through the template
   * parser with the player as it is at that moment, all with the draws `td`;
   * `impulses` and `r` drive the automatic choice and `rb` the bucket.
   */
  function ProcessedState(st: PlayerState, event: Event, table: ConflictMap, td: nat -> Unit,
                          impulses: nat -> Unit, r: Unit, rb: Unit): PlayerState {
    var s := RecordedState(st, event, td);
    match AutoChoice(table, event.choices, s, impulses, r)
    case Some(c) => ChosenState(s, c, td, rb)
    case None => s.(log := PushLog(s.log, LogEntry(Line(LOST_MESSAGE), "system")))
  }

  /** Taking a choice records its id when it has one and leaves the triggered events alone. */
  lemma ChosenStateBookkeeping(st: PlayerState, c: Choice, td: nat -> Unit, r: Unit)
    ensures ChosenState(st, c, td, r).triggeredEventIds == st.triggeredEventIds
    ensures ChosenState(st, c, td, r).madeChoices == if c.id != "" then st.madeChoices + {c.id} else st.madeChoices
  {
    var s1 := if c.id != "" then st.(madeChoices := st.madeChoices + {c.id}) else st;
    var s2 := s1.(log := PushLog(s1.log, LogEntry(Line("> " + ParseText(c.text, Some(s1), td)), "choice")));
    var res := Resolve(c, r);
    var s3 := if res.feedback != "" then s2.(log := PushLog(s2.log, LogEntry(Line(ParseText(res.feedback, Some(s2), td)), "feedback")))
              else s2;
    assert ChosenState(st, c, td, r) == ApplyAll(s3, res.outcomes);
    assert s3.triggeredEventIds == st.triggeredEventIds && s3.madeChoices == s1.madeChoices;
  }

  /**
   * `processEvent` always records the event as triggered, and records the
   * id of the choice taken when the choice has one and no other choice id.
   */
  lemma ProcessedRecords(st: PlayerState, event: Event, table: ConflictMap, td: nat -> Unit,
                         impulses: nat -> Unit, r: Unit, rb: Unit)
    ensures var s := ProcessedState(st, event, table, td, impulses, r, rb);
      s.triggeredEventIds == st.triggeredEventIds + {event.id}
    ensures var s := ProcessedState(st, event, table, td, impulses, r, rb);
      var c := AutoChoice(table, event.choices, RecordedState(st, event, td), impulses, r);
      s.madeChoices == if c.Some? && c.value.id != "" then st.madeChoices + {c.value.id} else st.madeChoices
  {
    var s := RecordedState(st, event, td);
    var c := AutoChoice(table, event.choices, s, impulses, r);
    if c.Some? {
      ChosenStateBookkeeping(s, c.value, td, rb);
    }
  }

  /** Without a valid choice only the log and the triggered events change, and the last line is the system line. */
  lemma ProcessedWithoutChoice(st: PlayerState, event: Event, table: ConflictMap, td: nat -> Unit,
                               impulses: nat -> Unit, r: Unit, rb: Unit)
    requires AutoChoice(table, event.choices, RecordedState(st, event, td), impulses, r).None?
    ensures var s := ProcessedState(st, event, table, td, impulses, r, rb);
      s.log[0] == LogEntry(Line(LOST_MESSAGE), "system")
      && s == st.(log := s.log, triggeredEventIds := st.triggeredEventIds + {event.id})
  {
  }

  /** The bucket loop: weights defaulting to 1, one spin, the last bucket as fallback. */
  method PickBucket(results: seq<ResultBucket>, r: Unit) returns (bucket: ResultBucket)
    requires |results| > 0
    ensures bucket == results[Roulette(BucketWeights(results), r)]
  {
    var weights := BucketWeights(results);
    var totalWeight := Sum(weights);
    var pick := Spin(weights, DrawTarget(r, totalWeight));
    RouletteSpin(weights, r);
    if pick.Some? {
      return results[pick.value];
    }
    return results[|results| - 1];
  }

  /** Record a choice and apply its result: the branch of `processEvent` with a choice. */
  /** The feedback and outcomes of a choice: from the picked bucket when it has buckets. */
  method ResolveChoice(c: Choice, rb: Unit) returns (res: Resolution)
    ensures res == Resolve(c, rb)
  {
    if |c.results| > 0 {
      var bucket := PickBucket(c.results, rb);
      res := Resolution(bucket.feedback, bucket.outcomes);
    } else {
      res := Resolution(c.feedback, c.outcomes.GetOr([]));
    }
  }

  method TakeChoice(p: Player, c: Choice, td: nat -> Unit, rb: Unit)
    requires p.Valid()
    modifies p`log, p`madeChoices, p`stats, p`statMultipliers, p`inventory, p`unlockedEventIds
    ensures p.Valid()
    ensures p.View() == ChosenState(old(p.View()), c, td, rb)
  {
    if c.id != "" {
      p.madeChoices := p.madeChoices + {c.id};
    }
    var choiceText := ParseText(c.text, Some(p.View()), td);
    p.AddLog(Line("> " + choiceText), "choice");
    var res := ResolveChoice(c, rb);
    if res.feedback != "" {
      var feedback := ParseText(res.feedback, Some(p.View()), td);
      p.AddLog(Line(feedback), "feedback");
    }
    p.ApplyOutcomes(res.outcomes);
  }

  /** The event's title and text are logged and the event is recorded as triggered. */
  method RecordEvent(p: Player, event: Event, td: nat -> Unit)
    requires p.Valid()
    modifies p`log, p`triggeredEventIds
    ensures p.Valid()
    ensures p.View() == RecordedState(old(p.View()), event, td)
  {
    var title := ParseText(event.title, Some(p.View()), td);
    var text := ParseText(event.text, Some(p.View()), td);
    p.AddLog(EventLine(title, text), "event");
    p.triggeredEventIds := p.triggeredEventIds + {event.id};
  }

  /** `processEvent`. */
  method ProcessEvent(p: Player, event: Event, table: ConflictMap, td: nat -> Unit,
                      impulses: nat -> Unit, r: Unit, rb: Unit)
    requires p.Valid()
    requires ChoicesDefined(event.choices, RecordedState(p.View(), event, td))
    modifies p`log, p`triggeredEventIds, p`madeChoices, p`stats, p`statMultipliers, p`inventory, p`unlockedEventIds
    ensures p.Valid()
    ensures p.View() == ProcessedState(old(p.View()), event, table, td, impulses, r, rb)
  {
    RecordEvent(p, event, td);
    var choice := MakeChoice(table, event.choices, p.View(), impulses, r);
    if choice.Some? {
      TakeChoice(p, choice.value, td, rb);
    } else {
      p.AddLog(Line(LOST_MESSAGE), "system");
    }
  }

  // ---------------------------------------------------------------------------
  // Manual mode candidates

  /** A choice offered in manual mode, with the event it belongs to. */
  datatype Candidate = Candidate(choice: Choice, parentId: string, parentTitle: string, parentText: string)

  function WithParent(c: Choice, e: Event): Candidate {
    Candidate(c, e.id, e.title, e.text)
  }

  /** A choice goes to the special (or normal) list: no tag conflict, the right kind, conditions met. */
  predicate Keeps(table: ConflictMap, c: Choice, special: bool, st: PlayerState) {
    !ChoiceAddsConflictingTag(table, c, st.tags) && c.isSpecial == special && AllMet(c.conditions, st)
  }

  /** The candidates of one event's choices `cs` for one list, in order. */
  function EventCandidates(table: ConflictMap, e: Event, cs: seq<Choice>, special: bool, st: PlayerState): seq<Candidate> {
    if cs == [] then []
    else
      var c := cs[|cs| - 1];
      EventCandidates(table, e, cs[..|cs| - 1], special, st) + (if Keeps(table, c, special, st) then [WithParent(c, e)] else [])
  }

  /** One candidate list over the given events, event by event. */
  function Candidates(table: ConflictMap, events: seq<Event>, special: bool, st: PlayerState): seq<Candidate> {
    if events == [] then []
    else
      var e := events[|events| - 1];
      Candidates(table, events[..|events| - 1], special, st) + EventCandidates(table, e, e.choices, special, st)
  }

  /** Every candidate of an event is one of its choices that the list keeps. */
  lemma {:induction false} EventCandidatesKept(table: ConflictMap, e: Event, cs: seq<Choice>, special: bool, st: PlayerState)
    ensures forall x :: x in EventCandidates(table, e, cs, special, st) ==>
      Keeps(table, x.choice, special, st) && x.choice in cs && x == WithParent(x.choice, e)
  {
    if cs != [] {
      var init := cs[..|cs| - 1];
      EventCandidatesKept(table, e, init, special, st);
      assert forall x :: x in init ==> x in cs;
    }
  }

  /**
   * Every candidate is a choice of one of the events, carries that event as
   * its parent, and is kept by its list: no tag conflict, the right kind,
   * conditions met.
   */
  lemma {:induction false} CandidatesKept(table: ConflictMap, events: seq<Event>, special: bool, st: PlayerState)
    ensures forall x :: x in Candidates(table, events, special, st) ==>
      Keeps(table, x.choice, special, st)
      && exists i :: 0 <= i < |events| && x == WithParent(x.choice, events[i]) && x.choice in events[i].choices
  {
    if events != [] {
      var n := |events| - 1;
      var init := events[..n];
      CandidatesKept(table, init, special, st);
      EventCandidatesKept(table, events[n], events[n].choices, special, st);
      forall x | x in Candidates(table, init, special, st)
        ensures exists i :: 0 <= i < |events| && x == WithParent(x.choice, events[i]) && x.choice in events[i].choices
      {
        var i :| 0 <= i < |init| && x == WithParent(x.choice, init[i]) && x.choice in init[i].choices;
        assert init[i] == events[i];
      }
    }
  }

  lemma EventCandidatesStep(table: ConflictMap, e: Event, cs: seq<Choice>, j: nat, special: bool, st: PlayerState)
    requires j < |cs|
    ensures EventCandidates(table, e, cs[..j + 1], special, st)
      == EventCandidates(table, e, cs[..j], special, st) + (if Keeps(table, cs[j], special, st) then [WithParent(cs[j], e)] else [])
  {
    assert cs[..j + 1][..j] == cs[..j];
  }

  lemma CandidatesStep(table: ConflictMap, events: seq<Event>, i: nat, special: bool, st: PlayerState)
    requires i < |events|
    ensures Candidates(table, events[..i + 1], special, st)
      == Candidates(table, events[..i], special, st) + EventCandidates(table, events[i], events[i].choices, special, st)
  {
    assert events[..i + 1][..i] == events[..i];
  }

  /** `Math.max(1, 10 + tendency * (choice.magnitude || 1))`. */
  function NormalWeight(c: Candidate, st: PlayerState): (w: real)
    ensures w >= 1.0
  {
    Max(1.0, 10.0 + Tendency(c.choice, st))
  }

  /** `normalChoices.map(...)`: the weight of every remaining candidate, in order. */
  function NormalWeights(pool: seq<Candidate>, st: PlayerState): (w: seq<real>)
    ensures |w| == |pool|
  {
    if pool == [] then [] else [NormalWeight(pool[0], st)] + NormalWeights(pool[1..], st)
  }

  lemma {:induction false} NormalWeightsAt(pool: seq<Candidate>, st: PlayerState)
    ensures forall k :: 0 <= k < |pool| ==> NormalWeights(pool, st)[k] == NormalWeight(pool[k], st)
  {
    if pool != [] {
      NormalWeightsAt(pool[1..], st);
    }
  }

  /** `splice(i, 1)`: the pool without its i-th element. */
  function Without(pool: seq<Candidate>, i: nat): (r: seq<Candidate>)
    requires i < |pool|
    ensures |r| == |pool| - 1
  {
    pool[..i] + pool[i + 1..]
  }

  /** Splicing out one element removes exactly one occurrence of it. */
  lemma WithoutMultiset(pool: seq<Candidate>, i: nat)
    requires i < |pool|
    ensures multiset(Without(pool, i)) + multiset{pool[i]} == multiset(pool)
  {
    assert pool == pool[..i] + [pool[i]] + pool[i + 1..];
  }

  /** A rule naming the index drawn from the remaining pool in round j. */
  type Picker = (seq<Candidate>, nat) -> nat

  /** The rule always names an index of a non-empty pool. */
  ghost predicate PicksInPool(pick: Picker) {
    forall p: seq<Candidate>, j: nat :: p != [] ==> pick(p, j) < |p|
  }

  /** A round of the manual draw: the roulette over the remaining pool's normal weights. */
  function NormalPick(pool: seq<Candidate>, st: PlayerState, r: Unit): (i: nat)
    ensures pool != [] ==> i < |pool|
  {
    if pool == [] then 0 else Roulette(NormalWeights(pool, st), r)
  }

  /** The manual draw's rule: round j spins with draw `spins(j)`. */
  function NormalPicker(st: PlayerState, spins: nat -> Unit): (pick: Picker)
    ensures PicksInPool(pick)
  {
    assert forall p: seq<Candidate>, j: nat :: p != [] ==> NormalPick(p, st, spins(j)) < |p|;
    (p: seq<Candidate>, j: nat) => NormalPick(p, st, spins(j))
  }

  /** `pick` agrees with the manual draw's rule wherever that rule is spun. */
  ghost predicate IsNormalPicker(pick: Picker, st: PlayerState, spins: nat -> Unit) {
    forall p: seq<Candidate>, j: nat {:trigger NormalPick(p, st, spins(j))} :: pick(p, j) == NormalPick(p, st, spins(j))
  }

  lemma NormalPickerIs(st: PlayerState, spins: nat -> Unit)
    ensures IsNormalPicker(NormalPicker(st, spins), st, spins)
  {
  }

  /**
   * The choices drawn while `need` more are wanted: each round takes the
   * index the rule names for the remaining pool and removes it from the pool.
   */
  function DrawFrom(pool: seq<Candidate>, need: int, pick: Picker, k: nat): seq<Candidate>
    requires PicksInPool(pick)
    decreases |pool|
  {
    if need <= 0 || pool == [] then []
    else
      var i := pick(pool, k);
      [pool[i]] + DrawFrom(Without(pool, i), need - 1, pick, k + 1)
  }

  /** One round unfolds the draw by one pick. */
  lemma DrawRound(pool: seq<Candidate>, need: int, pick: Picker, k: nat)
    requires need > 0 && pool != [] && PicksInPool(pick)
    ensures var i := pick(pool, k);
      i < |pool| && DrawFrom(pool, need, pick, k) == [pool[i]] + DrawFrom(Without(pool, i), need - 1, pick, k + 1)
  {
  }

  /** As many as wanted are drawn, or the whole pool. */
  lemma {:induction false} DrawFromCount(pool: seq<Candidate>, need: int, pick: Picker, k: nat)
    requires PicksInPool(pick)
    ensures |DrawFrom(pool, need, pick, k)| == (if need <= 0 then 0 else if need < |pool| then need else |pool|)
    decreases |pool|
  {
    if need > 0 && pool != [] {
      var i := pick(pool, k);
      DrawRound(pool, need, pick, k);
      DrawFromCount(Without(pool, i), need - 1, pick, k + 1);
    }
  }

  /** Drawing is without replacement: each candidate is drawn at most as often as it is in the pool. */
  lemma {:induction false} DrawFromPool(pool: seq<Candidate>, need: int, pick: Picker, k: nat)
    requires PicksInPool(pick)
    ensures multiset(DrawFrom(pool, need, pick, k)) <= multiset(pool)
    decreases |pool|
  {
    if need > 0 && pool != [] {
      var i := pick(pool, k);
      var rest0 := Without(pool, i);
      DrawRound(pool, need, pick, k);
      DrawFromPool(rest0, need - 1, pick, k + 1);
      WithoutMultiset(pool, i);
      OneMoreDrawn(DrawFrom(pool, need, pick, k), pool[i], rest0, pool, DrawFrom(rest0, need - 1, pick, k + 1));
    }
  }

  /** The sub-multiset bound survives putting one pick in front. */
  lemma OneMoreDrawn(r: seq<Candidate>, x: Candidate, rest0: seq<Candidate>, pool: seq<Candidate>, rest: seq<Candidate>)
    requires r == [x] + rest
    requires multiset(rest) <= multiset(rest0)
    requires multiset(rest0) + multiset{x} == multiset(pool)
    ensures multiset(r) <= multiset(pool)
  {
    assert multiset([x] + rest) == multiset{x} + multiset(rest);
  }

  /**
   * `getManualChoices(count)`: nothing when no event is eligible; else a
   * special choice with draw `gate < 0.5` (picked uniformly by `pick`),
   * followed by normal choices drawn without replacement until `count`,
   * each round spun by the roulette with draw `spins(j)`.
   */
  function ManualChoices(table: ConflictMap, events: seq<Event>, st: PlayerState, showTest: bool, count: int,
                         gate: Unit, pick: Unit, spins: nat -> Unit): seq<Candidate> {
    ManualWith(table, events, st, showTest, count, gate, pick, NormalPicker(st, spins))
  }

  /** The same offer for any rule `np` naming the normal pick of each round. */
  function ManualWith(table: ConflictMap, events: seq<Event>, st: PlayerState, showTest: bool, count: int,
                      gate: Unit, pick: Unit, np: Picker): seq<Candidate>
    requires PicksInPool(np)
  {
    var avail := Available(events, st, showTest);
    if avail == [] then []
    else Offer(Candidates(table, avail, true, st), Candidates(table, avail, false, st), count, gate, pick, np)
  }

  /** A special choice, picked uniformly by `pick`, when there is one and the draw `gate` is below 0.5. */
  function FirstOffer(special: seq<Candidate>, gate: Unit, pick: Unit): seq<Candidate> {
    if |special| > 0 && gate < 0.5 then [special[RandomIndex(pick, |special|)]] else []
  }

  /** The offer made from the two candidate lists: at most one special first, then the normal draw. */
  function Offer(special: seq<Candidate>, normal: seq<Candidate>, count: int, gate: Unit, pick: Unit, np: Picker): seq<Candidate>
    requires PicksInPool(np)
  {
    var first := FirstOffer(special, gate, pick);
    first + DrawFrom(normal, count - |first|, np, 0)
  }

  /** Two rules that agree everywhere draw the same choices. */
  lemma {:induction false} DrawFromAgree(pool: seq<Candidate>, need: int, p1: Picker, p2: Picker, k: nat)
    requires PicksInPool(p1) && PicksInPool(p2)
    requires forall p: seq<Candidate>, j: nat :: p1(p, j) == p2(p, j)
    ensures DrawFrom(pool, need, p1, k) == DrawFrom(pool, need, p2, k)
    decreases |pool|
  {
    if need > 0 && pool != [] {
      DrawFromAgree(Without(pool, p1(pool, k)), need - 1, p1, p2, k + 1);
    }
  }

  /** A rule agreeing with the roulette wherever it is spun agrees with it everywhere. */
  lemma NormalAgree(st: PlayerState, spins: nat -> Unit, np: Picker)
    requires IsNormalPicker(np, st, spins)
    ensures forall p: seq<Candidate>, j: nat :: np(p, j) == NormalPicker(st, spins)(p, j)
  {
    forall p: seq<Candidate>, j: nat ensures np(p, j) == NormalPicker(st, spins)(p, j) {
      assert NormalPicker(st, spins)(p, j) == NormalPick(p, st, spins(j));
    }
  }

  /** Two rules that agree everywhere make the same offer. */
  lemma OfferAgree(special: seq<Candidate>, normal: seq<Candidate>, count: int, gate: Unit, pick: Unit, p1: Picker, p2: Picker)
    requires PicksInPool(p1) && PicksInPool(p2)
    requires forall p: seq<Candidate>, j: nat :: p1(p, j) == p2(p, j)
    ensures Offer(special, normal, count, gate, pick, p1) == Offer(special, normal, count, gate, pick, p2)
  {
    DrawFromAgree(normal, count - |FirstOffer(special, gate, pick)|, p1, p2, 0);
  }

  /** Any rule agreeing with the roulette of the manual draw yields the specified offer. */
  lemma ManualWithNormal(table: ConflictMap, events: seq<Event>, st: PlayerState, showTest: bool, count: int,
                         gate: Unit, pick: Unit, spins: nat -> Unit, np: Picker)
    requires PicksInPool(np) && IsNormalPicker(np, st, spins)
    ensures ManualWith(table, events, st, showTest, count, gate, pick, np)
      == ManualChoices(table, events, st, showTest, count, gate, pick, spins)
  {
    NormalAgree(st, spins, np);
    var avail := Available(events, st, showTest);
    OfferAgree(Candidates(table, avail, true, st), Candidates(table, avail, false, st), count, gate, pick,
               np, NormalPicker(st, spins));
  }

  /** The choices of the eligible events can be evaluated. */
  predicate ManualDefined(events: seq<Event>, st: PlayerState, showTest: bool) {
    EventsDefined(events, st, showTest)
    && forall k :: 0 <= k < |events| && Eligible(events[k], st, showTest) ==> ChoicesDefined(events[k].choices, st)
  }

  /** The choices of every eligible event can be evaluated. */
  lemma AvailableDefined(events: seq<Event>, st: PlayerState, showTest: bool)
    requires ManualDefined(events, st, showTest)
    ensures forall k :: 0 <= k < |Available(events, st, showTest)| ==> ChoicesDefined(Available(events, st, showTest)[k].choices, st)
  {
    var avail := Available(events, st, showTest);
    AvailableMembers(events, st, showTest);
    forall k | 0 <= k < |avail| ensures ChoicesDefined(avail[k].choices, st) {
      assert avail[k] in events;
    }
  }

  /** The nested `forEach`: sort every choice of every event into the special and normal lists. */
  method CollectCandidates(table: ConflictMap, events: seq<Event>, st: PlayerState)
    returns (special: seq<Candidate>, normal: seq<Candidate>)
    requires forall k :: 0 <= k < |events| ==> ChoicesDefined(events[k].choices, st)
    ensures special == Candidates(table, events, true, st)
    ensures normal == Candidates(table, events, false, st)
  {
    special, normal := [], [];
    var i := 0;
    while i < |events|
      invariant 0 <= i <= |events|
      invariant special == Candidates(table, events[..i], true, st)
      invariant normal == Candidates(table, events[..i], false, st)
    {
      special, normal := CollectFromEvent(table, events[i], st, special, normal);
      CandidatesStep(table, events, i, true, st);
      CandidatesStep(table, events, i, false, st);
      i := i + 1;
    }
    assert events[..i] == events;
  }

  /** The inner `forEach` over one event's choices, appending to both lists. */
  method CollectFromEvent(table: ConflictMap, e: Event, st: PlayerState, special0: seq<Candidate>, normal0: seq<Candidate>)
    returns (special: seq<Candidate>, normal: seq<Candidate>)
    requires ChoicesDefined(e.choices, st)
    ensures special == special0 + EventCandidates(table, e, e.choices, true, st)
    ensures normal == normal0 + EventCandidates(table, e, e.choices, false, st)
  {
    special, normal := special0, normal0;
    var j := 0;
    while j < |e.choices|
      invariant 0 <= j <= |e.choices|
      invariant special == special0 + EventCandidates(table, e, e.choices[..j], true, st)
      invariant normal == normal0 + EventCandidates(table, e, e.choices[..j], false, st)
    {
      EventCandidatesStep(table, e, e.choices, j, true, st);
      EventCandidatesStep(table, e, e.choices, j, false, st);
      special, normal := SortChoice(table, e, e.choices[j], st, special, normal);
      j := j + 1;
    }
    assert e.choices[..j] == e.choices;
  }

  /**
   * The inner `forEach` callback: a choice whose outcomes would add a
   * conflicting tag is skipped; otherwise one whose conditions are met joins
   * the special or the normal list, as its `isSpecial` flag says.
   */
  method SortChoice(table: ConflictMap, e: Event, choice: Choice, st: PlayerState,
                    special0: seq<Candidate>, normal0: seq<Candidate>)
    returns (special: seq<Candidate>, normal: seq<Candidate>)
    requires AllMetDefined(choice.conditions, st)
    ensures special == special0 + (if Keeps(table, choice, true, st) then [WithParent(choice, e)] else [])
    ensures normal == normal0 + (if Keeps(table, choice, false, st) then [WithParent(choice, e)] else [])
  {
    special, normal := special0, normal0;
    var choiceConditionsMet := AllMet(choice.conditions, st);
    var hasTagConflict := ChoiceAddsConflictingTag(table, choice, st.tags);
    if hasTagConflict {
      return;
    }
    if choice.isSpecial && choiceConditionsMet {
      special := special + [WithParent(choice, e)];
    } else if !choice.isSpecial && choiceConditionsMet {
      normal := normal + [WithParent(choice, e)];
    }
  }


  /** With nothing more wanted or nothing left, the draw adds nothing. */
  lemma DrawDone(front: seq<Candidate>, pool: seq<Candidate>, need: int, pick: Picker, k: nat)
    requires PicksInPool(pick) && (need <= 0 || pool == [])
    ensures front + DrawFrom(pool, need, pick, k) == front
  {
    assert front + [] == front;
  }

  /** Moving the round's pick from the pool to the end of the list keeps the overall draw. */
  lemma DrawStep(front: seq<Candidate>, pool: seq<Candidate>, need: int, pick: Picker, k: nat, i: nat)
    requires need > 0 && pool != [] && PicksInPool(pick) && pick(pool, k) == i
    ensures i < |pool|
    ensures front + DrawFrom(pool, need, pick, k) == (front + [pool[i]]) + DrawFrom(Without(pool, i), need - 1, pick, k + 1)
  {
    DrawRound(pool, need, pick, k);
  }

  /**
   * One round of the `while` loop: the weights of the remaining pool and
   * their total, the `break` when the total is 0 or the pool is empty, then
   * `randomTarget = Math.random() * totalWeight` and the inner `for` loop.
   * With every weight at least 1 the break is taken exactly on an empty
   * pool, and the subtraction always stops at the index the rule names.
   */
  method SpinNormals(pool: seq<Candidate>, st: PlayerState, spins: nat -> Unit, k: nat, ghost pick: Picker)
    returns (found: Option<nat>)
    requires IsNormalPicker(pick, st, spins)
    ensures found.None? <==> pool == []
    ensures found.Some? ==> found.value < |pool| && found.value == pick(pool, k)
  {
    var weights := NormalWeights(pool, st);
    NormalWeightsAt(pool, st);
    var totalWeight := Sum(weights);
    SumAtLeastCount(weights);
    if totalWeight == 0.0 || |pool| == 0 {
      return None;
    }
    var target := DrawTarget(spins(k), totalWeight);
    found := Spin(weights, target);
    ReachedBelowTotal(weights, target);
    RouletteSpin(weights, spins(k));
    assert found.value == NormalPick(pool, st, spins(k));
  }

  /**
   * The `while` loop of `getManualChoices`: spin the remaining pool's
   * weights, move the pick from the pool to the list, until `count` are
   * listed or the pool is empty. The weights are at least 1, so the spin
   * always stops at an index.
   */
  method DrawLoop(start: seq<Candidate>, pool: seq<Candidate>, count: int, st: PlayerState, spins: nat -> Unit,
                  ghost pick: Picker)
    returns (finalChoices: seq<Candidate>)
    requires PicksInPool(pick) && IsNormalPicker(pick, st, spins)
    ensures finalChoices == start + DrawFrom(pool, count - |start|, pick, 0)
  {
    finalChoices := start;
    var normalChoices := pool;
    var k := 0;
    while |finalChoices| < count
      invariant finalChoices + DrawFrom(normalChoices, count - |finalChoices|, pick, k)
        == start + DrawFrom(pool, count - |start|, pick, 0)
      decreases |normalChoices|
    {
      var found := SpinNormals(normalChoices, st, spins, k, pick);
      if found.None? {
        break;
      }
      var i := found.value;
      var need := count - |finalChoices|;
      DrawStep(finalChoices, normalChoices, need, pick, k, i);
      finalChoices := finalChoices + [normalChoices[i]];
      normalChoices := Without(normalChoices, i);
      k := k + 1;
    }
    DrawDone(finalChoices, normalChoices, count - |finalChoices|, pick, k);
  }

  /** `getManualChoices`. */
  method GetManualChoices(table: ConflictMap, events: seq<Event>, st: PlayerState, showTest: bool, count: int,
                          gate: Unit, pick: Unit, spins: nat -> Unit, ghost np: Picker) returns (finalChoices: seq<Candidate>)
    requires ManualDefined(events, st, showTest)
    requires PicksInPool(np) && IsNormalPicker(np, st, spins)
    ensures finalChoices == ManualWith(table, events, st, showTest, count, gate, pick, np)
  {
    var availableEvents := Available(events, st, showTest);
    if |availableEvents| == 0 {
      return [];
    }
    AvailableDefined(events, st, showTest);
    var specialChoices, normalChoices := CollectCandidates(table, availableEvents, st);
    assert ManualWith(table, events, st, showTest, count, gate, pick, np)
      == Offer(specialChoices, normalChoices, count, gate, pick, np);
    finalChoices := [];
    if |specialChoices| > 0 && gate < 0.5 {
      finalChoices := [specialChoices[RandomIndex(pick, |specialChoices|)]];
    }
    assert finalChoices == FirstOffer(specialChoices, gate, pick);
    if |normalChoices| > 0 {
      finalChoices := DrawLoop(finalChoices, normalChoices, count, st, spins, np);
    } else {
      DrawDone(finalChoices, normalChoices, count - |finalChoices|, np, 0);
    }
  }

  /** Whatever is drawn without replacement comes from the pool. */
  lemma DrawnFromPool(drawn: seq<Candidate>, pool: seq<Candidate>)
    requires multiset(drawn) <= multiset(pool)
    ensures forall k :: 0 <= k < |drawn| ==> drawn[k] in pool
  {
    forall k | 0 <= k < |drawn| ensures drawn[k] in pool {
      assert drawn[k] in multiset(drawn);
    }
  }

  /** Everything offered comes from one of the two lists. */
  lemma OfferFromLists(special: seq<Candidate>, normal: seq<Candidate>, count: int, gate: Unit, pick: Unit, np: Picker)
    requires PicksInPool(np)
    ensures forall x :: x in Offer(special, normal, count, gate, pick, np) ==> x in special || x in normal
  {
    var first := FirstOffer(special, gate, pick);
    var drawn := DrawFrom(normal, count - |first|, np, 0);
    var r := Offer(special, normal, count, gate, pick, np);
    assert r == first + drawn;
    assert forall x :: x in first ==> x in special;
    DrawFromPool(normal, count - |first|, np, 0);
    DrawnFromPool(drawn, normal);
    PartsFrom(r, first, drawn, special, normal);
  }

  lemma PartsFrom(r: seq<Candidate>, first: seq<Candidate>, drawn: seq<Candidate>, special: seq<Candidate>, normal: seq<Candidate>)
    requires r == first + drawn
    requires forall x :: x in first ==> x in special
    requires forall k :: 0 <= k < |drawn| ==> drawn[k] in normal
    ensures forall x :: x in r ==> x in special || x in normal
  {
  }

  /** The normal part of an offer: each after the first is normal, and the count bounds. */
  lemma PartsShape(r: seq<Candidate>, first: seq<Candidate>, drawn: seq<Candidate>, normal: seq<Candidate>, count: int)
    requires r == first + drawn && |first| <= 1
    requires forall k :: 0 <= k < |drawn| ==> drawn[k] in normal
    requires forall x :: x in normal ==> !x.choice.isSpecial
    requires |drawn| == (if count - |first| <= 0 then 0 else if count - |first| < |normal| then count - |first| else |normal|)
    ensures forall k :: 1 <= k < |r| ==> !r[k].choice.isSpecial
    ensures |r| > 0 && r[0].choice.isSpecial ==> first != []
    ensures count >= 1 ==> |r| <= count
    ensures count >= 1 && |normal| >= count ==> |r| == count
  {
    if first == [] {
      assert r == drawn;
    } else {
      assert forall k :: 1 <= k < |r| ==> r[k] == drawn[k - 1];
    }
  }

  /**
   * With no special candidate among the normal ones: only the first offered
   * choice can be special, and only on a draw `gate < 0.5`; at most `count`
   * are offered, exactly `count` when there are that many normal candidates.
   */
  lemma OfferShape(special: seq<Candidate>, normal: seq<Candidate>, count: int, gate: Unit, pick: Unit, np: Picker)
    requires PicksInPool(np)
    requires forall x :: x in normal ==> !x.choice.isSpecial
    ensures var r := Offer(special, normal, count, gate, pick, np);
      (forall k :: 1 <= k < |r| ==> !r[k].choice.isSpecial)
      && (|r| > 0 && r[0].choice.isSpecial ==> gate < 0.5)
      && (count >= 1 ==> |r| <= count)
      && (count >= 1 && |normal| >= count ==> |r| == count)
  {
    var first := FirstOffer(special, gate, pick);
    var drawn := DrawFrom(normal, count - |first|, np, 0);
    var r := Offer(special, normal, count, gate, pick, np);
    assert r == first + drawn;
    assert first != [] ==> gate < 0.5;
    DrawFromCount(normal, count - |first|, np, 0);
    DrawFromPool(normal, count - |first|, np, 0);
    DrawnFromPool(drawn, normal);
    PartsShape(r, first, drawn, normal, count);
  }

  /**
   * Every offered choice belongs to an eligible event, names it as its
   * parent, and is kept by its list: it adds no conflicting tag and has its
   * conditions met.
   */
  lemma ManualWithKept(table: ConflictMap, events: seq<Event>, st: PlayerState, showTest: bool, count: int,
                       gate: Unit, pick: Unit, np: Picker)
    requires PicksInPool(np)
    ensures forall x :: x in ManualWith(table, events, st, showTest, count, gate, pick, np) ==>
      Keeps(table, x.choice, x.choice.isSpecial, st)
      && exists e :: e in events && Eligible(e, st, showTest) && x == WithParent(x.choice, e) && x.choice in e.choices
  {
    var avail := Available(events, st, showTest);
    if avail != [] {
      var special := Candidates(table, avail, true, st);
      var normal := Candidates(table, avail, false, st);
      OfferFromLists(special, normal, count, gate, pick, np);
      CandidatesKept(table, avail, true, st);
      CandidatesKept(table, avail, false, st);
      AvailableMembers(events, st, showTest);
      forall x: Candidate | x in special || x in normal
        ensures Keeps(table, x.choice, x.choice.isSpecial, st)
          && exists e :: e in events && Eligible(e, st, showTest) && x == WithParent(x.choice, e) && x.choice in e.choices
      {
        var i :| 0 <= i < |avail| && x == WithParent(x.choice, avail[i]) && x.choice in avail[i].choices;
        assert avail[i] in avail;
      }
    }
  }

  /**
   * At most one special choice is offered, only first and only on a draw
   * `gate < 0.5`; at most `count` choices are offered, exactly `count` when
   * there are at least that many normal candidates.
   */
  lemma ManualWithShape(table: ConflictMap, events: seq<Event>, st: PlayerState, showTest: bool, count: int,
                        gate: Unit, pick: Unit, np: Picker)
    requires PicksInPool(np)
    ensures var r := ManualWith(table, events, st, showTest, count, gate, pick, np);
      (forall k :: 1 <= k < |r| ==> !r[k].choice.isSpecial)
      && (|r| > 0 && r[0].choice.isSpecial ==> gate < 0.5)
      && (count >= 1 ==> |r| <= count)
      && (count >= 1 && |Candidates(table, Available(events, st, showTest), false, st)| >= count ==> |r| == count)
  {
    var avail := Available(events, st, showTest);
    if avail != [] {
      var normal := Candidates(table, avail, false, st);
      CandidatesKept(table, avail, false, st);
      OfferShape(Candidates(table, avail, true, st), normal, count, gate, pick, np);
    }
  }

  /** No eligible event, no candidates. */
  lemma ManualChoicesNoEvent(table: ConflictMap, events: seq<Event>, st: PlayerState, showTest: bool, count: int,
                             gate: Unit, pick: Unit, spins: nat -> Unit)
    requires forall e :: e in events ==> !Eligible(e, st, showTest)
    ensures ManualChoices(table, events, st, showTest, count, gate, pick, spins) == []
  {
    AvailableNone(events, st, showTest);
    NormalPickerIs(st, spins);
  }
}
