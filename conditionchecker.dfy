/**
 * The condition checker built over a store getter. Malformed conditions are
 * met before the store is consulted; with no store every other condition
 * fails. Equality is spelled `===` and inequality `!==`; every read of the
 * store goes through optional chaining, so an absent collection makes a
 * `has` check fail and a `has_not` check hold. There is no `ending_id` case.
 */
module ConditionChecker {
  import opened Common
  import opened Content
  import opened PlayerStore
  import EventCenter

  /** The stat comparisons; `==` is not among them. */
  function CompareStrict(value: real, op: string, bound: real): bool {
    if op == ">=" then value >= bound
    else if op == "<=" then value <= bound
    else if op == "===" then value == bound
    else if op == ">" then value > bound
    else if op == "<" then value < bound
    else false
  }

  /**
   * The comparisons of `variable_check` on `Number(value)`, None standing for
   * NaN; any other operator, `==` and `!=` included, falls back to the
   * truthiness of the raw value.
   */
  function CompareVariableStrict(value: Value, op: string, bound: real): bool {
    var n := ToNumber(value);
    if op == ">=" then n.Some? && n.value >= bound
    else if op == "<=" then n.Some? && n.value <= bound
    else if op == "===" then n.Some? && n.value == bound
    else if op == ">" then n.Some? && n.value > bound
    else if op == "<" then n.Some? && n.value < bound
    else if op == "!==" then !(n.Some? && n.value == bound)
    else Truthy(value)
  }

  /** A well-formed condition against the store the getter returned. */
  function MetBy(c: Condition, st: PlayerState): bool {
    match c
    case StatCheck(stat, op, bound) =>
      var v := EventCenter.StatOf(st, stat);
      v.Some? && CompareStrict(v.value, op, bound)
    case WorldviewCheck(dominant) => DominantWorldview(st.stats) == dominant
    case StatusCheck(has, hasNot) =>
      if has != "" then EventCenter.HasStatus(st, has)
      else if hasNot != "" then !EventCenter.HasStatus(st, hasNot)
      else false
    case EventCheck(has, hasNot) =>
      if has != "" then has in st.triggeredEventIds
      else if hasNot != "" then hasNot !in st.triggeredEventIds
      else false
    case InventoryCheck(has, hasNot) =>
      if has != "" then has in st.inventory
      else if hasNot != "" then hasNot !in st.inventory
      else false
    case MadeChoiceCheck(id) => id in st.madeChoices
    case TalentCheck(has, hasNot) =>
      if has != "" then EventCenter.HasTalent(st, has)
      else if hasNot != "" then !EventCenter.HasTalent(st, hasNot)
      else false
    case TagCheck(has, hasNot) =>
      if has != "" then st.tags.Some? && has in st.tags.value
      else if hasNot != "" then !(st.tags.Some? && hasNot in st.tags.value)
      else false
    case VariableCheck(key, existsFlag, op, bound) =>
      if key == "" then false
      else
        var v := EventCenter.VariableOf(st, key);
        if v.None? then (if existsFlag.Some? then !existsFlag.value else false)
        else CompareVariableStrict(v.value, op, bound)
    case _ => true
  }

  /** `isConditionMet(condition)`; `player` is what `getPlayerStore()` returns, None for no store. */
  function IsConditionMet(c: Condition, player: Option<PlayerState>): bool {
    if c.Untyped? || c.MissingParams? then true
    else if player.None? then false
    else MetBy(c, player.value)
  }

  /** `conditions.every(isConditionMet)`, evaluated left to right. */
  function Every(cs: seq<Condition>, player: Option<PlayerState>): bool {
    cs == [] || (IsConditionMet(cs[0], player) && Every(cs[1..], player))
  }

  /** `areConditionsMet`: an absent (None) or empty list is met. */
  function AreConditionsMet(cs: Option<seq<Condition>>, player: Option<PlayerState>): bool {
    if cs.None? || |cs.value| == 0 then true else Every(cs.value, player)
  }

  lemma {:induction false} EveryIff(cs: seq<Condition>, player: Option<PlayerState>)
    ensures Every(cs, player) <==> forall k :: 0 <= k < |cs| ==> IsConditionMet(cs[k], player)
  {
    if cs != [] {
      EveryIff(cs[1..], player);
      assert forall k :: 1 <= k < |cs| ==> cs[k] == cs[1..][k - 1];
    }
  }

  /** An absent or empty list is met; a present one is met iff every condition is. */
  lemma AreConditionsMetIff(cs: Option<seq<Condition>>, player: Option<PlayerState>)
    ensures cs.None? ==> AreConditionsMet(cs, player)
    ensures cs.Some? ==> (AreConditionsMet(cs, player) <==> forall k :: 0 <= k < |cs.value| ==> IsConditionMet(cs.value[k], player))
  {
    if cs.Some? {
      EveryIff(cs.value, player);
    }
  }

  /** Malformed conditions are met even without a store; no store fails every well-formed one. */
  lemma NoStore(c: Condition, kind: string)
    ensures IsConditionMet(Untyped, None) && IsConditionMet(MissingParams(kind), None)
    ensures !c.Untyped? && !c.MissingParams? ==> !IsConditionMet(c, None)
  {
  }

  /** A well-formed list without a store is met only when it is empty. */
  lemma NoStoreList(cs: seq<Condition>)
    requires forall k :: 0 <= k < |cs| ==> !cs[k].Untyped? && !cs[k].MissingParams?
    ensures AreConditionsMet(Some(cs), None) <==> cs == []
  {
    EveryIff(cs, None);
    if cs != [] {
      assert !IsConditionMet(cs[0], None);
    }
  }

  /**
   * Strict spelling: `==` fails every stat check, `===` is equality, and on
   * a variable `==` is not an operator, so the raw value's truthiness decides.
   */
  lemma StrictEquality(st: PlayerState, stat: string, key: string, existsFlag: Option<bool>, bound: real)
    ensures !IsConditionMet(StatCheck(stat, "==", bound), Some(st))
    ensures stat in st.stats ==> (IsConditionMet(StatCheck(stat, "===", bound), Some(st)) <==> st.stats[stat] == bound)
    ensures key != "" && EventCenter.VariableOf(st, key).Some? ==>
      (IsConditionMet(VariableCheck(key, existsFlag, "==", bound), Some(st)) <==> Truthy(EventCenter.VariableOf(st, key).value))
  {
  }

  /** Without a tag list, `has` fails and `has_not` holds; likewise without variables, `exists: false` holds. */
  lemma AbsentCollections(st: PlayerState, tag: string, key: string, op: string, bound: real)
    requires st.tags.None? && st.variables.None? && tag != "" && key != ""
    ensures !IsConditionMet(TagCheck(tag, ""), Some(st)) && IsConditionMet(TagCheck("", tag), Some(st))
    ensures IsConditionMet(VariableCheck(key, Some(false), op, bound), Some(st))
    ensures !IsConditionMet(VariableCheck(key, Some(true), op, bound), Some(st))
    ensures !IsConditionMet(VariableCheck(key, None, op, bound), Some(st))
  {
  }

  /** Unknown types are met, `ending_id` among them. */
  lemma UnknownKinds(st: PlayerState, kind: string, id: string)
    ensures IsConditionMet(OtherCondition(kind), Some(st)) && IsConditionMet(EndingCheck(id), Some(st))
  {
  }

  /** The same condition with `==`/`===` and `!=`/`!==` swapped. */
  function Respelled(c: Condition): Condition {
    match c
    case StatCheck(stat, op, bound) => StatCheck(stat, if op == "==" then "===" else if op == "===" then "==" else op, bound)
    case VariableCheck(key, e, op, bound) =>
      VariableCheck(key, e, if op == "==" then "===" else if op == "!=" then "!==" else if op == "===" then "==" else if op == "!==" then "!=" else op, bound)
    case _ => c
  }

  /**
   * Against the event center's evaluator: with the operators respelled the
   * two agree on every well-formed condition.
   */
  lemma AgreesWithEventCenter(c: Condition, st: PlayerState)
    requires !c.Untyped? && !c.MissingParams?
    ensures IsConditionMet(Respelled(c), Some(st)) == EventCenter.IsConditionMet(c, st)
  {
  }
}
