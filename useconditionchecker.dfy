/**
 * The reusable condition checker of the achievement screen. It differs from
 * the event center's evaluator in three places: a condition without params is
 * met whatever its type, `ending_id` compares the reason the game ended, and
 * `variable_check` is not a case at all (so it is met). It also reads the
 * player's tags without a guard, so a tag check on a player without tags
 * throws; `Defined` rules that case out.
 */
module UseConditionChecker {
  import opened Common
  import opened Content
  import opened PlayerStore
  import EventCenter

  /** The one case that throws: a tag check with a key on a player that has no tag list. */
  predicate Defined(c: Condition, st: PlayerState) {
    match c
    case TagCheck(has, hasNot) => (has != "" || hasNot != "") ==> st.tags.Some?
    case _ => true
  }

  /**
   * `isConditionMet(condition, playerState)`. Empty strings stand for absent
   * keys; `EndingCheck("")` compares an absent `is` with the reason, so it
   * holds exactly when no reason was recorded (`undefined === undefined`).
   */
  function IsConditionMet(c: Condition, st: PlayerState): bool
    requires Defined(c, st)
  {
    match c
    case Untyped => true
    case MissingParams(_) => true
    case StatCheck(stat, op, bound) =>
      var v := EventCenter.StatOf(st, stat);
      v.Some? && EventCenter.CompareStat(v.value, op, bound)
    case WorldviewCheck(dominant) => DominantWorldview(st.stats) == dominant
    case StatusCheck(has, hasNot) =>
      if has != "" then EventCenter.HasStatus(st, has)
      else if hasNot != "" then !EventCenter.HasStatus(st, hasNot)
      else false
    case EventCheck(has, hasNot) =>
      if has != "" then has in st.triggeredEventIds
      else if hasNot != "" then hasNot !in st.triggeredEventIds
      else false
    case InventoryCheck(has, hasNot) =>
      if has != "" then has in st.inventory
      else if hasNot != "" then hasNot !in st.inventory
      else false
    case MadeChoiceCheck(id) => id in st.madeChoices
    case TalentCheck(has, hasNot) =>
      if has != "" then EventCenter.HasTalent(st, has)
      else if hasNot != "" then !EventCenter.HasTalent(st, hasNot)
      else false
    case TagCheck(has, hasNot) =>
      if has != "" then has in st.tags.value
      else if hasNot != "" then hasNot !in st.tags.value
      else false
    case EndingCheck(id) => if id == "" then st.deathReason.None? else st.deathReason == Some(id)
    case _ => true
  }

  /** `every` stops at the first unmet condition: each condition it reaches can be evaluated. */
  predicate EveryDefined(cs: seq<Condition>, st: PlayerState) {
    cs == [] || (Defined(cs[0], st) && (IsConditionMet(cs[0], st) ==> EveryDefined(cs[1..], st)))
  }

  /** `conditions.every(...)`, evaluated left to right. */
  function Every(cs: seq<Condition>, st: PlayerState): bool
    requires EveryDefined(cs, st)
  {
    cs == [] || (IsConditionMet(cs[0], st) && Every(cs[1..], st))
  }

  /** `areConditionsMet`: an absent (None) or empty list is met, otherwise every condition must be. */
  function AreConditionsMet(cs: Option<seq<Condition>>, st: PlayerState): bool
    requires cs.Some? ==> EveryDefined(cs.value, st)
  {
    if cs.None? || |cs.value| == 0 then true else Every(cs.value, st)
  }

  /** A list is met exactly when each of its conditions can be evaluated and is met. */
  lemma {:induction false} EveryIff(cs: seq<Condition>, st: PlayerState)
    requires EveryDefined(cs, st)
    ensures Every(cs, st) <==> forall k :: 0 <= k < |cs| ==> Defined(cs[k], st) && IsConditionMet(cs[k], st)
  {
    if cs != [] {
      if IsConditionMet(cs[0], st) {
        EveryIff(cs[1..], st);
        assert forall k :: 1 <= k < |cs| ==> cs[k] == cs[1..][k - 1];
      }
    }
  }

  /** The conjunction splits over concatenation; the second list is only reached when the first is met. */
  lemma {:induction false} EveryAppend(cs: seq<Condition>, more: seq<Condition>, st: PlayerState)
    requires EveryDefined(cs + more, st)
    ensures EveryDefined(cs, st)
    ensures Every(cs, st) ==> EveryDefined(more, st)
    ensures Every(cs + more, st) <==> Every(cs, st) && EveryDefined(more, st) && Every(more, st)
  {
    if cs == [] {
      assert cs + more == more;
    } else {
      assert (cs + more)[0] == cs[0];
      assert (cs + more)[1..] == cs[1..] + more;
      if IsConditionMet(cs[0], st) {
        EveryAppend(cs[1..], more, st);
      }
    }
  }

  /** Appending a condition never turns an unmet list into a met one. */
  lemma AppendNeverHelps(cs: seq<Condition>, c: Condition, st: PlayerState)
    requires EveryDefined(cs + [c], st)
    ensures EveryDefined(cs, st)
    ensures AreConditionsMet(Some(cs + [c]), st) ==> AreConditionsMet(Some(cs), st)
  {
    EveryAppend(cs, [c], st);
  }

  /** An absent or empty list is met; a present one is met iff all its conditions are. */
  lemma AreConditionsMetIff(cs: Option<seq<Condition>>, st: PlayerState)
    requires cs.Some? ==> EveryDefined(cs.value, st)
    ensures cs.None? ==> AreConditionsMet(cs, st)
    ensures AreConditionsMet(Some([]), st)
    ensures cs.Some? ==>
      (AreConditionsMet(cs, st) <==> forall k :: 0 <= k < |cs.value| ==> Defined(cs.value[k], st) && IsConditionMet(cs.value[k], st))
  {
    if cs.Some? {
      EveryIff(cs.value, st);
    }
  }

  /**
   * A missing type or missing params is met whatever the type; stat checks on
   * a missing stat or with an unknown operator fail; a has/has_not check with
   * neither key fails; `variable_check` and unknown types are met.
   */
  lemma Defaults(st: PlayerState, kind: string, stat: string, op: string, bound: real,
                 key: string, existsFlag: Option<bool>)
    ensures IsConditionMet(Untyped, st) && IsConditionMet(MissingParams(kind), st)
    ensures stat !in st.stats ==> !IsConditionMet(StatCheck(stat, op, bound), st)
    ensures op != ">=" && op != "<=" && op != "==" && op != ">" && op != "<" ==> !IsConditionMet(StatCheck(stat, op, bound), st)
    ensures !IsConditionMet(StatusCheck("", ""), st) && !IsConditionMet(EventCheck("", ""), st)
    ensures !IsConditionMet(InventoryCheck("", ""), st) && !IsConditionMet(TalentCheck("", ""), st)
    ensures !IsConditionMet(TagCheck("", ""), st)
    ensures IsConditionMet(VariableCheck(key, existsFlag, op, bound), st) && IsConditionMet(OtherCondition(kind), st)
  {
  }

  /**
   * `ending_id` holds exactly when the recorded reason is the one named, an
   * absent `is` matching an absent reason.
   */
  lemma EndingIff(st: PlayerState, id: string)
    ensures IsConditionMet(EndingCheck(id), st) <==>
      (id == "" && st.deathReason.None?) || (id != "" && st.deathReason.Some? && st.deathReason.value == id)
  {
  }

  /**
   * Against the event center's evaluator: the two agree on every condition
   * both can evaluate, except the three kinds where they differ by design
   * (`variable_check`, `ending_id`, a known type without params).
   */
  lemma AgreesWithEventCenter(c: Condition, st: PlayerState)
    requires Defined(c, st) && EventCenter.Defined(c)
    requires !c.VariableCheck? && !c.EndingCheck? && !c.MissingParams?
    ensures IsConditionMet(c, st) == EventCenter.IsConditionMet(c, st)
  {
  }

  /** Where they differ: a known type without params, and a variable check on a missing key. */
  lemma DiffersFromEventCenter(st: PlayerState, existsFlag: Option<bool>, op: string, bound: real)
    ensures IsConditionMet(MissingParams("stat_check"), st) && !EventCenter.Defined(MissingParams("stat_check"))
    ensures IsConditionMet(VariableCheck("", existsFlag, op, bound), st)
      && !EventCenter.IsConditionMet(VariableCheck("", existsFlag, op, bound), st)
  {
  }
}
