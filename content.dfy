/**
 * The authored content the engine reads: conditions, outcome directives,
 * choices with their result buckets, events, talents, status-effect
 * definitions, endings, achievements and content packs (DLCs).
 *
 * These are read-only records. JSON fields that the engine tests for
 * truthiness are modelled so that the falsy value stands for "absent":
 * an empty string, a zero number, an empty list. Where the engine tells an
 * absent field from an empty one (a choice's flat `outcomes`, a player's
 * `tags`), the field is an Option.
 */
module Content {
  import opened Common

  /**
   * A condition `{type, params}`. Each known `type` string has its own
   * constructor carrying the params that evaluators read; `Untyped` is a
   * condition without a type, `MissingParams(kind)` one with a type but no
   * params, and `OtherCondition(kind)` carries a type no evaluator knows.
   */
  datatype Condition =
    | StatCheck(stat: string, operator: string, value: real)             // 'stat_check'
    | WorldviewCheck(dominant: string)                                    // 'worldview_check'
    | StatusCheck(has: string, hasNot: string)                            // 'status_check'
    | EventCheck(hasTriggered: string, hasNotTriggered: string)           // 'event_check'
    | InventoryCheck(has: string, hasNot: string)                         // 'inventory_check'
    | MadeChoiceCheck(choiceId: string)                                   // 'made_choice_check'
    | TalentCheck(has: string, hasNot: string)                            // 'talent_check'
    | TagCheck(has: string, hasNot: string)                               // 'tag_check'
    | VariableCheck(key: string, existsFlag: Option<bool>, operator: string, value: real)  // 'variable_check'
    | EndingCheck(endingId: string)                                           // 'ending_id'
    | OtherCondition(kind: string)
    | Untyped
    | MissingParams(kind: string)

  /**
   * An outcome directive `{type, params}`. `ChangeStat` carries the
   * `params` object of stat deltas; `AddTag` is not applied by the player
   * store but is read by the tag-conflict resolver.
   */
  datatype Outcome =
    | ChangeStat(deltas: map<string, real>)         // 'change_stat'
    | AddMultiplier(stat: string, factor: real)     // 'add_multiplier'
    | AddItem(itemId: string)                       // 'add_item'
    | UnlocksEvent(eventId: string)                 // 'unlocksEvent'
    | AddTag(tag: string, replace: bool)            // 'add_tag'
    | OtherOutcome(kind: string)

  /** A weighted result of a choice; a weight of 0 stands for an absent weight. */
  datatype ResultBucket = ResultBucket(weight: real, outcomes: seq<Outcome>, feedback: string)

  datatype Choice = Choice(
    id: string,
    text: string,
    conditions: seq<Condition>,
    worldview: string,
    magnitude: real,              // 0 when absent
    isSpecial: bool,
    isSystemChoice: bool,
    outcomes: Option<seq<Outcome>>,
    results: seq<ResultBucket>,
    feedback: string)

  datatype Event = Event(
    id: string,
    title: string,
    text: string,
    tags: seq<string>,
    conditions: seq<Condition>,
    choices: seq<Choice>,
    priority: real,               // 0 when absent
    isUnique: bool,
    requiresUnlock: bool)

  datatype Talent = Talent(id: string, name: string, effects: seq<Outcome>)

  datatype StatusEffectDef = StatusEffectDef(outcomes: seq<Outcome>)

  datatype Ending = Ending(id: string)

  datatype Achievement = Achievement(id: string, name: string, hidden: bool)

  /** The parsed JSON of a content pack; an empty id or name stands for a missing one. */
  datatype DlcContent = DlcContent(
    id: string,
    name: string,
    events: seq<Event>,
    talents: seq<Talent>,
    endings: seq<Ending>,
    statusEffects: map<string, StatusEffectDef>,
    customStats: seq<string>)
}
