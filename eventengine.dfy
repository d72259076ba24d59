/**
 * The older autonomous engine. Its condition evaluator knows two types; it
 * picks an event uniformly among those passing the uniqueness, unlock and
 * condition checks (no weights, no meta or test filter); it chooses an option
 * by the score roulette without any tag-conflict check; and it applies a
 * choice's flat outcomes, ignoring result buckets and never recording the
 * choice.
 */
module EventEngine {
  import opened Common
  import opened Content
  import opened PlayerStore
  import opened Selection
  import EventCenter

  /** The line logged when no choice is valid (differently written from the event center's). */
  const ENGINE_LOST_MESSAGE: string := "> 你感到一陣迷茫，不知何去何從。"

  // ---------------------------------------------------------------------------
  // Conditions

  /** Both known types read `params.x`, so either one without params throws. */
  predicate Defined(c: Condition) {
    !(c.MissingParams? && (c.kind == "stat_check" || c.kind == "worldview_check"))
  }

  /**
   * `isConditionMet`: stat checks with `>=`, `<=` or `==` on `player[stat]`
   * (an undefined stat compares false), worldview checks, and every other
   * type met. A known type without params throws; it reads as false here.
   */
  function IsConditionMet(c: Condition, st: PlayerState): bool {
    match c
    case StatCheck(stat, op, bound) =>
      var v := EventCenter.StatOf(st, stat);
      v.Some? && (if op == ">=" then v.value >= bound
                  else if op == "<=" then v.value <= bound
                  else if op == "==" then v.value == bound
                  else false)
    case WorldviewCheck(dominant) => DominantWorldview(st.stats) == dominant
    case MissingParams(kind) => Defined(c)
    case _ => true
  }

  predicate AllMet(cs: seq<Condition>, st: PlayerState) {
    forall k :: 0 <= k < |cs| ==> IsConditionMet(cs[k], st)
  }

  /** `every` stops at the first unmet condition: each condition it reaches can be evaluated. */
  predicate AllMetDefined(cs: seq<Condition>, st: PlayerState) {
    forall k :: 0 <= k < |cs| && (forall j :: 0 <= j < k ==> IsConditionMet(cs[j], st)) ==> Defined(cs[k])
  }

  /**
   * The reduced evaluator: `>` and `<` are not operators here, and the
   * types it does not know are met, however the store stands.
   */
  lemma ReducedKinds(st: PlayerState, stat: string, bound: real, has: string, hasNot: string, key: string,
                     e: Option<bool>, op: string)
    ensures !IsConditionMet(StatCheck(stat, ">", bound), st) && !IsConditionMet(StatCheck(stat, "<", bound), st)
    ensures stat !in st.stats ==> !IsConditionMet(StatCheck(stat, op, bound), st)
    ensures IsConditionMet(StatusCheck(has, hasNot), st) && IsConditionMet(EventCheck(has, hasNot), st)
    ensures IsConditionMet(InventoryCheck(has, hasNot), st) && IsConditionMet(TalentCheck(has, hasNot), st)
    ensures IsConditionMet(TagCheck(has, hasNot), st) && IsConditionMet(MadeChoiceCheck(has), st)
    ensures IsConditionMet(VariableCheck(key, e, op, bound), st) && IsConditionMet(EndingCheck(has), st)
    ensures IsConditionMet(Untyped, st)
  {
  }

  /** On the two types both know, with the three operators this one has, it agrees with the event center. */
  lemma AgreesWithEventCenter(c: Condition, st: PlayerState)
    requires c.StatCheck? || c.WorldviewCheck?
    requires c.StatCheck? ==> c.operator == ">=" || c.operator == "<=" || c.operator == "=="
    ensures IsConditionMet(c, st) == EventCenter.IsConditionMet(c, st)
  {
  }

  /** The evaluator reads the stats only: the rest of the store never changes a verdict. */
  lemma OnlyStatsMatter(c: Condition, st: PlayerState, other: PlayerState)
    requires other.stats == st.stats
    ensures IsConditionMet(c, other) == IsConditionMet(c, st)
  {
  }

  // ---------------------------------------------------------------------------
  // Finding an event

  /** The filter of `findTriggerableEvent`: not a spent unique event, not locked, conditions met. */
  predicate Passes(e: Event, st: PlayerState) {
    !(e.isUnique && e.id in st.triggeredEventIds) && !(e.requiresUnlock && e.id !in st.unlockedEventIds)
    && AllMet(e.conditions, st)
  }

  /** Conditions are evaluated only on events past the uniqueness and unlock checks. */
  predicate EventsDefined(events: seq<Event>, st: PlayerState) {
    forall k :: (0 <= k < |events| && !(events[k].isUnique && events[k].id in st.triggeredEventIds)
                 && !(events[k].requiresUnlock && events[k].id !in st.unlockedEventIds))
      ==> AllMetDefined(events[k].conditions, st)
  }

  function Available(events: seq<Event>, st: PlayerState): seq<Event> {
    if events == [] then []
    else (if Passes(events[0], st) then [events[0]] else []) + Available(events[1..], st)
  }

  lemma {:induction false} AvailableMembers(events: seq<Event>, st: PlayerState)
    ensures forall e :: e in Available(events, st) <==> e in events && Passes(e, st)
  {
    if events != [] {
      AvailableMembers(events[1..], st);
      assert events == [events[0]] + events[1..];
    }
  }

  /**
   * `findTriggerableEvent`: none when nothing passes, else the element at
   * index `floor(r * n)` of the n events that pass, a uniform pick.
   */
  function TriggerableEvent(events: seq<Event>, st: PlayerState, r: Unit): (found: Option<Event>)
    requires EventsDefined(events, st)
  {
    var available := Available(events, st);
    if |available| == 0 then None else Some(available[RandomIndex(r, |available|)])
  }

  /** None exactly when no event passes; otherwise one of the events, and one that passes. */
  lemma TriggerableEventPasses(events: seq<Event>, st: PlayerState, r: Unit)
    requires EventsDefined(events, st)
    ensures TriggerableEvent(events, st, r).None? <==> forall e :: e in events ==> !Passes(e, st)
    ensures TriggerableEvent(events, st, r).Some? ==>
      TriggerableEvent(events, st, r).value in events && Passes(TriggerableEvent(events, st, r).value, st)
  {
    var available := Available(events, st);
    AvailableMembers(events, st);
    if |available| > 0 {
      assert available[RandomIndex(r, |available|)] in available;
    } else {
      assert forall e :: e in events ==> !Passes(e, st);
    }
  }

  /** No meta or test filter here: an event tagged `meta` or `test` that passes can be found. */
  lemma MetaNotFiltered(e: Event, st: PlayerState, r: Unit)
    requires "meta" in e.tags && "test" in e.tags && Passes(e, st)
    ensures AllMetDefined(e.conditions, st)
    ensures TriggerableEvent([e], st, r) == Some(e)
  {
    assert Available([e], st) == [e];
  }

  // ---------------------------------------------------------------------------
  // Choosing

  /** `choices.filter(c => !c.conditions || c.conditions.every(isConditionMet))`. */
  function ValidChoices(choices: seq<Choice>, st: PlayerState): seq<Choice> {
    if choices == [] then []
    else (if AllMet(choices[0].conditions, st) then [choices[0]] else []) + ValidChoices(choices[1..], st)
  }

  lemma {:induction false} ValidChoicesMembers(choices: seq<Choice>, st: PlayerState)
    ensures forall c :: c in ValidChoices(choices, st) <==> c in choices && AllMet(c.conditions, st)
  {
    if choices != [] {
      ValidChoicesMembers(choices[1..], st);
      assert choices == [choices[0]] + choices[1..];
    }
  }

  predicate ChoicesDefined(choices: seq<Choice>, st: PlayerState) {
    forall k :: 0 <= k < |choices| ==> AllMetDefined(choices[k].conditions, st)
  }

  /** The choice `makeChoice` returns: none without a valid choice, else the roulette pick by score. */
  function EngineChoice(choices: seq<Choice>, st: PlayerState, impulses: nat -> Unit, r: Unit): Option<Choice> {
    var valid := ValidChoices(choices, st);
    if valid == [] then None else Some(valid[Roulette(EventCenter.Scores(valid, st, impulses), r)])
  }

  /** `makeChoice`: filter by conditions, score each valid choice with its own impulse, then spin once. */
  method MakeChoice(choices: seq<Choice>, st: PlayerState, impulses: nat -> Unit, r: Unit) returns (choice: Option<Choice>)
    requires ChoicesDefined(choices, st)
    ensures choice == EngineChoice(choices, st, impulses, r)
  {
    var validChoices := ValidChoices(choices, st);
    if |validChoices| == 0 {
      return None;
    }
    var scores := EventCenter.Scores(validChoices, st, impulses);
    var totalScore := Sum(scores);
    var pick := Spin(scores, DrawTarget(r, totalScore));
    RouletteSpin(scores, r);
    if pick.Some? {
      return Some(validChoices[pick.value]);
    }
    return Some(validChoices[|validChoices| - 1]);
  }

  /**
   * The choice taken belongs to the event and meets its conditions; there is
   * none exactly when no choice does. Scores being at least 0.1, the pick is
   * the first valid choice whose running score reaches `r * total`.
   */
  lemma EngineChoiceValid(choices: seq<Choice>, st: PlayerState, impulses: nat -> Unit, r: Unit)
    ensures var c := EngineChoice(choices, st, impulses, r);
      c.Some? ==> c.value in choices && AllMet(c.value.conditions, st)
    ensures EngineChoice(choices, st, impulses, r).None? <==> forall c :: c in choices ==> !AllMet(c.conditions, st)
    ensures var valid := ValidChoices(choices, st);
      var w := EventCenter.Scores(valid, st, impulses);
      valid != [] ==> (FirstReaching(w, DrawTarget(r, Sum(w))).Some?
        && EngineChoice(choices, st, impulses, r) == Some(valid[FirstReaching(w, DrawTarget(r, Sum(w))).value]))
  {
    var valid := ValidChoices(choices, st);
    ValidChoicesMembers(choices, st);
    if valid != [] {
      var w := EventCenter.Scores(valid, st, impulses);
      assert valid[Roulette(w, r)] in valid;
      EventCenter.SumAtLeastLast(w);
      RouletteIsFirstReaching(w, r);
    } else {
      assert forall c :: c in choices ==> !AllMet(c.conditions, st);
    }
  }

  lemma {:induction false} ValidChoicesStatsOnly(choices: seq<Choice>, st: PlayerState, other: PlayerState)
    requires other.stats == st.stats
    ensures ValidChoices(choices, other) == ValidChoices(choices, st)
  {
    if choices != [] {
      forall k | 0 <= k < |choices[0].conditions|
        ensures IsConditionMet(choices[0].conditions[k], other) == IsConditionMet(choices[0].conditions[k], st)
      {
        OnlyStatsMatter(choices[0].conditions[k], st, other);
      }
      ValidChoicesStatsOnly(choices[1..], st, other);
    }
  }

  /**
   * No tag-conflict check: the choice depends on the stats alone, so giving
   * the player any tags (conflicting or not) changes nothing.
   */
  lemma TagsIgnored(choices: seq<Choice>, st: PlayerState, tags: Option<seq<string>>, impulses: nat -> Unit, r: Unit)
    ensures EngineChoice(choices, st.(tags := tags), impulses, r) == EngineChoice(choices, st, impulses, r)
  {
    var other := st.(tags := tags);
    ValidChoicesStatsOnly(choices, st, other);
    var valid := ValidChoices(choices, st);
    assert EventCenter.Scores(valid, other, impulses) == EventCenter.Scores(valid, st, impulses);
  }

  // ---------------------------------------------------------------------------
  // Processing an event

  /** `【 ${player.age.toFixed(1)} 歲】`. */
  function AgeLabel(st: PlayerState): string
    requires "age" in st.stats
  {
    "【 " + ToFixed1(st.stats["age"]) + " 歲】"
  }

  /** The player after the event line is logged and the event recorded as triggered. */
  function EngineRecorded(st: PlayerState, event: Event): PlayerState
    requires "age" in st.stats
  {
    var s := st.(log := PushLog(st.log, LogEntry(Line(AgeLabel(st) + event.text), "event")));
    s.(triggeredEventIds := s.triggeredEventIds + {event.id})
  }

  /** The player after the choice line is logged, the flat outcomes applied and the feedback logged. */
  function EngineChosen(st: PlayerState, c: Choice): PlayerState {
    var s1 := st.(log := PushLog(st.log, LogEntry(Line("> " + c.text), "choice")));
    var s2 := ApplyAll(s1, c.outcomes.GetOr([]));
    if c.feedback != "" then s2.(log := PushLog(s2.log, LogEntry(Line(c.feedback), "feedback"))) else s2
  }

  /** The player after `processEvent`. */
  function EngineProcessed(st: PlayerState, event: Event, impulses: nat -> Unit, r: Unit): PlayerState
    requires "age" in st.stats
  {
    var s := EngineRecorded(st, event);
    match EngineChoice(event.choices, s, impulses, r)
    case Some(c) => EngineChosen(s, c)
    case None => s.(log := PushLog(s.log, LogEntry(Line(ENGINE_LOST_MESSAGE), "system")))
  }

  /**
   * The event is always recorded as triggered, choice ids never are, and
   * the log gains exactly the event line, then either the choice line and
   * (when there is one) the feedback line, or the system line. The outcomes
   * log nothing of their own.
   */
  lemma EngineProcessedRecords(st: PlayerState, event: Event, impulses: nat -> Unit, r: Unit)
    requires "age" in st.stats
    ensures var s := EngineProcessed(st, event, impulses, r);
      s.triggeredEventIds == st.triggeredEventIds + {event.id} && s.madeChoices == st.madeChoices
    ensures var s := EngineProcessed(st, event, impulses, r);
      var l1 := PushLog(st.log, LogEntry(Line(AgeLabel(st) + event.text), "event"));
      var c := EngineChoice(event.choices, EngineRecorded(st, event), impulses, r);
      s.log == (if c.None? then PushLog(l1, LogEntry(Line(ENGINE_LOST_MESSAGE), "system"))
                else
                  var l2 := PushLog(l1, LogEntry(Line("> " + c.value.text), "choice"));
                  if c.value.feedback != "" then PushLog(l2, LogEntry(Line(c.value.feedback), "feedback")) else l2)
  {
  }

  /** Result buckets play no part: only the flat outcomes of the choice are applied. */
  lemma BucketsIgnored(st: PlayerState, c: Choice, results: seq<ResultBucket>)
    ensures EngineChosen(st, c.(results := results)) == EngineChosen(st, c)
  {
  }

  /** `processEvent` on the store. */
  method ProcessEvent(p: Player, event: Event, impulses: nat -> Unit, r: Unit)
    requires p.Valid()
    requires ChoicesDefined(event.choices, EngineRecorded(p.View(), event))
    modifies p`log, p`triggeredEventIds, p`stats, p`statMultipliers, p`inventory, p`unlockedEventIds
    ensures p.Valid()
    ensures p.View() == EngineProcessed(old(p.View()), event, impulses, r)
  {
    p.AddLog(Line(AgeLabel(p.View()) + event.text), "event");
    p.triggeredEventIds := p.triggeredEventIds + {event.id};
    var choice := MakeChoice(event.choices, p.View(), impulses, r);
    if choice.Some? {
      var c := choice.value;
      p.AddLog(Line("> " + c.text), "choice");
      p.ApplyOutcomes(c.outcomes.GetOr([]));
      if c.feedback != "" {
        p.AddLog(Line(c.feedback), "feedback");
      }
    } else {
      p.AddLog(Line(ENGINE_LOST_MESSAGE), "system");
    }
  }
}
