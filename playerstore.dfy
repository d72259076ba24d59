/**
 * The player store: the single mutable record of one simulated life (stats,
 * status effects, inventory, event bookkeeping and the message log) and the
 * actions that change it: reset, talent initialisation, logging, outcome
 * application, the per-turn tick and the end of the game.
 *
 * `PlayerState` is the store as a value: it is what condition evaluators,
 * the text parser and the event selector read, and what the specification
 * functions below transform. `Player` is the store itself, one field per
 * store field, and each of its actions is proved to move `View()` exactly
 * as the matching specification function says.
 */
module PlayerStore {
  import opened Common
  import opened Content

  /** The log keeps at most this many entries, newest first. */
  const LOG_CAP: nat := 50
  /** The four worldview stats, in the order the dominance reduction visits them. */
  const WORLDVIEWS: seq<string> := ["logic", "gnosis", "weirdness", "irony"]
  const DEBT_ID: string := "in_debt"
  const DEBT_DURATION: int := 9999
  /** Money strictly below this ends the game. */
  const DEBT_DEATH_LINE: real := -20000.0

  const RESET_MESSAGE: string := "...系統重置 // 人生重開..."
  const DEBT_MESSAGE: string := "你的財務狀況急轉直下，你陷入了負債。"
  const DEBT_CLEARED_MESSAGE: string := "你還清了所有欠款，終於鬆了一口氣。"
  const BODY_DEATH: string := "你的身體機能已耗盡。"
  const MIND_DEATH: string := "你的精神完整性已徹底崩潰。"
  const AGE_DEATH: string := "生命走到了自然的終點。"
  const DEBT_DEATH: string := "你被巨額的債務徹底壓垮，在絕望中結束了這一切。"
  const ENDING_PREFIX: string := "【模擬結束】"

  datatype StatusEffect = StatusEffect(id: string, duration: int)

  /** A per-event weight multiplier read by the event selector. */
  datatype EventModifier = EventModifier(eventId: string, multiplier: real)

  /** A log message: a line of text, or the `{title, text}` pair of an event. */
  datatype Message = Line(text: string) | EventLine(title: string, body: string)

  /** A log entry; `kind` is the entry's type ('event', 'choice', 'feedback', 'system', 'ending'). */
  datatype LogEntry = LogEntry(message: Message, kind: string)

  datatype PlayerState = PlayerState(
    stats: map<string, real>,
    isAlive: bool,
    deathReason: Option<string>,
    statMultipliers: map<string, real>,
    statusEffects: seq<StatusEffect>,
    inventory: seq<string>,
    triggeredEventIds: set<string>,
    unlockedEventIds: set<string>,
    madeChoices: set<string>,
    talents: seq<Talent>,
    tags: Option<seq<string>>,
    variables: Option<map<string, Value>>,
    tagProbabilityModifiers: map<string, real>,
    eventModifiers: seq<EventModifier>,
    log: seq<LogEntry>)
  {
    /** The numeric fields a turn reads exist, and the log is within its cap. */
    predicate WellFormed() {
      HasTurnStats(stats) && |log| <= LOG_CAP
    }
  }

  /** The numeric fields of a fresh store. */
  function InitialStats(): map<string, real> {
    map["age" := 0.0, "health" := 100.0, "sanity" := 100.0, "money" := 500.0, "turn" := 0.0,
        "logic" := 10.0, "gnosis" := 0.0, "weirdness" := 0.0, "irony" := 5.0,
        "fame" := 0.0, "anonymity" := 100.0, "exposure" := 0.0]
  }

  lemma InitialStatsHaveTurnStats()
    ensures HasTurnStats(InitialStats())
  {
  }

  /** A fresh store; the fields the store never initialises start empty. */
  function InitialState(): (st: PlayerState)
    ensures st.WellFormed() && st.isAlive && st.log == []
  {
    PlayerState(InitialStats(), true, None, map[], [], [], {}, {}, {}, [], None, None, map[], [], [])
  }

  // ---------------------------------------------------------------------------
  // Worldview

  /** `a > b` on two stats; a missing stat compares false. */
  predicate Greater(stats: map<string, real>, a: string, b: string) {
    a in stats && b in stats && stats[a] > stats[b]
  }

  /** The reduction `(a, b) => w[a] > w[b] ? a : b` started at `best` over `rest`. */
  function DominantFrom(stats: map<string, real>, best: string, rest: seq<string>): string
    decreases |rest|
  {
    if rest == [] then best
    else DominantFrom(stats, if Greater(stats, best, rest[0]) then best else rest[0], rest[1..])
  }

  /** The name of the dominant worldview stat. */
  function DominantWorldview(stats: map<string, real>): string {
    DominantFrom(stats, WORLDVIEWS[0], WORLDVIEWS[1..])
  }

  /**
   * The reduction returns a key holding the maximum, and no key after it holds
   * as much: ties go to the later key.
   */
  lemma {:induction false} DominantFromIsLastMaximum(stats: map<string, real>, best: string, rest: seq<string>)
    requires best in stats && forall k :: 0 <= k < |rest| ==> rest[k] in stats
    ensures var r, l := DominantFrom(stats, best, rest), [best] + rest;
      exists i :: 0 <= i < |l| && l[i] == r
        && (forall j :: 0 <= j < |l| ==> stats[l[j]] <= stats[r])
        && (forall j :: i < j < |l| ==> stats[l[j]] < stats[r])
    decreases |rest|
  {
    var r, l := DominantFrom(stats, best, rest), [best] + rest;
    if rest == [] {
      assert l[0] == r;
    } else {
      var b := if Greater(stats, best, rest[0]) then best else rest[0];
      DominantFromIsLastMaximum(stats, b, rest[1..]);
      var l' := [b] + rest[1..];
      var i' :| 0 <= i' < |l'| && l'[i'] == r
        && (forall j :: 0 <= j < |l'| ==> stats[l'[j]] <= stats[r])
        && (forall j :: i' < j < |l'| ==> stats[l'[j]] < stats[r]);
      DominantStep(stats, best, rest, r, i');
    }
  }

  /**
   * One step of the reduction: if `r` is a last maximum of the list with the
   * first two keys replaced by the one the comparison keeps, it is a last
   * maximum of the whole list.
   */
  lemma DominantStep(stats: map<string, real>, best: string, rest: seq<string>, r: string, i': nat)
    requires best in stats && rest != [] && forall k :: 0 <= k < |rest| ==> rest[k] in stats
    requires var l' := [if Greater(stats, best, rest[0]) then best else rest[0]] + rest[1..];
      i' < |l'| && l'[i'] == r
      && (forall j :: 0 <= j < |l'| ==> stats[l'[j]] <= stats[r])
      && (forall j :: i' < j < |l'| ==> stats[l'[j]] < stats[r])
    ensures var l := [best] + rest;
      exists i :: 0 <= i < |l| && l[i] == r
        && (forall j :: 0 <= j < |l| ==> stats[l[j]] <= stats[r])
        && (forall j :: i < j < |l| ==> stats[l[j]] < stats[r])
  {
    var b := if Greater(stats, best, rest[0]) then best else rest[0];
    var l, l' := [best] + rest, [b] + rest[1..];
    assert forall j :: 2 <= j < |l| ==> l[j] == l'[j - 1];
    assert stats[b] <= stats[r] by { assert l'[0] == b; }
    if i' > 0 {
      assert l[i' + 1] == r;
      forall j | i' + 1 < j < |l| ensures stats[l[j]] < stats[r] {
        assert l[j] == l'[j - 1];
      }
    } else if Greater(stats, best, rest[0]) {
      assert l[0] == r;
      forall j | 0 < j < |l| ensures stats[l[j]] < stats[r] {
        if j >= 2 { assert l[j] == l'[j - 1]; }
      }
    } else {
      assert l[1] == r;
      forall j | 1 < j < |l| ensures stats[l[j]] < stats[r] {
        assert l[j] == l'[j - 1];
      }
    }
  }

  /** The worldview getter: the last of the four worldview stats that holds the largest value. */
  lemma DominantWorldviewIsLastMaximum(stats: map<string, real>)
    requires forall k :: 0 <= k < |WORLDVIEWS| ==> WORLDVIEWS[k] in stats
    ensures var r := DominantWorldview(stats);
      exists i :: 0 <= i < |WORLDVIEWS| && WORLDVIEWS[i] == r
        && (forall j :: 0 <= j < |WORLDVIEWS| ==> stats[WORLDVIEWS[j]] <= stats[r])
        && (forall j :: i < j < |WORLDVIEWS| ==> stats[WORLDVIEWS[j]] < stats[r])
  {
    DominantFromIsLastMaximum(stats, WORLDVIEWS[0], WORLDVIEWS[1..]);
    assert [WORLDVIEWS[0]] + WORLDVIEWS[1..] == WORLDVIEWS;
  }

  // ---------------------------------------------------------------------------
  // Log

  /** `addLog`: the entry goes in front; past the cap the oldest entry is dropped. */
  function PushLog(log: seq<LogEntry>, e: LogEntry): seq<LogEntry> {
    var l := [e] + log;
    if |l| > LOG_CAP then l[..|l| - 1] else l
  }

  lemma PushLogBounded(log: seq<LogEntry>, e: LogEntry)
    requires |log| <= LOG_CAP
    ensures var r := PushLog(log, e);
      |r| <= LOG_CAP && r[0] == e
      && r[1..] == (if |log| < LOG_CAP then log else log[..LOG_CAP - 1])
  {
  }

  // ---------------------------------------------------------------------------
  // Outcomes

  /** `statMultipliers[stat] || 1`. */
  function Multiplier(m: map<string, real>, stat: string): real {
    if stat in m && m[stat] != 0.0 then m[stat] else 1.0
  }

  /** `add_multiplier`: an unset (or zero) multiplier becomes 1, then it is multiplied by the factor. */
  function ScaleMultiplier(m: map<string, real>, stat: string, factor: real): (r: map<string, real>)
    ensures r.Keys == m.Keys + {stat} && r[stat] == Times(Multiplier(m, stat), factor)
    ensures forall k :: k in m && k != stat ==> r[k] == m[k]
  {
    var m1 := if !(stat in m && m[stat] != 0.0) then m[stat := 1.0] else m;
    m1[stat := Times(m1[stat], factor)]
  }

  /** A product, named so that the store's update and its specification share one term. */
  function Times(a: real, b: real): real {
    a * b
  }

  /** The change of one stat under a delta: the delta scaled by the stat's multiplier, rounded. */
  function ScaledDelta(mults: map<string, real>, stat: string, delta: real): int {
    Round(delta * Multiplier(mults, stat))
  }

  /** A `change_stat` restricted to the delta keys in `done`; keys the store lacks are ignored. */
  function ChangeStatsOn(stats: map<string, real>, mults: map<string, real>, deltas: map<string, real>,
                         done: set<string>): map<string, real> {
    map k | k in stats :: if k in done && k in deltas then stats[k] + ScaledDelta(mults, k, deltas[k]) as real else stats[k]
  }

  /** Taking one more delta key into account updates just that stat. */
  lemma ChangeStatsOnStep(stats: map<string, real>, mults: map<string, real>, deltas: map<string, real>,
                          done: set<string>, stat: string)
    requires stat in deltas && stat !in done
    ensures var m := ChangeStatsOn(stats, mults, deltas, done);
      ChangeStatsOn(stats, mults, deltas, done + {stat})
        == if stat in m then m[stat := m[stat] + ScaledDelta(mults, stat, deltas[stat]) as real] else m
  {
  }

  function ChangeStats(stats: map<string, real>, mults: map<string, real>, deltas: map<string, real>): map<string, real> {
    ChangeStatsOn(stats, mults, deltas, deltas.Keys)
  }

  /** The two states agree on every field except those directives write: stats, multipliers, inventory, unlocked events. */
  predicate OnlyOutcomeFieldsDiffer(a: PlayerState, b: PlayerState) {
    a.isAlive == b.isAlive && a.deathReason == b.deathReason && a.statusEffects == b.statusEffects
    && a.triggeredEventIds == b.triggeredEventIds && a.madeChoices == b.madeChoices && a.talents == b.talents
    && a.tags == b.tags && a.variables == b.variables && a.tagProbabilityModifiers == b.tagProbabilityModifiers
    && a.eventModifiers == b.eventModifiers && a.log == b.log
  }

  /** The effect of one directive; kinds other than the four below are ignored. */
  function ApplyOutcome(st: PlayerState, o: Outcome): (r: PlayerState)
    ensures r.stats.Keys == st.stats.Keys
    ensures OnlyOutcomeFieldsDiffer(st, r)
  {
    match o
    case ChangeStat(deltas) => st.(stats := ChangeStats(st.stats, st.statMultipliers, deltas))
    case AddMultiplier(stat, factor) =>
      if stat in st.stats then st.(statMultipliers := ScaleMultiplier(st.statMultipliers, stat, factor))
      else st
    case AddItem(itemId) => st.(inventory := st.inventory + [itemId])
    case UnlocksEvent(eventId) => st.(unlockedEventIds := st.unlockedEventIds + {eventId})
    case _ => st
  }

  /** The directives applied in order. Only stats, multipliers, inventory and unlocked events change. */
  function ApplyAll(st: PlayerState, outs: seq<Outcome>): (r: PlayerState)
    ensures r.stats.Keys == st.stats.Keys
    ensures OnlyOutcomeFieldsDiffer(st, r)
    decreases |outs|
  {
    if outs == [] then st else ApplyAll(ApplyOutcome(st, outs[0]), outs[1..])
  }

  /** A stat that no `change_stat` in the directives mentions keeps its value. */
  predicate Untouched(outs: seq<Outcome>, stat: string) {
    forall o :: o in outs && o.ChangeStat? ==> stat !in o.deltas
  }

  lemma {:induction false} ApplyAllKeepsUntouched(st: PlayerState, outs: seq<Outcome>, stat: string)
    requires stat in st.stats && Untouched(outs, stat)
    ensures ApplyAll(st, outs).stats[stat] == st.stats[stat]
    decreases |outs|
  {
    if outs != [] {
      assert outs[0] in outs;
      assert Untouched(outs[1..], stat) by {
        forall o | o in outs[1..] ensures o in outs { }
      }
      ApplyAllKeepsUntouched(ApplyOutcome(st, outs[0]), outs[1..], stat);
    }
  }

  /** A multiplier scales later `change_stat` deltas: ×1.5 then +10 gives +15. */
  lemma MultiplierScalesLaterDelta(st: PlayerState, stat: string)
    requires stat in st.stats && stat !in st.statMultipliers
    ensures ApplyAll(st, [AddMultiplier(stat, 1.5), ChangeStat(map[stat := 10.0])]).stats[stat] == st.stats[stat] + 15.0
  {
    var change := ChangeStat(map[stat := 10.0]);
    var s1 := ApplyOutcome(st, AddMultiplier(stat, 1.5));
    assert Multiplier(s1.statMultipliers, stat) == 1.5;
    assert Round(10.0 * 1.5) == 15;
    assert [AddMultiplier(stat, 1.5), change][1..] == [change];
    assert ApplyAll(s1, [change]) == ApplyOutcome(s1, change) by {
      assert [change][1..] == [];
    }
  }

  /** Multipliers compound: two `add_multiplier` on one stat multiply together. */
  lemma MultipliersCompound(st: PlayerState, stat: string, a: real, b: real)
    requires stat in st.stats && a != 0.0
    ensures var m := ApplyAll(st, [AddMultiplier(stat, a), AddMultiplier(stat, b)]).statMultipliers;
      stat in m && m[stat] == Multiplier(st.statMultipliers, stat) * a * b
  {
    var first, second := AddMultiplier(stat, a), AddMultiplier(stat, b);
    ApplyTwo(st, first, second);
    var s1 := ApplyOutcome(st, first);
    AddMultiplierScales(st, stat, a);
    AddMultiplierScales(s1, stat, b);
    ScaleTwice(st.statMultipliers, stat, a, b);
  }

  /** Two directives applied in order. */
  lemma ApplyTwo(st: PlayerState, o1: Outcome, o2: Outcome)
    ensures ApplyAll(st, [o1, o2]) == ApplyOutcome(ApplyOutcome(st, o1), o2)
  {
    var s1 := ApplyOutcome(st, o1);
    assert [o1, o2][1..] == [o2];
    assert ApplyAll(st, [o1, o2]) == ApplyAll(s1, [o2]);
    assert [o2][1..] == [];
    assert ApplyAll(s1, [o2]) == ApplyAll(ApplyOutcome(s1, o2), []);
  }

  /** `add_multiplier` on a stat the store has scales that multiplier. */
  lemma AddMultiplierScales(st: PlayerState, stat: string, f: real)
    requires stat in st.stats
    ensures ApplyOutcome(st, AddMultiplier(stat, f)).statMultipliers == ScaleMultiplier(st.statMultipliers, stat, f)
    ensures stat in ApplyOutcome(st, AddMultiplier(stat, f)).stats
  {
  }

  /** Two scalings of one multiplier, the first by a non-zero factor, multiply. */
  lemma ScaleTwice(m: map<string, real>, stat: string, a: real, b: real)
    requires a != 0.0
    ensures var r := ScaleMultiplier(ScaleMultiplier(m, stat, a), stat, b);
      stat in r && r[stat] == Multiplier(m, stat) * a * b
  {
    var x := Multiplier(m, stat);
    var m1 := ScaleMultiplier(m, stat, a);
    ProductOfNonZero(x, a);
    assert Multiplier(m1, stat) == Times(x, a);
    assert Times(Times(x, a), b) == x * a * b;
  }

  lemma ProductOfNonZero(x: real, a: real)
    requires x != 0.0 && a != 0.0
    ensures Times(x, a) != 0.0
  {
  }

  /** `add_item` appends, duplicates included. */
  lemma AddItemAppends(st: PlayerState, item: string)
    ensures ApplyAll(st, [AddItem(item)]).inventory == st.inventory + [item]
    ensures ApplyAll(st, [AddItem(item), AddItem(item)]).inventory == st.inventory + [item, item]
  {
    var add := AddItem(item);
    assert [add][1..] == [];
    assert ApplyAll(st, [add]) == ApplyOutcome(st, add);
    var s1 := ApplyOutcome(st, add);
    assert [add, add][1..] == [add];
    assert ApplyAll(s1, [add]) == ApplyOutcome(s1, add);
    assert st.inventory + [item] + [item] == st.inventory + [item, item];
  }

  // ---------------------------------------------------------------------------
  // Reset and talents

  /**
   * `reset`: the fields of a fresh store are assigned over the current ones
   * (numeric fields outside the fresh set survive, as do the fields the
   * store never initialises), then one system line is logged.
   */
  function ResetState(st: PlayerState): PlayerState {
    st.(stats := ResetStats(st.stats), isAlive := true, statMultipliers := map[], statusEffects := [], inventory := [],
        triggeredEventIds := {}, unlockedEventIds := {}, log := PushLog([], LogEntry(Line(RESET_MESSAGE), "system")))
  }

  /** The numeric fields after `Object.assign` of the fresh ones. */
  function ResetStats(stats: map<string, real>): (r: map<string, real>)
    ensures HasTurnStats(r)
  {
    InitialStatsHaveTurnStats();
    stats + InitialStats()
  }

  lemma ResetKeepsUninitialised(st: PlayerState)
    ensures var r := ResetState(st);
      r.WellFormed() && r.isAlive && r.log == [LogEntry(Line(RESET_MESSAGE), "system")]
      && (forall k :: k in InitialStats() ==> k in r.stats && r.stats[k] == InitialStats()[k])
      && (forall k :: k in st.stats && k !in InitialStats() ==> k in r.stats && r.stats[k] == st.stats[k])
      && r.madeChoices == st.madeChoices && r.talents == st.talents && r.tags == st.tags
      && r.variables == st.variables && r.deathReason == st.deathReason
      && r.tagProbabilityModifiers == st.tagProbabilityModifiers && r.eventModifiers == st.eventModifiers
  {
  }

  function TalentNames(talents: seq<Talent>): seq<string> {
    seq(|talents|, i requires 0 <= i < |talents| => talents[i].name)
  }

  function TalentsMessage(talents: seq<Talent>): string {
    "你帶著天賦 [" + Join(TalentNames(talents), ", ") + "] 進入了兔子洞。"
  }

  /** Every talent's effects applied in order. */
  function ApplyTalents(st: PlayerState, talents: seq<Talent>): (r: PlayerState)
    ensures r.stats.Keys == st.stats.Keys
    ensures OnlyOutcomeFieldsDiffer(st, r)
    decreases |talents|
  {
    if talents == [] then st else ApplyTalents(ApplyAll(st, talents[0].effects), talents[1..])
  }

  function InitializeWithTalentsState(st: PlayerState, talents: seq<Talent>): PlayerState {
    var s := ResetState(st);
    ApplyTalents(s.(log := PushLog(s.log, LogEntry(Line(TalentsMessage(talents)), "system"))), talents)
  }

  /** A new life starts alive with exactly two log lines, the talent line above the reset line. */
  lemma InitializeWithTalentsLog(st: PlayerState, talents: seq<Talent>)
    ensures var r := InitializeWithTalentsState(st, talents);
      r.WellFormed() && r.isAlive && r.statusEffects == [] && r.triggeredEventIds == {}
      && r.log == [LogEntry(Line(TalentsMessage(talents)), "system"), LogEntry(Line(RESET_MESSAGE), "system")]
  {
  }

  // ---------------------------------------------------------------------------
  // The turn

  /** The numeric fields `nextTurn` reads. */
  predicate HasTurnStats(stats: map<string, real>) {
    "turn" in stats && "age" in stats && "health" in stats && "sanity" in stats && "money" in stats
  }

  predicate HasEffect(effects: seq<StatusEffect>, id: string) {
    exists e :: e in effects && e.id == id
  }

  predicate NotDebt(e: StatusEffect) {
    e.id != DEBT_ID
  }

  predicate Active(e: StatusEffect) {
    e.duration > 0
  }

  /** Turn and age advance; past 30 health decays, past 20 sanity decays. */
  function Aged(st: PlayerState): (r: PlayerState)
    requires HasTurnStats(st.stats)
    ensures r.stats.Keys == st.stats.Keys && r == st.(stats := r.stats)
  {
    var s1 := st.stats["turn" := st.stats["turn"] + 1.0]["age" := st.stats["age"] + 0.5];
    var s2 := if s1["age"] > 30.0 then s1["health" := s1["health"] - 0.1] else s1;
    var s3 := if s1["age"] > 20.0 then s2["sanity" := s2["sanity"] - 0.05] else s2;
    st.(stats := s3)
  }

  /** Falling below zero money adds the debt effect; reaching zero or more with it removes it. */
  function DebtStep(st: PlayerState): (r: PlayerState)
    requires "money" in st.stats
    ensures r == st.(statusEffects := r.statusEffects, log := r.log)
  {
    var inDebt := HasEffect(st.statusEffects, DEBT_ID);
    var money := st.stats["money"];
    if money < 0.0 && !inDebt then
      st.(statusEffects := st.statusEffects + [StatusEffect(DEBT_ID, DEBT_DURATION)],
          log := PushLog(st.log, LogEntry(Line(DEBT_MESSAGE), "feedback")))
    else if money >= 0.0 && inDebt then
      st.(statusEffects := Filter(st.statusEffects, NotDebt),
          log := PushLog(st.log, LogEntry(Line(DEBT_CLEARED_MESSAGE), "feedback")))
    else st
  }

  /** The directives of a status effect's definition; an undefined effect has none. */
  function EffectOutcomes(defs: map<string, StatusEffectDef>, id: string): seq<Outcome> {
    if id in defs then defs[id].outcomes else []
  }

  /**
   * The tick loop from position i on: each effect applies its definition,
   * then loses one turn. Effects before i are left alone.
   */
  function TickStep(st: PlayerState, defs: map<string, StatusEffectDef>, i: nat): (r: PlayerState)
    requires i < |st.statusEffects|
    ensures r.stats.Keys == st.stats.Keys && r.log == st.log && r.isAlive == st.isAlive
    ensures r.statusEffects == st.statusEffects[i := st.statusEffects[i].(duration := st.statusEffects[i].duration - 1)]
  {
    var e := st.statusEffects[i];
    var applied := ApplyAll(st, EffectOutcomes(defs, e.id));
    applied.(statusEffects := applied.statusEffects[i := e.(duration := e.duration - 1)])
  }

  lemma TickFromUnfold(st: PlayerState, defs: map<string, StatusEffectDef>, i: nat)
    requires i < |st.statusEffects|
    ensures TickFrom(st, defs, i) == TickFrom(TickStep(st, defs, i), defs, i + 1)
  {
  }

  lemma TickFromDone(st: PlayerState, defs: map<string, StatusEffectDef>)
    ensures TickFrom(st, defs, |st.statusEffects|) == st
  {
  }

  function TickFrom(st: PlayerState, defs: map<string, StatusEffectDef>, i: nat): (r: PlayerState)
    requires i <= |st.statusEffects|
    ensures r.stats.Keys == st.stats.Keys && r.log == st.log && r.isAlive == st.isAlive
    ensures |r.statusEffects| == |st.statusEffects|
    decreases |st.statusEffects| - i
  {
    if i == |st.statusEffects| then st
    else TickFrom(TickStep(st, defs, i), defs, i + 1)
  }

  /** The tick loop from i on keeps the effects before i and lowers every later duration by one. */
  lemma {:induction false} TickFromDurations(st: PlayerState, defs: map<string, StatusEffectDef>, i: nat)
    requires i <= |st.statusEffects|
    ensures var r := TickFrom(st, defs, i);
      (forall k :: 0 <= k < i ==> r.statusEffects[k] == st.statusEffects[k])
      && (forall k :: i <= k < |r.statusEffects| ==>
            r.statusEffects[k] == st.statusEffects[k].(duration := st.statusEffects[k].duration - 1))
    decreases |st.statusEffects| - i
  {
    if i < |st.statusEffects| {
      TickFromDurations(TickStep(st, defs, i), defs, i + 1);
    }
  }

  /** Each effect applies its definition and loses one turn; effects at zero are dropped. */
  function Tick(st: PlayerState, defs: map<string, StatusEffectDef>): (r: PlayerState)
    ensures r.stats.Keys == st.stats.Keys && r.log == st.log && r.isAlive == st.isAlive
  {
    if |st.statusEffects| > 0 then
      var ticked := TickFrom(st, defs, 0);
      ticked.(statusEffects := Filter(ticked.statusEffects, Active))
    else st
  }

  /** `endGame`: the first call ends a living game and logs the reason; later calls do nothing. */
  function EndGameState(st: PlayerState, reason: string): (r: PlayerState)
    ensures r == st.(isAlive := r.isAlive, log := r.log)
  {
    if !st.isAlive then st
    else st.(isAlive := false, log := PushLog(st.log, LogEntry(Line(ENDING_PREFIX + reason), "ending")))
  }

  lemma EndGameOnce(st: PlayerState, first: string, second: string)
    ensures EndGameState(EndGameState(st, first), second) == EndGameState(st, first)
    ensures !EndGameState(st, first).isAlive
  {
  }

  /** The four death checks in order; only the first that holds is logged. */
  function DeathChecks(st: PlayerState): (r: PlayerState)
    requires HasTurnStats(st.stats)
    ensures r == st.(isAlive := r.isAlive, log := r.log)
  {
    var s1 := if st.stats["health"] <= 0.0 then EndGameState(st, BODY_DEATH) else st;
    var s2 := if st.stats["sanity"] <= 0.0 then EndGameState(s1, MIND_DEATH) else s1;
    var s3 := if st.stats["age"] > 100.0 then EndGameState(s2, AGE_DEATH) else s2;
    if st.stats["money"] < DEBT_DEATH_LINE then EndGameState(s3, DEBT_DEATH) else s3
  }

  /** `nextTurn`: nothing happens to a dead player. */
  function NextTurnState(st: PlayerState, defs: map<string, StatusEffectDef>): PlayerState
    requires HasTurnStats(st.stats)
  {
    if !st.isAlive then st
    else
      var s := DebtStep(Aged(st));
      DeathChecks(Tick(s, defs))
  }

  /** Stats that drive a death, judged after the tick. */
  predicate Fatal(stats: map<string, real>)
    requires HasTurnStats(stats)
  {
    stats["health"] <= 0.0 || stats["sanity"] <= 0.0 || stats["age"] > 100.0 || stats["money"] < DEBT_DEATH_LINE
  }

  /** The reason of the first death check that holds. */
  function FirstDeathReason(stats: map<string, real>): string
    requires HasTurnStats(stats)
  {
    if stats["health"] <= 0.0 then BODY_DEATH
    else if stats["sanity"] <= 0.0 then MIND_DEATH
    else if stats["age"] > 100.0 then AGE_DEATH
    else DEBT_DEATH
  }

  /** The status-effect definitions do not change the given stat. */
  predicate DefsLeave(defs: map<string, StatusEffectDef>, stat: string) {
    forall id :: id in defs ==> Untouched(defs[id].outcomes, stat)
  }

  lemma {:induction false} TickFromKeepsUntouched(st: PlayerState, defs: map<string, StatusEffectDef>, i: nat, stat: string)
    requires i <= |st.statusEffects| && stat in st.stats && DefsLeave(defs, stat)
    ensures TickFrom(st, defs, i).stats[stat] == st.stats[stat]
    decreases |st.statusEffects| - i
  {
    if i < |st.statusEffects| {
      ApplyAllKeepsUntouched(st, EffectOutcomes(defs, st.statusEffects[i].id), stat);
      TickFromKeepsUntouched(TickStep(st, defs, i), defs, i + 1, stat);
    }
  }

  /**
   * A living player survives the turn exactly when none of the death checks
   * holds on the stats after the tick; a death logs the first reason that holds.
   */
  lemma NextTurnDeath(st: PlayerState, defs: map<string, StatusEffectDef>)
    requires HasTurnStats(st.stats) && st.isAlive
    ensures var r := NextTurnState(st, defs);
      HasTurnStats(r.stats)
      && (!r.isAlive <==> Fatal(r.stats))
      && (!r.isAlive ==> r.log[0] == LogEntry(Line(ENDING_PREFIX + FirstDeathReason(r.stats)), "ending"))
  {
    var a := Aged(st);
    var s := DebtStep(a);
    assert s.stats == a.stats && s.isAlive;
    var t := Tick(s, defs);
    assert HasTurnStats(t.stats) && t.isAlive;
    DeathChecksFacts(t);
  }

  /** The death checks on a living player: it dies exactly on fatal stats, logging the first reason. */
  lemma DeathChecksFacts(t: PlayerState)
    requires HasTurnStats(t.stats) && t.isAlive
    ensures var r := DeathChecks(t);
      r.stats == t.stats
      && (!r.isAlive <==> Fatal(t.stats))
      && (!r.isAlive ==> r.log[0] == LogEntry(Line(ENDING_PREFIX + FirstDeathReason(t.stats)), "ending"))
  {
  }

  /** A dead player's state does not change. */
  lemma NextTurnWhenDead(st: PlayerState, defs: map<string, StatusEffectDef>)
    requires HasTurnStats(st.stats) && !st.isAlive
    ensures NextTurnState(st, defs) == st
  {
  }

  lemma {:induction false} TickFromKeepsBookkeeping(st: PlayerState, defs: map<string, StatusEffectDef>, i: nat)
    requires i <= |st.statusEffects|
    ensures TickFrom(st, defs, i).triggeredEventIds == st.triggeredEventIds
    ensures TickFrom(st, defs, i).madeChoices == st.madeChoices
    ensures TickFrom(st, defs, i).tags == st.tags
    decreases |st.statusEffects| - i
  {
    if i < |st.statusEffects| {
      TickFromKeepsBookkeeping(TickStep(st, defs, i), defs, i + 1);
    }
  }

  /** A turn leaves the triggered events, the choices made and the tags as they were. */
  lemma NextTurnKeepsBookkeeping(st: PlayerState, defs: map<string, StatusEffectDef>)
    requires HasTurnStats(st.stats)
    ensures NextTurnState(st, defs).triggeredEventIds == st.triggeredEventIds
    ensures NextTurnState(st, defs).madeChoices == st.madeChoices
    ensures NextTurnState(st, defs).tags == st.tags
    ensures HasTurnStats(NextTurnState(st, defs).stats)
  {
    if st.isAlive {
      var s := DebtStep(Aged(st));
      if |s.statusEffects| > 0 {
        TickFromKeepsBookkeeping(s, defs, 0);
      }
    }
  }

  /** Each living turn adds one to the turn counter and half a year to the age. */
  lemma {:induction false} NextTurnAdvancesClock(st: PlayerState, defs: map<string, StatusEffectDef>)
    requires HasTurnStats(st.stats) && st.isAlive && DefsLeave(defs, "turn") && DefsLeave(defs, "age")
    ensures NextTurnState(st, defs).stats["turn"] == st.stats["turn"] + 1.0
    ensures NextTurnState(st, defs).stats["age"] == st.stats["age"] + 0.5
  {
    var s := DebtStep(Aged(st));
    if |s.statusEffects| > 0 {
      TickFromKeepsUntouched(s, defs, 0, "turn");
      TickFromKeepsUntouched(s, defs, 0, "age");
    }
  }

  /** After a living turn no status effect has run out. */
  lemma NextTurnEffectsActive(st: PlayerState, defs: map<string, StatusEffectDef>)
    requires HasTurnStats(st.stats) && st.isAlive
    ensures forall e :: e in NextTurnState(st, defs).statusEffects ==> e.duration > 0
  {
  }

  /** Falling into debt adds the debt effect, which already loses its first turn. */
  lemma NextTurnEntersDebt(st: PlayerState, defs: map<string, StatusEffectDef>)
    requires HasTurnStats(st.stats) && st.isAlive && st.stats["money"] < 0.0
    requires !HasEffect(st.statusEffects, DEBT_ID)
    ensures StatusEffect(DEBT_ID, DEBT_DURATION - 1) in NextTurnState(st, defs).statusEffects
  {
    var a := Aged(st);
    assert a.stats["money"] == st.stats["money"] && a.statusEffects == st.statusEffects;
    var s := DebtStep(a);
    assert s.statusEffects == st.statusEffects + [StatusEffect(DEBT_ID, DEBT_DURATION)];
    TickFromDurations(s, defs, 0);
    var d := TickFrom(s, defs, 0).statusEffects;
    assert d[|d| - 1] == StatusEffect(DEBT_ID, DEBT_DURATION - 1);
    assert d[|d| - 1] in Filter(d, Active);
    TurnEffects(st, defs);
  }

  /** Money back at zero or above removes every debt effect. */
  lemma NextTurnLeavesDebt(st: PlayerState, defs: map<string, StatusEffectDef>)
    requires HasTurnStats(st.stats) && st.isAlive && st.stats["money"] >= 0.0
    requires HasEffect(st.statusEffects, DEBT_ID)
    ensures !HasEffect(NextTurnState(st, defs).statusEffects, DEBT_ID)
  {
    var a := Aged(st);
    assert a.stats["money"] == st.stats["money"] && a.statusEffects == st.statusEffects;
    var s := DebtStep(a);
    assert s.statusEffects == Filter(a.statusEffects, NotDebt);
    TickKeepsAbsent(s, defs, DEBT_ID);
    TurnEffects(st, defs);
  }

  /** A living turn's status effects are those the tick leaves. */
  lemma TurnEffects(st: PlayerState, defs: map<string, StatusEffectDef>)
    requires HasTurnStats(st.stats) && st.isAlive
    ensures NextTurnState(st, defs).statusEffects == Tick(DebtStep(Aged(st)), defs).statusEffects
  {
    var t := Tick(DebtStep(Aged(st)), defs);
    assert DeathChecks(t).statusEffects == t.statusEffects;
  }

  /** The tick adds no effect: an id no effect has stays absent. */
  lemma TickKeepsAbsent(s: PlayerState, defs: map<string, StatusEffectDef>, id: string)
    requires forall k :: 0 <= k < |s.statusEffects| ==> s.statusEffects[k].id != id
    ensures forall e :: e in Tick(s, defs).statusEffects ==> e.id != id
  {
    if |s.statusEffects| > 0 {
      TickFromDurations(s, defs, 0);
      var d := TickFrom(s, defs, 0).statusEffects;
      forall e | e in Filter(d, Active) ensures e.id != id {
        var k :| 0 <= k < |d| && d[k] == e;
        assert d[k].id == s.statusEffects[k].id;
      }
    }
  }

  // ---------------------------------------------------------------------------
  // The store

  class Player {
    var stats: map<string, real>
    var isAlive: bool
    var deathReason: Option<string>
    var statMultipliers: map<string, real>
    var statusEffects: seq<StatusEffect>
    var inventory: seq<string>
    var triggeredEventIds: set<string>
    var unlockedEventIds: set<string>
    var madeChoices: set<string>
    var talents: seq<Talent>
    var tags: Option<seq<string>>
    var variables: Option<map<string, Value>>
    var tagProbabilityModifiers: map<string, real>
    var eventModifiers: seq<EventModifier>
    var log: seq<LogEntry>

    function View(): PlayerState
      reads this
    {
      PlayerState(stats, isAlive, deathReason, statMultipliers, statusEffects, inventory, triggeredEventIds,
                  unlockedEventIds, madeChoices, talents, tags, variables, tagProbabilityModifiers,
                  eventModifiers, log)
    }

    /** `View().WellFormed()`, read off the fields. */
    ghost predicate Valid()
      reads this
    {
      HasTurnStats(stats) && |log| <= LOG_CAP
    }

    constructor()
      ensures Valid() && View() == InitialState()
    {
      stats := InitialStats();
      isAlive := true;
      deathReason := None;
      statMultipliers := map[];
      statusEffects := [];
      inventory := [];
      triggeredEventIds := {};
      unlockedEventIds := {};
      madeChoices := {};
      talents := [];
      tags := None;
      variables := None;
      tagProbabilityModifiers := map[];
      eventModifiers := [];
      log := [];
    }

    /** `dominantWorldview`. */
    function DominantWorldviewOf(): string
      reads this
    {
      DominantWorldview(stats)
    }

    method AddLog(message: Message, kind: string)
      requires Valid()
      modifies this`log
      ensures Valid()
      ensures View() == old(View()).(log := PushLog(old(log), LogEntry(message, kind)))
    {
      log := [LogEntry(message, kind)] + log;
      if |log| > LOG_CAP {
        log := log[..|log| - 1];
      }
    }

    /** `reset`: `Object.assign` of a fresh store, then one system line. */
    method Reset()
      modifies this`stats, this`isAlive, this`statMultipliers, this`statusEffects, this`inventory,
        this`triggeredEventIds, this`unlockedEventIds, this`log
      ensures Valid()
      ensures View() == ResetState(old(View()))
    {
      AssignInitialStats();
      ClearProgress();
      AddLog(Line(RESET_MESSAGE), "system");
    }

    /** The numeric part of the fresh store's assignment. */
    method AssignInitialStats()
      modifies this`stats
      ensures HasTurnStats(stats)
      ensures View() == old(View()).(stats := ResetStats(old(stats)))
    {
      stats := ResetStats(stats);
    }

    /** The rest of the fresh store's assignment: alive, and no multipliers, effects, items, events or log. */
    method ClearProgress()
      modifies this`isAlive, this`statMultipliers, this`statusEffects, this`inventory,
        this`triggeredEventIds, this`unlockedEventIds, this`log
      ensures View() == old(View()).(isAlive := true, statMultipliers := map[], statusEffects := [], inventory := [],
        triggeredEventIds := {}, unlockedEventIds := {}, log := [])
    {
      ClearEffects();
      ClearHistory();
    }

    method ClearEffects()
      modifies this`isAlive, this`statMultipliers, this`statusEffects
      ensures View() == old(View()).(isAlive := true, statMultipliers := map[], statusEffects := [])
    {
      isAlive, statMultipliers, statusEffects := true, map[], [];
    }

    method ClearHistory()
      modifies this`inventory, this`triggeredEventIds, this`unlockedEventIds, this`log
      ensures View() == old(View()).(inventory := [], triggeredEventIds := {}, unlockedEventIds := {}, log := [])
    {
      inventory, triggeredEventIds, unlockedEventIds, log := [], {}, {}, [];
    }

    /** Applies one `change_stat`, one delta key at a time. */
    method ChangeStat(deltas: map<string, real>)
      requires Valid()
      modifies this`stats
      ensures Valid()
      ensures View() == old(View()).(stats := ChangeStats(old(stats), statMultipliers, deltas))
    {
      var pending := deltas.Keys;
      ghost var done: set<string> := {};
      while pending != {}
        invariant pending <= deltas.Keys && done == deltas.Keys - pending
        invariant stats == ChangeStatsOn(old(stats), statMultipliers, deltas, done)
        decreases pending
      {
        var stat :| stat in pending;
        ChangeStatsOnStep(old(stats), statMultipliers, deltas, done, stat);
        if stat in stats {
          stats := stats[stat := stats[stat] + ScaledDelta(statMultipliers, stat, deltas[stat]) as real];
        }
        pending := pending - {stat};
        done := done + {stat};
      }
    }

    /** One directive of `applyOutcomes`. */
    method ApplyOne(outcome: Outcome)
      requires Valid()
      modifies this`stats, this`statMultipliers, this`inventory, this`unlockedEventIds
      ensures Valid()
      ensures View() == ApplyOutcome(old(View()), outcome)
    {
      match outcome {
        case ChangeStat(deltas) =>
          ChangeStat(deltas);
        case AddMultiplier(stat, factor) =>
          if stat in stats {
            if !(stat in statMultipliers && statMultipliers[stat] != 0.0) {
              statMultipliers := statMultipliers[stat := 1.0];
            }
            statMultipliers := statMultipliers[stat := Times(statMultipliers[stat], factor)];
          }
        case AddItem(itemId) =>
          inventory := inventory + [itemId];
        case UnlocksEvent(eventId) =>
          unlockedEventIds := unlockedEventIds + {eventId};
        case _ =>
      }
    }

    method ApplyOutcomes(outcomes: seq<Outcome>)
      requires Valid()
      modifies this`stats, this`statMultipliers, this`inventory, this`unlockedEventIds
      ensures Valid()
      ensures View() == ApplyAll(old(View()), outcomes)
    {
      var i := 0;
      while i < |outcomes|
        invariant 0 <= i <= |outcomes|
        invariant Valid()
        invariant ApplyAll(View(), outcomes[i..]) == ApplyAll(old(View()), outcomes)
      {
        ApplyOne(outcomes[i]);
        assert outcomes[i..][1..] == outcomes[i + 1..];
        i := i + 1;
      }
    }

    method InitializeWithTalents(chosen: seq<Talent>)
      modifies this`stats, this`isAlive, this`statMultipliers, this`statusEffects, this`inventory,
        this`triggeredEventIds, this`unlockedEventIds, this`log
      ensures Valid()
      ensures View() == InitializeWithTalentsState(old(View()), chosen)
    {
      Reset();
      AddLog(Line(TalentsMessage(chosen)), "system");
      ghost var start := View();
      var i := 0;
      while i < |chosen|
        invariant 0 <= i <= |chosen|
        invariant Valid()
        invariant ApplyTalents(View(), chosen[i..]) == ApplyTalents(start, chosen)
      {
        ApplyOutcomes(chosen[i].effects);
        assert chosen[i..][1..] == chosen[i + 1..];
        i := i + 1;
      }
    }

    method EndGame(reason: string)
      requires Valid()
      modifies this`isAlive, this`log
      ensures Valid()
      ensures View() == EndGameState(old(View()), reason)
    {
      if !isAlive {
        return;
      }
      isAlive := false;
      AddLog(Line(ENDING_PREFIX + reason), "ending");
    }

    /** The clock step of `nextTurn`: turn and age advance, then age-driven decay. */
    method AgeOneTurn()
      requires Valid()
      modifies this`stats
      ensures Valid()
      ensures View() == Aged(old(View()))
    {
      stats := stats["turn" := stats["turn"] + 1.0];
      stats := stats["age" := stats["age"] + 0.5];
      if stats["age"] > 30.0 {
        stats := stats["health" := stats["health"] - 0.1];
      }
      if stats["age"] > 20.0 {
        stats := stats["sanity" := stats["sanity"] - 0.05];
      }
    }

    /** The debt step of `nextTurn`. */
    method SettleDebt()
      requires Valid()
      modifies this`statusEffects, this`log
      ensures Valid()
      ensures View() == DebtStep(old(View()))
    {
      var isInDebt := exists e :: e in statusEffects && e.id == DEBT_ID;
      if stats["money"] < 0.0 && !isInDebt {
        statusEffects := statusEffects + [StatusEffect(DEBT_ID, DEBT_DURATION)];
        AddLog(Line(DEBT_MESSAGE), "feedback");
      } else if stats["money"] >= 0.0 && isInDebt {
        statusEffects := Filter(statusEffects, NotDebt);
        AddLog(Line(DEBT_CLEARED_MESSAGE), "feedback");
      }
    }

    /** The status-effect step of `nextTurn`: each effect's definition applied, its duration lowered, then the spent ones dropped. */
    method TickStatusEffects(defs: map<string, StatusEffectDef>)
      requires Valid()
      modifies this`stats, this`statMultipliers, this`inventory, this`unlockedEventIds, this`statusEffects
      ensures Valid()
      ensures View() == Tick(old(View()), defs)
    {
      if |statusEffects| > 0 {
        TickEach(defs);
        statusEffects := Filter(statusEffects, Active);
      }
    }

    /** The `forEach` of the tick: every effect in turn. */
    method TickEach(defs: map<string, StatusEffectDef>)
      requires Valid()
      modifies this`stats, this`statMultipliers, this`inventory, this`unlockedEventIds, this`statusEffects
      ensures Valid()
      ensures View() == TickFrom(old(View()), defs, 0)
    {
      ghost var target := TickFrom(View(), defs, 0);
      var i := 0;
      while i < |statusEffects|
        invariant 0 <= i <= |statusEffects|
        invariant Valid()
        invariant TickFrom(View(), defs, i) == target
      {
        ghost var before := View();
        TickEffect(defs, i);
        TickFromUnfold(before, defs, i);
        i := i + 1;
      }
      TickFromDone(View(), defs);
    }

    /** One pass of the tick loop: effect i applies its definition, then loses one turn. */
    method TickEffect(defs: map<string, StatusEffectDef>, i: nat)
      requires Valid() && i < |statusEffects|
      modifies this`stats, this`statMultipliers, this`inventory, this`unlockedEventIds, this`statusEffects
      ensures Valid()
      ensures View() == TickStep(old(View()), defs, i)
    {
      var effect := statusEffects[i];
      if effect.id in defs {
        ApplyOutcomes(defs[effect.id].outcomes);
      }
      statusEffects := statusEffects[i := effect.(duration := effect.duration - 1)];
    }

    /** The death step of `nextTurn`. */
    method CheckDeath()
      requires Valid()
      modifies this`isAlive, this`log
      ensures Valid()
      ensures View() == DeathChecks(old(View()))
    {
      if stats["health"] <= 0.0 {
        EndGame(BODY_DEATH);
      }
      if stats["sanity"] <= 0.0 {
        EndGame(MIND_DEATH);
      }
      if stats["age"] > 100.0 {
        EndGame(AGE_DEATH);
      }
      if stats["money"] < DEBT_DEATH_LINE {
        EndGame(DEBT_DEATH);
      }
    }

    method NextTurn(defs: map<string, StatusEffectDef>)
      requires Valid()
      modifies this`stats, this`statMultipliers, this`inventory, this`unlockedEventIds,
        this`statusEffects, this`isAlive, this`log
      ensures Valid()
      ensures View() == NextTurnState(old(View()), defs)
    {
      if !isAlive {
        return;
      }
      AgeOneTurn();
      SettleDebt();
      TickStatusEffects(defs);
      CheckDeath();
    }
  }
}
