/**
 * Manual mode. Each turn advances the player, finds one event with the event
 * center's weighted roulette, logs it, and puts at most three of its choices
 * on screen: system choices always, other choices when their conditions hold
 * and they add no conflicting tag, in a random order. With no event, or no
 * choice to show, the screen holds only the time-passes sentinel. Selecting a
 * choice records it, resolves one result bucket, applies the outcomes and, for
 * a living player, plays the next turn.
 *
 * The random order of `sort(() => 0.5 - Math.random())` is a `Shuffle`
 * parameter: any function that permutes its argument.
 */
module InteractiveGame {
  import opened Common
  import opened Content
  import opened PlayerStore
  import opened TagUtils
  import opened TextParser
  import EventCenter

  const TIME_PASSES_ID: string := "system_time_passes"
  const TIME_PASSES_TEXT: string := "[ 时间流逝... ]"
  /** The line logged when no event is found. */
  const IDLE_MESSAGE: string := "你静静地思索着，没有什么特别的事情发生。"
  /** The line logged when an event has no choice to show. */
  const NOTHING_SHOWN_MESSAGE: string := "> 你感到一阵迷茫，不知何去何从。"
  /** `choicesToShow.slice(0, 3)`. */
  const MAX_SHOWN: nat := 3

  /** A choice on screen: the choice with its text rendered, and the id of its event ("" for none). */
  datatype Shown = Shown(choice: Choice, parentEventId: string)

  /** `TIME_PASSES_CHOICE`: a system choice with an id and a text and nothing else. */
  function TimePasses(): (s: Shown)
    ensures s.choice.isSystemChoice && s.choice.id == TIME_PASSES_ID && s.parentEventId == ""
  {
    Shown(Choice(TIME_PASSES_ID, TIME_PASSES_TEXT, [], "", 0.0, false, true, None, [], ""), "")
  }

  /** What the game reads besides the player: the loaded events, the tag table, the test flag, the effect definitions. */
  datatype World = World(events: seq<Event>, table: ConflictMap, showTest: bool, defs: map<string, StatusEffectDef>)

  /** The player and the choices on screen. */
  datatype Screen = Screen(player: PlayerState, shown: seq<Shown>)

  type Shuffle = seq<Choice> -> seq<Choice>

  /** The order `sort` leaves is some permutation of the list. */
  ghost predicate IsShuffle(shuffle: Shuffle) {
    forall xs: seq<Choice> :: multiset(shuffle(xs)) == multiset(xs)
  }

  // ---------------------------------------------------------------------------
  // The choices shown

  /** The filter: system choices pass; others need their conditions and no tag conflict. */
  predicate Showable(table: ConflictMap, c: Choice, st: PlayerState) {
    c.isSystemChoice || (EventCenter.AllMet(c.conditions, st) && !ChoiceAddsConflictingTag(table, c, st.tags))
  }

  /** The filter evaluates the conditions of every non-system choice. */
  predicate ShowDefined(choices: seq<Choice>, st: PlayerState) {
    forall k :: 0 <= k < |choices| && !choices[k].isSystemChoice ==> EventCenter.AllMetDefined(choices[k].conditions, st)
  }

  function ShowableChoices(table: ConflictMap, choices: seq<Choice>, st: PlayerState): seq<Choice> {
    if choices == [] then []
    else (if Showable(table, choices[0], st) then [choices[0]] else []) + ShowableChoices(table, choices[1..], st)
  }

  /** The filter keeps exactly the showable choices, each as often as it occurs. */
  lemma {:induction false} ShowableChoicesMembers(table: ConflictMap, choices: seq<Choice>, st: PlayerState)
    ensures forall c :: c in ShowableChoices(table, choices, st) <==> c in choices && Showable(table, c, st)
    ensures multiset(ShowableChoices(table, choices, st)) <= multiset(choices)
  {
    if choices != [] {
      ShowableChoicesMembers(table, choices[1..], st);
      assert choices == [choices[0]] + choices[1..];
    }
  }

  /** Each choice with its text rendered for the player and the event's id attached. */
  function Render(cs: seq<Choice>, e: Event, st: PlayerState, td: nat -> Unit): (r: seq<Shown>)
    ensures |r| == |cs|
    ensures forall k :: 0 <= k < |r| ==> r[k].parentEventId == e.id && r[k].choice.(text := cs[k].text) == cs[k]
    ensures forall k :: 0 <= k < |r| ==> r[k].choice.text == ParseText(cs[k].text, Some(st), td)
  {
    seq(|cs|, k requires 0 <= k < |cs| => Shown(cs[k].(text := ParseText(cs[k].text, Some(st), td)), e.id))
  }

  /** At most the first three. */
  function Capped(cs: seq<Choice>): seq<Choice> {
    if |cs| > MAX_SHOWN then cs[..MAX_SHOWN] else cs
  }

  /** The choices of event e put on screen for the player st. */
  function Offered(w: World, e: Event, st: PlayerState, td: nat -> Unit, shuffle: Shuffle): seq<Shown> {
    Render(Capped(shuffle(ShowableChoices(w.table, e.choices, st))), e, st, td)
  }

  /**
   * At most three choices are shown, as many as pass the filter up to
   * three; each shown choice is a choice of the event that passes the
   * filter, with its text rendered and the event's id as its parent.
   */
  lemma OfferedValid(w: World, e: Event, st: PlayerState, td: nat -> Unit, shuffle: Shuffle)
    requires IsShuffle(shuffle)
    ensures var n := |ShowableChoices(w.table, e.choices, st)|;
      |Offered(w, e, st, td, shuffle)| == if n > MAX_SHOWN then MAX_SHOWN else n
    ensures forall x :: x in Offered(w, e, st, td, shuffle) ==>
      x.parentEventId == e.id
      && exists c :: c in e.choices && Showable(w.table, c, st) && x.choice == c.(text := ParseText(c.text, Some(st), td))
  {
    var valid := ShowableChoices(w.table, e.choices, st);
    var shuffled := shuffle(valid);
    assert multiset(shuffled) == multiset(valid);
    assert |shuffled| == |valid| by {
      assert |multiset(shuffled)| == |multiset(valid)|;
    }
    var capped := Capped(shuffled);
    ShowableChoicesMembers(w.table, e.choices, st);
    forall x | x in Offered(w, e, st, td, shuffle)
      ensures x.parentEventId == e.id
      ensures exists c :: c in e.choices && Showable(w.table, c, st) && x.choice == c.(text := ParseText(c.text, Some(st), td))
    {
      var k :| 0 <= k < |capped| && x == Render(capped, e, st, td)[k];
      var c := capped[k];
      assert c in shuffled;
      assert c in multiset(valid);
      assert c in valid;
    }
  }

  /** A system choice of the event is shown whenever it is not pushed out of the first three. */
  lemma SystemChoicesPass(w: World, e: Event, st: PlayerState, c: Choice)
    requires c in e.choices && c.isSystemChoice
    ensures c in ShowableChoices(w.table, e.choices, st)
  {
    ShowableChoicesMembers(w.table, e.choices, st);
  }

  // ---------------------------------------------------------------------------
  // A turn

  /** The player after the event's title and text are logged. */
  function Logged(st: PlayerState, e: Event, td: nat -> Unit): PlayerState {
    st.(log := PushLog(st.log, LogEntry(EventLine(ParseText(e.title, Some(st), td), ParseText(e.text, Some(st), td)), "event")))
  }

  /** `nextTurn`: the player and the screen after one turn. `shown` is the screen before. */
  function TurnScreen(w: World, st: PlayerState, shown: seq<Shown>, r: Unit, td: nat -> Unit, shuffle: Shuffle): Screen
    requires HasTurnStats(st.stats)
  {
    if !st.isAlive then Screen(st, shown)
    else
      var s1 := NextTurnState(st, w.defs);
      if !s1.isAlive then Screen(s1, [])
      else
        match EventCenter.TriggerableEvent(w.events, s1, w.showTest, r)
        case None => Screen(s1.(log := PushLog(s1.log, LogEntry(Line(IDLE_MESSAGE), "system"))), [TimePasses()])
        case Some(e) =>
          var s2 := Logged(s1, e, td);
          var offered := Offered(w, e, s2, td, shuffle);
          if offered == [] then Screen(s2.(log := PushLog(s2.log, LogEntry(Line(NOTHING_SHOWN_MESSAGE), "system"))), [TimePasses()])
          else Screen(s2, offered)
  }

  /** What a turn evaluates can be evaluated: the events' conditions, then the found event's choices. */
  ghost predicate TurnDefined(w: World, st: PlayerState, r: Unit, td: nat -> Unit)
    requires HasTurnStats(st.stats)
  {
    var s1 := NextTurnState(st, w.defs);
    st.isAlive && s1.isAlive ==>
      EventCenter.EventsDefined(w.events, s1, w.showTest)
      && (var e := EventCenter.TriggerableEvent(w.events, s1, w.showTest, r);
          e.Some? ==> ShowDefined(e.value.choices, Logged(s1, e.value, td)))
  }

  /**
   * A dead player's turn changes nothing; a player who dies in the tick is
   * left with an empty screen; otherwise the screen is never empty, and it
   * is exactly the sentinel when no event is found.
   */
  lemma TurnGuards(w: World, st: PlayerState, shown: seq<Shown>, r: Unit, td: nat -> Unit, shuffle: Shuffle)
    requires HasTurnStats(st.stats)
    ensures !st.isAlive ==> TurnScreen(w, st, shown, r, td, shuffle) == Screen(st, shown)
    ensures st.isAlive && !NextTurnState(st, w.defs).isAlive ==>
      TurnScreen(w, st, shown, r, td, shuffle) == Screen(NextTurnState(st, w.defs), [])
    ensures st.isAlive && NextTurnState(st, w.defs).isAlive ==> TurnScreen(w, st, shown, r, td, shuffle).shown != []
    ensures st.isAlive && NextTurnState(st, w.defs).isAlive
      && EventCenter.TriggerableEvent(w.events, NextTurnState(st, w.defs), w.showTest, r).None?
      ==> TurnScreen(w, st, shown, r, td, shuffle).shown == [TimePasses()]
  {
  }

  /**
   * A turn that finds event e shows at most three of its choices, each one
   * passing the filter with the event as its parent, or else the sentinel
   * alone; it never records an event or a choice.
   */
  lemma TurnShowsEventChoices(w: World, st: PlayerState, shown: seq<Shown>, r: Unit, td: nat -> Unit, shuffle: Shuffle)
    requires HasTurnStats(st.stats) && st.isAlive && IsShuffle(shuffle)
    requires NextTurnState(st, w.defs).isAlive
    requires EventCenter.TriggerableEvent(w.events, NextTurnState(st, w.defs), w.showTest, r).Some?
    ensures var e := EventCenter.TriggerableEvent(w.events, NextTurnState(st, w.defs), w.showTest, r).value;
      var s2 := Logged(NextTurnState(st, w.defs), e, td);
      var screen := TurnScreen(w, st, shown, r, td, shuffle);
      1 <= |screen.shown| <= MAX_SHOWN
      && (screen.shown == [TimePasses()]
          || forall x :: x in screen.shown ==> (x.parentEventId == e.id
               && exists c :: c in e.choices && Showable(w.table, c, s2) && x.choice == c.(text := ParseText(c.text, Some(s2), td))))
  {
    var s1 := NextTurnState(st, w.defs);
    var e := EventCenter.TriggerableEvent(w.events, s1, w.showTest, r).value;
    OfferedValid(w, e, Logged(s1, e, td), td, shuffle);
  }

  /** A turn never records an event or a choice: showing choices is not taking them. */
  lemma TurnKeepsBookkeeping(w: World, st: PlayerState, shown: seq<Shown>, r: Unit, td: nat -> Unit, shuffle: Shuffle)
    requires HasTurnStats(st.stats)
    ensures TurnScreen(w, st, shown, r, td, shuffle).player.triggeredEventIds == st.triggeredEventIds
    ensures TurnScreen(w, st, shown, r, td, shuffle).player.madeChoices == st.madeChoices
  {
    NextTurnKeepsBookkeeping(st, w.defs);
    var s1 := NextTurnState(st, w.defs);
    if st.isAlive && s1.isAlive {
      var found := EventCenter.TriggerableEvent(w.events, s1, w.showTest, r);
      if found.Some? {
        var s2 := Logged(s1, found.value, td);
        assert s2.triggeredEventIds == s1.triggeredEventIds && s2.madeChoices == s1.madeChoices;
      }
    }
  }

  // ---------------------------------------------------------------------------
  // Selecting a choice

  /**
   * The player after a non-system choice: its event and id recorded, the
   * choice logged, one result resolved, its feedback rendered and logged,
   * then its outcomes applied.
   */
  function Chosen(st: PlayerState, x: Shown, rb: Unit, td: nat -> Unit): (r: PlayerState)
    ensures r.stats.Keys == st.stats.Keys && r.isAlive == st.isAlive
  {
    var s1 := if x.parentEventId != "" then st.(triggeredEventIds := st.triggeredEventIds + {x.parentEventId}) else st;
    var s2 := if x.choice.id != "" then s1.(madeChoices := s1.madeChoices + {x.choice.id}) else s1;
    var s3 := s2.(log := PushLog(s2.log, LogEntry(Line("> " + x.choice.text), "choice")));
    var res := EventCenter.Resolve(x.choice, rb);
    var s4 := if res.feedback != "" then s3.(log := PushLog(s3.log, LogEntry(Line(ParseText(res.feedback, Some(s3), td)), "feedback")))
              else s3;
    ApplyAll(s4, res.outcomes)
  }

  /** `handleChoiceSelected`: a system choice only plays the next turn; another one is taken first. */
  function SelectedScreen(w: World, st: PlayerState, shown: seq<Shown>, x: Shown, rb: Unit, r: Unit,
                          td: nat -> Unit, shuffle: Shuffle): Screen
    requires HasTurnStats(st.stats)
  {
    if x.choice.isSystemChoice then TurnScreen(w, st, shown, r, td, shuffle)
    else
      var s := Chosen(st, x, rb, td);
      if s.isAlive then TurnScreen(w, s, shown, r, td, shuffle) else Screen(s, shown)
  }

  /** What a selection evaluates can be evaluated: the next turn, from the player it starts from. */
  ghost predicate SelectDefined(w: World, st: PlayerState, x: Shown, rb: Unit, r: Unit, td: nat -> Unit)
    requires HasTurnStats(st.stats)
  {
    if x.choice.isSystemChoice then TurnDefined(w, st, r, td)
    else Chosen(st, x, rb, td).isAlive ==> TurnDefined(w, Chosen(st, x, rb, td), r, td)
  }

  /**
   * Taking a choice records its event and its id when present, logs the
   * choice and then the rendered feedback of the result, and leaves the
   * player alive or dead as it was: outcomes never end the game.
   */
  lemma ChosenRecords(st: PlayerState, x: Shown, rb: Unit, td: nat -> Unit)
    ensures Chosen(st, x, rb, td).triggeredEventIds
      == st.triggeredEventIds + (if x.parentEventId != "" then {x.parentEventId} else {})
    ensures Chosen(st, x, rb, td).madeChoices == st.madeChoices + (if x.choice.id != "" then {x.choice.id} else {})
    ensures var res := EventCenter.Resolve(x.choice, rb);
      var l := PushLog(st.log, LogEntry(Line("> " + x.choice.text), "choice"));
      res.feedback == "" ==> Chosen(st, x, rb, td).log == l
  {
    var s1 := if x.parentEventId != "" then st.(triggeredEventIds := st.triggeredEventIds + {x.parentEventId}) else st;
    var s2 := if x.choice.id != "" then s1.(madeChoices := s1.madeChoices + {x.choice.id}) else s1;
    var s3 := s2.(log := PushLog(s2.log, LogEntry(Line("> " + x.choice.text), "choice")));
    var res := EventCenter.Resolve(x.choice, rb);
    var s4 := if res.feedback != "" then s3.(log := PushLog(s3.log, LogEntry(Line(ParseText(res.feedback, Some(s3), td)), "feedback")))
              else s3;
    assert Chosen(st, x, rb, td) == ApplyAll(s4, res.outcomes);
  }

  /**
   * Selecting a system choice (the sentinel included) records nothing: the
   * triggered events and the choices made are those the next turn leaves,
   * which are the ones before.
   */
  lemma SystemChoiceOnlyAdvances(w: World, st: PlayerState, shown: seq<Shown>, x: Shown, rb: Unit, r: Unit,
                                 td: nat -> Unit, shuffle: Shuffle)
    requires HasTurnStats(st.stats) && x.choice.isSystemChoice
    ensures SelectedScreen(w, st, shown, x, rb, r, td, shuffle) == TurnScreen(w, st, shown, r, td, shuffle)
    ensures SelectedScreen(w, st, shown, x, rb, r, td, shuffle).player.triggeredEventIds == st.triggeredEventIds
    ensures SelectedScreen(w, st, shown, x, rb, r, td, shuffle).player.madeChoices == st.madeChoices
  {
    TurnKeepsBookkeeping(w, st, shown, r, td, shuffle);
  }

  /** A living player who takes a non-system choice always plays the next turn; a dead one keeps the screen. */
  lemma ChoiceThenTurn(w: World, st: PlayerState, shown: seq<Shown>, x: Shown, rb: Unit, r: Unit,
                       td: nat -> Unit, shuffle: Shuffle)
    requires HasTurnStats(st.stats) && !x.choice.isSystemChoice
    ensures st.isAlive ==>
      SelectedScreen(w, st, shown, x, rb, r, td, shuffle) == TurnScreen(w, Chosen(st, x, rb, td), shown, r, td, shuffle)
    ensures !st.isAlive ==> SelectedScreen(w, st, shown, x, rb, r, td, shuffle) == Screen(Chosen(st, x, rb, td), shown)
  {
  }

  // ---------------------------------------------------------------------------
  // The game

  class Game {
    const player: Player
    const world: World
    var currentManualChoices: seq<Shown>

    constructor(player: Player, world: World)
      ensures this.player == player && this.world == world && currentManualChoices == []
    {
      this.player := player;
      this.world := world;
      currentManualChoices := [];
    }

    /** The screen as a value. */
    function ScreenOf(): Screen
      reads this, player
    {
      Screen(player.View(), currentManualChoices)
    }

    method NextTurn(r: Unit, td: nat -> Unit, shuffle: Shuffle)
      requires player.Valid()
      requires TurnDefined(world, player.View(), r, td)
      modifies this`currentManualChoices, player`stats, player`statMultipliers, player`inventory,
        player`unlockedEventIds, player`statusEffects, player`isAlive, player`log
      ensures player.Valid()
      ensures ScreenOf() == TurnScreen(world, old(player.View()), old(currentManualChoices), r, td, shuffle)
    {
      if !player.isAlive {
        return;
      }
      currentManualChoices := [];
      player.NextTurn(world.defs);
      if !player.isAlive {
        return;
      }
      var event := EventCenter.FindTriggerableEvent(world.events, player.View(), world.showTest, r);
      if event.Some? {
        ShowEvent(event.value, td, shuffle);
      } else {
        player.AddLog(Line(IDLE_MESSAGE), "system");
        currentManualChoices := [TimePasses()];
      }
    }

    /** The event branch of `nextTurn`: log the event, then fill the screen. */
    method ShowEvent(e: Event, td: nat -> Unit, shuffle: Shuffle)
      requires player.Valid()
      requires ShowDefined(e.choices, Logged(player.View(), e, td))
      modifies this`currentManualChoices, player`log
      ensures player.Valid()
      ensures var s2 := Logged(old(player.View()), e, td);
        var offered := Offered(world, e, s2, td, shuffle);
        ScreenOf() == if offered == [] then Screen(s2.(log := PushLog(s2.log, LogEntry(Line(NOTHING_SHOWN_MESSAGE), "system"))), [TimePasses()])
                      else Screen(s2, offered)
    {
      var title := ParseText(e.title, Some(player.View()), td);
      var text := ParseText(e.text, Some(player.View()), td);
      player.AddLog(EventLine(title, text), "event");
      var choicesToShow := ShowableChoices(world.table, e.choices, player.View());
      choicesToShow := shuffle(choicesToShow);
      if |choicesToShow| > MAX_SHOWN {
        choicesToShow := choicesToShow[..MAX_SHOWN];
      }
      currentManualChoices := Render(choicesToShow, e, player.View(), td);
      if |currentManualChoices| == 0 {
        player.AddLog(Line(NOTHING_SHOWN_MESSAGE), "system");
        currentManualChoices := [TimePasses()];
      }
    }

    /** The bookkeeping, logging and outcomes of a non-system choice. */
    method TakeChoice(x: Shown, rb: Unit, td: nat -> Unit)
      requires player.Valid()
      modifies player`triggeredEventIds, player`madeChoices, player`log, player`stats, player`statMultipliers,
        player`inventory, player`unlockedEventIds
      ensures player.Valid()
      ensures player.View() == Chosen(old(player.View()), x, rb, td)
    {
      if x.parentEventId != "" {
        player.triggeredEventIds := player.triggeredEventIds + {x.parentEventId};
      }
      if x.choice.id != "" {
        player.madeChoices := player.madeChoices + {x.choice.id};
      }
      player.AddLog(Line("> " + x.choice.text), "choice");
      var res := EventCenter.ResolveChoice(x.choice, rb);
      if res.feedback != "" {
        var feedback := ParseText(res.feedback, Some(player.View()), td);
        player.AddLog(Line(feedback), "feedback");
      }
      player.ApplyOutcomes(res.outcomes);
    }

    method HandleChoiceSelected(x: Shown, rb: Unit, r: Unit, td: nat -> Unit, shuffle: Shuffle)
      requires player.Valid()
      requires SelectDefined(world, player.View(), x, rb, r, td)
      modifies this`currentManualChoices, player`triggeredEventIds, player`madeChoices, player`stats,
        player`statMultipliers, player`inventory, player`unlockedEventIds, player`statusEffects, player`isAlive, player`log
      ensures player.Valid()
      ensures ScreenOf() == SelectedScreen(world, old(player.View()), old(currentManualChoices), x, rb, r, td, shuffle)
    {
      if x.choice.isSystemChoice {
        NextTurn(r, td, shuffle);
        return;
      }
      TakeChoice(x, rb, td);
      if player.isAlive {
        NextTurn(r, td, shuffle);
      }
    }
  }
}
