/**
 * The data center: the game data every other part reads, merged from the
 * base data files and the enabled content packs, and loaded once unless a
 * reload is forced. Which list a base file feeds is decided in the source by
 * its path; here each file carries that decision as its variant.
 */
module DataCenter {
  import opened Common
  import opened Content
  import DlcStore

  /** A base data file: a list of events, of talents or of endings, a map of status effects, or anything else. */
  datatype DataFile =
    | EventsFile(events: seq<Event>)
    | TalentsFile(talents: seq<Talent>)
    | EndingsFile(endings: seq<Ending>)
    | StatusEffectsFile(effects: map<string, StatusEffectDef>)
    | OtherFile

  /** `gameData` as a value. */
  datatype GameData = GameData(events: seq<Event>, talents: seq<Talent>, endings: seq<Ending>,
                               statusEffects: map<string, StatusEffectDef>, customStats: seq<string>)

  function Empty(): GameData {
    GameData([], [], [], map[], [])
  }

  // ---------------------------------------------------------------------------
  // The merge

  /** One base file pushed onto its list, or assigned over the status effects. */
  function AddFile(d: GameData, f: DataFile): GameData {
    match f
    case EventsFile(es) => d.(events := d.events + es)
    case TalentsFile(ts) => d.(talents := d.talents + ts)
    case EndingsFile(ns) => d.(endings := d.endings + ns)
    case StatusEffectsFile(m) => d.(statusEffects := d.statusEffects + m)
    case OtherFile => d
  }

  /** The base data: the files in order. Base files never give custom stats. */
  function BaseData(files: seq<DataFile>): (d: GameData)
    ensures d.customStats == []
    decreases |files|
  {
    if files == [] then Empty() else AddFile(BaseData(files[..|files| - 1]), files[|files| - 1])
  }

  /** One pack's lists pushed, its status effects assigned over the earlier ones. */
  function AddDlc(d: GameData, dlc: DlcContent): GameData {
    GameData(d.events + dlc.events, d.talents + dlc.talents, d.endings + dlc.endings,
             d.statusEffects + dlc.statusEffects, d.customStats + dlc.customStats)
  }

  /** The pack data: the enabled packs in order. */
  function DlcData(dlcs: seq<DlcContent>): GameData
    decreases |dlcs|
  {
    if dlcs == [] then Empty() else AddDlc(DlcData(dlcs[..|dlcs| - 1]), dlcs[|dlcs| - 1])
  }

  /** The final merge: lists are base then packs, packs override base status effects, custom stats come from packs. */
  function Merged(base: GameData, dlc: GameData): GameData {
    GameData(base.events + dlc.events, base.talents + dlc.talents, base.endings + dlc.endings,
             base.statusEffects + dlc.statusEffects, dlc.customStats)
  }

  /** What a load leaves in `gameData`. */
  function Loaded(files: seq<DataFile>, enabled: seq<DlcContent>): GameData {
    Merged(BaseData(files), DlcData(enabled))
  }

  // ---------------------------------------------------------------------------
  // Properties of the merge

  /** The pack data of two runs of packs lists the first's items, then the second's. */
  lemma {:induction false} DlcDataConcatLists(a: seq<DlcContent>, b: seq<DlcContent>)
    ensures DlcData(a + b).events == DlcData(a).events + DlcData(b).events
    ensures DlcData(a + b).talents == DlcData(a).talents + DlcData(b).talents
    ensures DlcData(a + b).endings == DlcData(a).endings + DlcData(b).endings
    ensures DlcData(a + b).customStats == DlcData(a).customStats + DlcData(b).customStats
    decreases |b|
  {
    if b == [] {
      assert a + b == a;
    } else {
      var b' := b[..|b| - 1];
      assert (a + b)[..|a + b| - 1] == a + b';
      assert (a + b)[|a + b| - 1] == b[|b| - 1];
      var last := b[|b| - 1];
      assert DlcData(a + b) == AddDlc(DlcData(a + b'), last);
      assert DlcData(b) == AddDlc(DlcData(b'), last);
      DlcDataConcatLists(a, b');
      var da, db' := DlcData(a), DlcData(b');
      ConcatAssociates(da.events, db'.events, last.events);
      ConcatAssociates(da.talents, db'.talents, last.talents);
      ConcatAssociates(da.endings, db'.endings, last.endings);
      ConcatAssociates(da.customStats, db'.customStats, last.customStats);
    }
  }


  /** In the pack data of two runs of packs, the second run's status effects override the first's. */
  lemma {:induction false} DlcDataConcatEffects(a: seq<DlcContent>, b: seq<DlcContent>)
    ensures DlcData(a + b).statusEffects == DlcData(a).statusEffects + DlcData(b).statusEffects
    decreases |b|
  {
    if b == [] {
      assert a + b == a;
    } else {
      var b' := b[..|b| - 1];
      assert (a + b)[..|a + b| - 1] == a + b';
      assert (a + b)[|a + b| - 1] == b[|b| - 1];
      assert DlcData(a + b).statusEffects == DlcData(a + b').statusEffects + b[|b| - 1].statusEffects;
      assert DlcData(b).statusEffects == DlcData(b').statusEffects + b[|b| - 1].statusEffects;
      DlcDataConcatEffects(a, b');
      OverrideAssociates(DlcData(a).statusEffects, DlcData(b').statusEffects, b[|b| - 1].statusEffects);
    }
  }

  /** Assigning two maps in turn is assigning their merge. */
  lemma OverrideAssociates<K, V>(m: map<K, V>, m': map<K, V>, x: map<K, V>)
    ensures (m + m') + x == m + (m' + x)
  {
    assert ((m + m') + x).Keys == (m + (m' + x)).Keys;
    forall k | k in (m + m') + x
      ensures ((m + m') + x)[k] == (m + (m' + x))[k]
    {
    }
  }

  /** An event, talent, ending or custom stat of the pack data comes from some pack, and every pack's do. */
  lemma {:induction false} DlcDataMembers(dlcs: seq<DlcContent>)
    ensures forall e :: e in DlcData(dlcs).events <==> exists d :: d in dlcs && e in d.events
    ensures forall t :: t in DlcData(dlcs).talents <==> exists d :: d in dlcs && t in d.talents
    ensures forall n :: n in DlcData(dlcs).endings <==> exists d :: d in dlcs && n in d.endings
    ensures forall c :: c in DlcData(dlcs).customStats <==> exists d :: d in dlcs && c in d.customStats
    ensures forall k :: k in DlcData(dlcs).statusEffects <==> exists d :: d in dlcs && k in d.statusEffects
    decreases |dlcs|
  {
    if dlcs != [] {
      var init := dlcs[..|dlcs| - 1];
      var last := dlcs[|dlcs| - 1];
      DlcDataMembers(init);
      assert dlcs == init + [last];
      assert forall d :: d in dlcs <==> d in init || d == last;
    }
  }

  /** A status effect of the pack data is the one of the last pack that defines it. */
  lemma {:induction false} LastPackWins(dlcs: seq<DlcContent>, j: nat, k: string)
    requires j < |dlcs| && k in dlcs[j].statusEffects
    requires forall i :: j < i < |dlcs| ==> k !in dlcs[i].statusEffects
    ensures k in DlcData(dlcs).statusEffects && DlcData(dlcs).statusEffects[k] == dlcs[j].statusEffects[k]
    decreases |dlcs|
  {
    var init := dlcs[..|dlcs| - 1];
    if j < |dlcs| - 1 {
      LastPackWins(init, j, k);
    }
  }

  /** A disabled pack contributes nothing; an enabled one is merged after the packs before it. */
  lemma OnlyEnabledContribute(dlcs: seq<DlcContent>, d: DlcContent, ids: set<string>)
    ensures d.id !in ids ==>
      DlcData(DlcStore.EnabledContent(dlcs + [d], ids)) == DlcData(DlcStore.EnabledContent(dlcs, ids))
    ensures d.id in ids ==>
      DlcData(DlcStore.EnabledContent(dlcs + [d], ids)) == AddDlc(DlcData(DlcStore.EnabledContent(dlcs, ids)), d)
  {
    DlcStore.EnabledContentConcat(dlcs, [d], ids);
    assert DlcStore.EnabledContent([d], ids) == (if d.id in ids then [d] else []) + DlcStore.EnabledContent([], ids);
    if d.id !in ids {
      assert DlcStore.EnabledContent(dlcs, ids) + [] == DlcStore.EnabledContent(dlcs, ids);
    } else {
      var e := DlcStore.EnabledContent(dlcs, ids) + [d];
      assert e[..|e| - 1] == DlcStore.EnabledContent(dlcs, ids);
    }
  }

  /**
   * A load: events, talents and endings are the base items followed by the
   * pack items; a status effect some pack defines is the last such pack's,
   * any other is the base one; custom stats are exactly the packs'.
   */
  lemma LoadedFacts(files: seq<DataFile>, enabled: seq<DlcContent>, k: string)
    ensures Loaded(files, enabled).events == BaseData(files).events + DlcData(enabled).events
    ensures Loaded(files, enabled).talents == BaseData(files).talents + DlcData(enabled).talents
    ensures Loaded(files, enabled).endings == BaseData(files).endings + DlcData(enabled).endings
    ensures forall c :: c in Loaded(files, enabled).customStats <==> exists d :: d in enabled && c in d.customStats
    ensures (forall d :: d in enabled ==> k !in d.statusEffects) ==>
      (k in Loaded(files, enabled).statusEffects <==> k in BaseData(files).statusEffects)
      && (k in BaseData(files).statusEffects ==> Loaded(files, enabled).statusEffects[k] == BaseData(files).statusEffects[k])
    ensures forall j :: (0 <= j < |enabled| && k in enabled[j].statusEffects
      && (forall i :: j < i < |enabled| ==> k !in enabled[i].statusEffects)) ==>
      k in Loaded(files, enabled).statusEffects && Loaded(files, enabled).statusEffects[k] == enabled[j].statusEffects[k]
  {
    DlcDataMembers(enabled);
    forall j | 0 <= j < |enabled| && k in enabled[j].statusEffects
      && (forall i :: j < i < |enabled| ==> k !in enabled[i].statusEffects)
      ensures k in Loaded(files, enabled).statusEffects && Loaded(files, enabled).statusEffects[k] == enabled[j].statusEffects[k]
    {
      LastPackWins(enabled, j, k);
    }
  }

  // ---------------------------------------------------------------------------
  // The data center

  /** Step 2 of `loadAllData`: the base files read in order into the four lists. */
  method ReadBaseFiles(files: seq<DataFile>) returns (base: GameData)
    ensures base == BaseData(files)
  {
    var baseEvents: seq<Event> := [];
    var baseTalents: seq<Talent> := [];
    var baseEndings: seq<Ending> := [];
    var baseStatusEffects: map<string, StatusEffectDef> := map[];
    for i := 0 to |files|
      invariant GameData(baseEvents, baseTalents, baseEndings, baseStatusEffects, []) == BaseData(files[..i])
    {
      assert files[..i + 1][..i] == files[..i];
      match files[i]
      case EventsFile(es) => baseEvents := baseEvents + es;
      case TalentsFile(ts) => baseTalents := baseTalents + ts;
      case EndingsFile(ns) => baseEndings := baseEndings + ns;
      case StatusEffectsFile(m) => baseStatusEffects := baseStatusEffects + m;
      case OtherFile =>
    }
    assert files[..|files|] == files;
    base := GameData(baseEvents, baseTalents, baseEndings, baseStatusEffects, []);
  }

  /** Step 3 of `loadAllData`: the enabled packs read in order. */
  method MergePacks(enabled: seq<DlcContent>) returns (dlc: GameData)
    ensures dlc == DlcData(enabled)
  {
    var dlcEvents: seq<Event> := [];
    var dlcTalents: seq<Talent> := [];
    var dlcEndings: seq<Ending> := [];
    var dlcStatusEffects: map<string, StatusEffectDef> := map[];
    var dlcCustomStats: seq<string> := [];
    for j := 0 to |enabled|
      invariant GameData(dlcEvents, dlcTalents, dlcEndings, dlcStatusEffects, dlcCustomStats) == DlcData(enabled[..j])
    {
      assert enabled[..j + 1][..j] == enabled[..j];
      var pack := enabled[j];
      dlcEvents := dlcEvents + pack.events;
      dlcTalents := dlcTalents + pack.talents;
      dlcEndings := dlcEndings + pack.endings;
      dlcStatusEffects := dlcStatusEffects + pack.statusEffects;
      dlcCustomStats := dlcCustomStats + pack.customStats;
    }
    assert enabled[..|enabled|] == enabled;
    dlc := GameData(dlcEvents, dlcTalents, dlcEndings, dlcStatusEffects, dlcCustomStats);
  }


  class Center {
    var events: seq<Event>
    var talents: seq<Talent>
    var endings: seq<Ending>
    var statusEffects: map<string, StatusEffectDef>
    var customStats: seq<string>
    var isLoaded: bool

    function Data(): GameData
      reads this
    {
      GameData(events, talents, endings, statusEffects, customStats)
    }

    constructor()
      ensures Data() == Empty() && !isLoaded
    {
      events := [];
      talents := [];
      endings := [];
      statusEffects := map[];
      customStats := [];
      isLoaded := false;
    }

    method ResetData()
      modifies this
      ensures Data() == Empty() && !isLoaded
    {
      events := [];
      talents := [];
      endings := [];
      statusEffects := map[];
      customStats := [];
      isLoaded := false;
    }

    /**
     * `loadAllData`. `stored` is what the pack database returns once seeded,
     * `files` the base data files in the order they are found.
     */
    method LoadAllData(force: bool, store: DlcStore.Store, stored: seq<DlcContent>, files: seq<DataFile>)
      returns (stats: seq<string>)
      modifies this, store
      ensures old(isLoaded) && !force ==>
        Data() == old(Data()) && isLoaded && store.View() == old(store.View())
      ensures !(old(isLoaded) && !force) ==>
        isLoaded && store.View() == DlcStore.Initialized(old(store.View()), stored)
        && Data() == Loaded(files, store.Enabled())
      ensures stats == customStats
    {
      if isLoaded && !force {
        return customStats;
      }
      if force {
        ResetData();
      }
      store.Initialize(stored);

      var base := ReadBaseFiles(files);
      var dlc := MergePacks(store.Enabled());
      events := base.events + dlc.events;
      talents := base.talents + dlc.talents;
      endings := base.endings + dlc.endings;
      statusEffects := base.statusEffects + dlc.statusEffects;
      customStats := dlc.customStats;
      isLoaded := true;
      return customStats;
    }
  }
}
