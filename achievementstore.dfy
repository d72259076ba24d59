/**
 * The achievement store: the fixed list of achievements and the set of ids
 * unlocked so far, read from local storage when the store is created.
 * Writing the set back to storage is not modelled.
 */
module AchievementStore {
  import opened Common
  import opened Content

  /** Some achievement of the list has the id. */
  predicate Known(all: seq<Achievement>, id: string) {
    exists k :: 0 <= k < |all| && all[k].id == id
  }

  /**
   * `unlockAchievement` on the id set: a non-empty id of a known
   * achievement is added; an empty, unknown or already unlocked id changes
   * nothing.
   */
  function AfterUnlock(ids: set<string>, all: seq<Achievement>, id: string): (r: set<string>)
    ensures id in r <==> id in ids || (id != "" && Known(all, id))
    ensures forall x :: x != id ==> (x in r <==> x in ids)
  {
    if id == "" || id in ids then ids
    else if !Known(all, id) then ids
    else ids + {id}
  }

  /** Unlocking is idempotent, and never removes an id. */
  lemma UnlockIdempotent(ids: set<string>, all: seq<Achievement>, id: string)
    ensures AfterUnlock(AfterUnlock(ids, all, id), all, id) == AfterUnlock(ids, all, id)
    ensures ids <= AfterUnlock(ids, all, id)
  {
  }

  /** `unlockedAchievements`: the achievements whose id is unlocked, in list order. */
  function UnlockedOf(all: seq<Achievement>, ids: set<string>): seq<Achievement> {
    Filter(all, (a: Achievement) => a.id in ids)
  }

  /** `lockedAchievements`: the achievements neither unlocked nor hidden, in list order. */
  function LockedOf(all: seq<Achievement>, ids: set<string>): seq<Achievement> {
    Filter(all, (a: Achievement) => a.id !in ids && !a.hidden)
  }

  /** The two lists hold exactly the unlocked, and the locked visible, achievements. */
  lemma ListsMembers(all: seq<Achievement>, ids: set<string>)
    ensures forall a :: a in UnlockedOf(all, ids) <==> a in all && a.id in ids
    ensures forall a :: a in LockedOf(all, ids) <==> a in all && a.id !in ids && !a.hidden
  {
  }

  /**
   * No achievement is in both lists, and every visible achievement is in
   * exactly one of them; a hidden one shows only once unlocked.
   */
  lemma ListsPartition(all: seq<Achievement>, ids: set<string>)
    ensures forall a :: !(a in UnlockedOf(all, ids) && a in LockedOf(all, ids))
    ensures forall a :: a in all && !a.hidden ==> (a in UnlockedOf(all, ids) <==> a !in LockedOf(all, ids))
    ensures forall a :: a in all && a.hidden ==> a !in LockedOf(all, ids)
  {
    ListsMembers(all, ids);
  }

  /** Both lists keep the order of the achievement list: each filter splits over concatenation. */
  lemma ListsConcat(all: seq<Achievement>, more: seq<Achievement>, ids: set<string>)
    ensures UnlockedOf(all + more, ids) == UnlockedOf(all, ids) + UnlockedOf(more, ids)
    ensures LockedOf(all + more, ids) == LockedOf(all, ids) + LockedOf(more, ids)
  {
    FilterConcat(all, more, (a: Achievement) => a.id in ids);
    FilterConcat(all, more, (a: Achievement) => a.id !in ids && !a.hidden);
  }

  /** Unlocking a known visible achievement moves it from the locked list to the unlocked one. */
  lemma UnlockMoves(all: seq<Achievement>, ids: set<string>, a: Achievement)
    requires a in all && a.id != "" && !a.hidden
    ensures a in UnlockedOf(all, AfterUnlock(ids, all, a.id))
    ensures a !in LockedOf(all, AfterUnlock(ids, all, a.id))
  {
    var k :| 0 <= k < |all| && all[k] == a;
    assert Known(all, a.id);
    ListsMembers(all, AfterUnlock(ids, all, a.id));
  }

  class Store {
    const allAchievements: seq<Achievement>
    var unlockedAchievementIds: set<string>

    /** `saved` is the `unlocked_achievements` entry of local storage, None when absent. */
    constructor(all: seq<Achievement>, saved: Option<set<string>>)
      ensures allAchievements == all && unlockedAchievementIds == saved.GetOr({})
    {
      allAchievements := all;
      unlockedAchievementIds := saved.GetOr({});
    }

    function UnlockedAchievements(): seq<Achievement>
      reads this
    {
      UnlockedOf(allAchievements, unlockedAchievementIds)
    }

    function LockedAchievements(): seq<Achievement>
      reads this
    {
      LockedOf(allAchievements, unlockedAchievementIds)
    }

    method UnlockAchievement(id: string)
      modifies this`unlockedAchievementIds
      ensures unlockedAchievementIds == AfterUnlock(old(unlockedAchievementIds), allAchievements, id)
    {
      if id == "" || id in unlockedAchievementIds {
        return;
      }
      var found := FindAchievement(allAchievements, id);
      if found.None? {
        return;
      }
      unlockedAchievementIds := unlockedAchievementIds + {id};
    }
  }

  /** `allAchievements.find(ach => ach.id === id)`: the first achievement with the id. */
  method FindAchievement(all: seq<Achievement>, id: string) returns (found: Option<Achievement>)
    ensures found.None? <==> !Known(all, id)
    ensures found.Some? ==> found.value.id == id
    ensures found.Some? ==> exists k :: 0 <= k < |all| && all[k] == found.value && forall j :: 0 <= j < k ==> all[j].id != id
  {
    for i := 0 to |all|
      invariant forall j :: 0 <= j < i ==> all[j].id != id
    {
      if all[i].id == id {
        return Some(all[i]);
      }
    }
    return None;
  }
}
