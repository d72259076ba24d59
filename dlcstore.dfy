/**
 * The DLC store: the content packs known to the game, the ids of those
 * enabled, whether the list has been loaded, and the `enabled_dlcs` entry
 * of local storage, which the first load reads back. The database behind
 * the list is not modelled: what it returns, and whether a write or a
 * delete succeeded, are parameters.
 */
module DlcStore {
  import opened Common
  import opened Content

  /** The store as a value. `saved` is the local-storage entry, None when never written. */
  datatype StoreState = StoreState(dlcs: seq<DlcContent>, enabledIds: set<string>, isLoaded: bool,
                                   saved: Option<set<string>>)

  /** The ids of a list of packs. */
  function Ids(dlcs: seq<DlcContent>): set<string> {
    set d | d in dlcs :: d.id
  }

  /** No two packs share an id, as in a database keyed by id. */
  predicate UniqueIds(dlcs: seq<DlcContent>) {
    forall i, j :: 0 <= i < j < |dlcs| ==> dlcs[i].id != dlcs[j].id
  }

  // ---------------------------------------------------------------------------
  // Enabled content

  /** `enabledDlcContent`: the packs whose id is enabled, in list order. */
  function EnabledContent(dlcs: seq<DlcContent>, ids: set<string>): seq<DlcContent> {
    Filter(dlcs, (d: DlcContent) => d.id in ids)
  }

  /** The enabled packs are exactly the listed packs with an enabled id. */
  lemma EnabledContentMembers(dlcs: seq<DlcContent>, ids: set<string>)
    ensures forall d :: d in EnabledContent(dlcs, ids) <==> d in dlcs && d.id in ids
  {
  }

  /** The filter keeps list order: it splits over concatenation. */
  lemma EnabledContentConcat(dlcs: seq<DlcContent>, more: seq<DlcContent>, ids: set<string>)
    ensures EnabledContent(dlcs + more, ids) == EnabledContent(dlcs, ids) + EnabledContent(more, ids)
  {
    FilterConcat(dlcs, more, (d: DlcContent) => d.id in ids);
  }

  /** With every listed id enabled, every pack is enabled content. */
  lemma {:induction false} AllEnabled(dlcs: seq<DlcContent>, ids: set<string>)
    requires Ids(dlcs) <= ids
    ensures EnabledContent(dlcs, ids) == dlcs
  {
    if dlcs != [] {
      assert dlcs[0] in dlcs;
      assert Ids(dlcs[1..]) <= ids by {
        forall x | x in Ids(dlcs[1..]) ensures x in ids {
          var d :| d in dlcs[1..] && d.id == x;
          assert d in dlcs;
        }
      }
      AllEnabled(dlcs[1..], ids);
      assert dlcs == [dlcs[0]] + dlcs[1..];
    }
  }

  // ---------------------------------------------------------------------------
  // Removing packs by id

  /** `dlcs.filter(d => d.id !== id)`. */
  function Without(dlcs: seq<DlcContent>, id: string): seq<DlcContent> {
    if dlcs == [] then []
    else (if dlcs[0].id != id then [dlcs[0]] else []) + Without(dlcs[1..], id)
  }

  /** The filter keeps exactly the packs with another id. */
  lemma {:induction false} WithoutMembers(dlcs: seq<DlcContent>, id: string)
    ensures forall d :: d in Without(dlcs, id) <==> d in dlcs && d.id != id
  {
    if dlcs != [] {
      WithoutMembers(dlcs[1..], id);
      assert dlcs == [dlcs[0]] + dlcs[1..];
    }
  }

  /** With no pack carrying the id, the filter changes nothing. */
  lemma {:induction false} WithoutAbsent(dlcs: seq<DlcContent>, id: string)
    requires forall k :: 0 <= k < |dlcs| ==> dlcs[k].id != id
    ensures Without(dlcs, id) == dlcs
  {
    if dlcs != [] {
      assert forall k :: 0 <= k < |dlcs[1..]| ==> dlcs[1..][k] == dlcs[k + 1];
      WithoutAbsent(dlcs[1..], id);
      assert dlcs == [dlcs[0]] + dlcs[1..];
    }
  }

  /** The filter keeps ids unique. */
  lemma {:induction false} WithoutUnique(dlcs: seq<DlcContent>, id: string)
    requires UniqueIds(dlcs)
    ensures UniqueIds(Without(dlcs, id))
  {
    if dlcs != [] {
      var rest := dlcs[1..];
      assert UniqueIds(rest) by {
        forall i, j | 0 <= i < j < |rest| ensures rest[i].id != rest[j].id {
          assert rest[i] == dlcs[i + 1] && rest[j] == dlcs[j + 1];
        }
      }
      WithoutUnique(rest, id);
      var w := Without(rest, id);
      if dlcs[0].id != id {
        WithoutMembers(rest, id);
        forall k | 0 <= k < |w| ensures w[k].id != dlcs[0].id {
          assert w[k] in rest;
          var m :| 0 <= m < |rest| && rest[m] == w[k];
          assert dlcs[m + 1] == w[k];
        }
        UniqueCons(dlcs[0], w);
      }
    }
  }

  /** A pack whose id is new to a list of unique ids keeps them unique in front of it. */
  lemma UniqueCons(d: DlcContent, rest: seq<DlcContent>)
    requires UniqueIds(rest) && forall k :: 0 <= k < |rest| ==> rest[k].id != d.id
    ensures UniqueIds([d] + rest)
  {
    var s := [d] + rest;
    forall i, j | 0 <= i < j < |s| ensures s[i].id != s[j].id {
      assert s[j] == rest[j - 1];
      if i > 0 {
        assert s[i] == rest[i - 1];
      }
    }
  }

  // ---------------------------------------------------------------------------
  // Operations as functions of the store

  /** `toggleDlc` on the id set: membership of the id flips, nothing else changes. */
  function Toggle(ids: set<string>, id: string): (r: set<string>)
    ensures id in r <==> id !in ids
    ensures forall x :: x != id ==> (x in r <==> x in ids)
  {
    if id in ids then ids - {id} else ids + {id}
  }

  function Toggled(s: StoreState, id: string): StoreState {
    var ids := Toggle(s.enabledIds, id);
    s.(enabledIds := ids, saved := Some(ids))
  }

  /** Toggling the same id twice restores the enabled set. */
  lemma ToggleTwice(s: StoreState, id: string)
    ensures Toggled(Toggled(s, id), id).enabledIds == s.enabledIds
  {
    var t := Toggle(Toggle(s.enabledIds, id), id);
    assert forall x :: x in t <==> x in s.enabledIds;
  }

  /**
   * `initializeDlcSystem`, given the list the database returns after the
   * built-in packs are seeded: a no-op once loaded; on the first ever load
   * (nothing saved) every listed pack is enabled and the set is saved.
   */
  function Initialized(s: StoreState, stored: seq<DlcContent>): StoreState {
    if s.isLoaded then s
    else if s.saved.None? then StoreState(stored, Ids(stored), true, Some(Ids(stored)))
    else s.(dlcs := stored, isLoaded := true)
  }

  /** A second initialization changes nothing; after the first ever one all listed packs are enabled content. */
  lemma InitializedFacts(s: StoreState, stored: seq<DlcContent>, again: seq<DlcContent>)
    ensures Initialized(Initialized(s, stored), again) == Initialized(s, stored)
    ensures !s.isLoaded ==> Initialized(s, stored).dlcs == stored
    ensures !s.isLoaded && s.saved.None? ==>
      EnabledContent(Initialized(s, stored).dlcs, Initialized(s, stored).enabledIds) == stored
  {
    if !s.isLoaded && s.saved.None? {
      AllEnabled(stored, Ids(stored));
    }
  }

  /** A file is accepted when its content has an id and a name. */
  predicate Accepted(content: DlcContent) {
    content.id != "" && content.name != ""
  }

  /**
   * One file of `importDlcFiles`: a pack without id or name is rejected and
   * changes nothing; otherwise any pack with its id is dropped, and when the
   * database write succeeds the pack is appended and its id enabled.
   */
  function ImportStep(s: StoreState, content: DlcContent, written: bool): StoreState {
    if !Accepted(content) then s
    else if !written then s.(dlcs := Without(s.dlcs, content.id))
    else s.(dlcs := Without(s.dlcs, content.id) + [content], enabledIds := s.enabledIds + {content.id})
  }

  /**
   * A rejected file changes nothing. An imported pack is the last one, the
   * only one with its id, and enabled; every pack with another id is kept,
   * in order, and ids stay unique.
   */
  lemma ImportStepFacts(s: StoreState, content: DlcContent, written: bool)
    ensures !Accepted(content) ==> ImportStep(s, content, written) == s
    ensures var r := ImportStep(s, content, written);
      Accepted(content) && written ==>
        |r.dlcs| > 0 && r.dlcs[|r.dlcs| - 1] == content
        && (forall k :: 0 <= k < |r.dlcs| - 1 ==> r.dlcs[k].id != content.id)
        && content.id in r.enabledIds
        && r.dlcs[..|r.dlcs| - 1] == Without(s.dlcs, content.id)
    ensures forall d: DlcContent :: d.id != content.id ==> (d in ImportStep(s, content, written).dlcs <==> d in s.dlcs)
    ensures UniqueIds(s.dlcs) ==> UniqueIds(ImportStep(s, content, written).dlcs)
  {
    WithoutMembers(s.dlcs, content.id);
    if UniqueIds(s.dlcs) {
      WithoutUnique(s.dlcs, content.id);
    }
    var w := Without(s.dlcs, content.id);
    if Accepted(content) && written {
      var r := w + [content];
      assert r[..|r| - 1] == w;
      forall k | 0 <= k < |r| - 1 ensures r[k].id != content.id {
        assert r[k] == w[k] && w[k] in w;
      }
      if UniqueIds(s.dlcs) {
        forall i, j | 0 <= i < j < |r| ensures r[i].id != r[j].id {
          if j == |r| - 1 {
            assert r[i] == w[i] && w[i] in w;
          } else {
            assert r[i] == w[i] && r[j] == w[j];
          }
        }
      }
    }
  }

  /** The files imported one after another, in list order; `written(k)` says whether the k-th write succeeded. */
  function ImportEach(s: StoreState, files: seq<DlcContent>, written: nat -> bool): StoreState
    decreases |files|
  {
    if files == [] then s
    else ImportStep(ImportEach(s, files[..|files| - 1], written), files[|files| - 1], written(|files| - 1))
  }

  predicate AllImported(files: seq<DlcContent>, written: nat -> bool) {
    forall k :: 0 <= k < |files| ==> Accepted(files[k]) && written(k)
  }

  /** `importDlcFiles`: every file is imported; the enabled set is saved only when all of them succeeded. */
  function Imported(s: StoreState, files: seq<DlcContent>, written: nat -> bool): StoreState {
    var t := ImportEach(s, files, written);
    if AllImported(files, written) then t.(saved := Some(t.enabledIds)) else t
  }

  /** Importing never forgets an enabled id, keeps ids unique, and leaves the load flag alone. */
  lemma {:induction false} ImportEachFacts(s: StoreState, files: seq<DlcContent>, written: nat -> bool)
    ensures s.enabledIds <= ImportEach(s, files, written).enabledIds
    ensures UniqueIds(s.dlcs) ==> UniqueIds(ImportEach(s, files, written).dlcs)
    ensures ImportEach(s, files, written).isLoaded == s.isLoaded
    ensures ImportEach(s, files, written).saved == s.saved
    decreases |files|
  {
    if files != [] {
      var t := ImportEach(s, files[..|files| - 1], written);
      ImportEachFacts(s, files[..|files| - 1], written);
      ImportStepFacts(t, files[|files| - 1], written(|files| - 1));
    }
  }

  /**
   * `removeDlc`: when the database delete succeeds, the packs with the id are
   * dropped, the id is disabled and the enabled set saved; otherwise nothing changes.
   */
  function Removed(s: StoreState, id: string, deleted: bool): StoreState {
    if !deleted then s
    else
      var ids := s.enabledIds - {id};
      s.(dlcs := Without(s.dlcs, id), enabledIds := ids, saved := Some(ids))
  }

  /** After a removal no pack has the id and the id is not enabled; every other pack is kept. */
  lemma RemovedFacts(s: StoreState, id: string)
    ensures forall k :: 0 <= k < |Removed(s, id, true).dlcs| ==> Removed(s, id, true).dlcs[k].id != id
    ensures id !in Removed(s, id, true).enabledIds
    ensures forall d: DlcContent :: d.id != id ==> (d in Removed(s, id, true).dlcs <==> d in s.dlcs)
    ensures EnabledContent(Removed(s, id, true).dlcs, Removed(s, id, true).enabledIds) == EnabledContent(Removed(s, id, true).dlcs, s.enabledIds)
    ensures UniqueIds(s.dlcs) ==> UniqueIds(Removed(s, id, true).dlcs)
  {
    WithoutMembers(s.dlcs, id);
    if UniqueIds(s.dlcs) {
      WithoutUnique(s.dlcs, id);
    }
    var w := Without(s.dlcs, id);
    forall k | 0 <= k < |w| ensures w[k].id != id {
      assert w[k] in w;
    }
    SameEnabled(w, s.enabledIds - {id}, s.enabledIds, id);
  }

  /** Two id sets that differ only in an id no pack has select the same packs. */
  lemma {:induction false} SameEnabled(dlcs: seq<DlcContent>, a: set<string>, b: set<string>, id: string)
    requires forall k :: 0 <= k < |dlcs| ==> dlcs[k].id != id
    requires forall x :: x != id ==> (x in a <==> x in b)
    ensures EnabledContent(dlcs, a) == EnabledContent(dlcs, b)
  {
    if dlcs != [] {
      assert forall k :: 0 <= k < |dlcs[1..]| ==> dlcs[1..][k] == dlcs[k + 1];
      SameEnabled(dlcs[1..], a, b, id);
    }
  }

  // ---------------------------------------------------------------------------
  // The store

  class Store {
    var dlcs: seq<DlcContent>
    var enabledDlcIds: set<string>
    var isLoaded: bool
    /** The `enabled_dlcs` entry of local storage; None when it was never written. */
    var savedEnabledIds: Option<set<string>>

    function View(): StoreState
      reads this
    {
      StoreState(dlcs, enabledDlcIds, isLoaded, savedEnabledIds)
    }

    /** The initial state: no packs, the saved ids (or none) enabled, not loaded. */
    constructor(saved: Option<set<string>>)
      ensures View() == StoreState([], saved.GetOr({}), false, saved)
    {
      dlcs := [];
      enabledDlcIds := saved.GetOr({});
      isLoaded := false;
      savedEnabledIds := saved;
    }

    /** `enabledDlcContent`. */
    function Enabled(): seq<DlcContent>
      reads this
    {
      EnabledContent(dlcs, enabledDlcIds)
    }

    /** `stored` is what the database returns once the built-in packs are seeded. */
    method Initialize(stored: seq<DlcContent>)
      modifies this
      ensures View() == Initialized(old(View()), stored)
    {
      if isLoaded {
        return;
      }
      dlcs := stored;
      if savedEnabledIds.None? {
        enabledDlcIds := set d | d in dlcs :: d.id;
        savedEnabledIds := Some(enabledDlcIds);
      }
      isLoaded := true;
    }

    method ToggleDlc(id: string)
      modifies this`enabledDlcIds, this`savedEnabledIds
      ensures View() == Toggled(old(View()), id)
    {
      if id in enabledDlcIds {
        enabledDlcIds := enabledDlcIds - {id};
      } else {
        enabledDlcIds := enabledDlcIds + {id};
      }
      savedEnabledIds := Some(enabledDlcIds);
    }

    /** The file handler of `importDlcFiles`; `written` says whether the database write succeeded. */
    method ImportOne(content: DlcContent, written: bool) returns (ok: bool)
      modifies this`dlcs, this`enabledDlcIds
      ensures ok <==> Accepted(content) && written
      ensures View() == ImportStep(old(View()), content, written)
    {
      if content.id == "" || content.name == "" {
        return false;
      }
      if exists k | 0 <= k < |dlcs| :: dlcs[k].id == content.id {
        dlcs := Without(dlcs, content.id);
      } else {
        WithoutAbsent(dlcs, content.id);
      }
      if !written {
        return false;
      }
      dlcs := dlcs + [content];
      enabledDlcIds := enabledDlcIds + {content.id};
      ok := true;
    }

    /** `importDlcFiles`, with the files handled in list order. */
    method ImportDlcFiles(files: seq<DlcContent>, written: nat -> bool)
      modifies this`dlcs, this`enabledDlcIds, this`savedEnabledIds
      ensures View() == Imported(old(View()), files, written)
    {
      var allOk := true;
      for i := 0 to |files|
        invariant View() == ImportEach(old(View()), files[..i], written)
        invariant allOk <==> AllImported(files[..i], written)
      {
        var ok := ImportOne(files[i], written(i));
        allOk := allOk && ok;
        assert files[..i + 1][..i] == files[..i];
      }
      assert files[..|files|] == files;
      if allOk {
        savedEnabledIds := Some(enabledDlcIds);
      }
    }

    /** `removeDlc`; `deleted` says whether the database delete succeeded. */
    method RemoveDlc(id: string, deleted: bool)
      modifies this`dlcs, this`enabledDlcIds, this`savedEnabledIds
      ensures View() == Removed(old(View()), id, deleted)
    {
      if !deleted {
        return;
      }
      dlcs := Without(dlcs, id);
      enabledDlcIds := enabledDlcIds - {id};
      savedEnabledIds := Some(enabledDlcIds);
    }
  }
}
