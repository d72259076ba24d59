/**
 * The tag-conflict resolver. The content lists groups of mutually exclusive
 * tags; the conflict table maps every listed tag to the other members of its
 * group, and choices whose outcomes would add a tag that clashes with one the
 * player already carries are gated out.
 */
module TagUtils {
  import opened Common
  import opened Content

  /** The table from a tag to the tags it excludes. */
  type ConflictMap = map<string, seq<string>>

  /** `group.filter(t => t !== tag)`. */
  function Others(group: seq<string>, tag: string): (r: seq<string>)
    ensures tag !in r
    ensures forall t :: t in r <==> t in group && t != tag
  {
    Filter(group, t => t != tag)
  }

  /** The entries the listed members of a group contribute. */
  function EntriesFor(group: seq<string>, members: seq<string>): map<string, seq<string>> {
    map t | t in members :: Others(group, t)
  }

  /** The entries one group contributes. */
  function GroupEntries(group: seq<string>): map<string, seq<string>> {
    EntriesFor(group, group)
  }

  /** Entering one more member of a group is one map update. */
  lemma EntriesStep(base: ConflictMap, group: seq<string>, j: nat)
    requires j < |group|
    ensures base + EntriesFor(group, group[..j + 1])
      == (base + EntriesFor(group, group[..j]))[group[j] := Others(group, group[j])]
  {
    assert group[..j + 1] == group[..j] + [group[j]];
  }

  /** The table after every group has been entered in order; a later group overwrites. */
  function ConflictsOf(groups: seq<seq<string>>): ConflictMap {
    if groups == [] then map[]
    else ConflictsOf(groups[..|groups| - 1]) + GroupEntries(groups[|groups| - 1])
  }

  /**
   * `buildConflictMap`: for every group and every tag in it, in order,
   * `conflictMap[tag] = group.filter(t => t !== tag)`.
   */
  method BuildConflictMap(groups: seq<seq<string>>) returns (table: ConflictMap)
    ensures table == ConflictsOf(groups)
  {
    table := map[];
    var i := 0;
    while i < |groups|
      invariant 0 <= i <= |groups|
      invariant table == ConflictsOf(groups[..i])
    {
      var group := groups[i];
      var j := 0;
      while j < |group|
        invariant 0 <= j <= |group|
        invariant table == ConflictsOf(groups[..i]) + EntriesFor(group, group[..j])
      {
        EntriesStep(ConflictsOf(groups[..i]), group, j);
        table := table[group[j] := Others(group, group[j])];
        j := j + 1;
      }
      assert group[..j] == group;
      assert groups[..i + 1][..i] == groups[..i];
      i := i + 1;
    }
    assert groups[..i] == groups;
  }

  /** A tag is in the table exactly when some group lists it. */
  lemma {:induction false} ConflictsOfDomain(groups: seq<seq<string>>, tag: string)
    ensures tag in ConflictsOf(groups) <==> exists i :: 0 <= i < |groups| && tag in groups[i]
  {
    if groups != [] {
      var init := groups[..|groups| - 1];
      ConflictsOfDomain(init, tag);
      if tag in groups[|groups| - 1] {
      } else if exists i :: 0 <= i < |groups| && tag in groups[i] {
        var i :| 0 <= i < |groups| && tag in groups[i];
        assert init[i] == groups[i];
      }
    }
  }

  /**
   * When a tag is listed in several groups, the last group listing it decides
   * its entry.
   */
  lemma {:induction false} LastGroupWins(groups: seq<seq<string>>, i: nat, tag: string)
    requires i < |groups| && tag in groups[i]
    requires forall j :: i < j < |groups| ==> tag !in groups[j]
    ensures tag in ConflictsOf(groups) && ConflictsOf(groups)[tag] == Others(groups[i], tag)
  {
    var last := |groups| - 1;
    if i < last {
      var init := groups[..last];
      assert forall j :: i < j < |init| ==> init[j] == groups[j];
      LastGroupWins(init, i, tag);
      assert tag !in GroupEntries(groups[last]);
    }
  }

  /** `getConflictingTags`: the tag's entry, or `[]` for a tag no group lists. */
  function ConflictingTags(table: ConflictMap, tag: string): (r: seq<string>)
    ensures tag !in table ==> r == []
    ensures tag in table ==> r == table[tag]
  {
    if tag in table then table[tag] else []
  }

  /** No tag ever conflicts with itself in a table built from groups. */
  lemma NeverSelfConflicting(groups: seq<seq<string>>, tag: string)
    ensures tag !in ConflictingTags(ConflictsOf(groups), tag)
  {
    var table := ConflictsOf(groups);
    if tag in table {
      ConflictsOfDomain(groups, tag);
      var i :| 0 <= i < |groups| && tag in groups[i];
      var k := LastListing(groups, i, tag);
      LastGroupWins(groups, k, tag);
    }
  }

  /** The index of the last group that lists a tag, given one group that does. */
  function LastListing(groups: seq<seq<string>>, i: nat, tag: string): (k: nat)
    requires i < |groups| && tag in groups[i]
    ensures i <= k < |groups| && tag in groups[k]
    ensures forall j :: k < j < |groups| ==> tag !in groups[j]
    decreases |groups| - i
  {
    if exists j :: i < j < |groups| && tag in groups[j] then
      var j :| i < j < |groups| && tag in groups[j];
      LastListing(groups, j, tag)
    else i
  }

  /** `areMutuallyExclusive(a, b)`: b is among the tags a excludes. */
  predicate AreMutuallyExclusive(table: ConflictMap, a: string, b: string) {
    b in ConflictingTags(table, a)
  }

  lemma NotExclusiveWithItself(groups: seq<seq<string>>, tag: string)
    ensures !AreMutuallyExclusive(ConflictsOf(groups), tag, tag)
  {
    NeverSelfConflicting(groups, tag);
  }

  /** `existingTags.some(t => conflicts.includes(t))`. */
  function AnyIn(tags: seq<string>, conflicts: seq<string>): bool {
    if tags == [] then false else tags[0] in conflicts || AnyIn(tags[1..], conflicts)
  }

  /** The scan finds a conflict exactly when some tag is among the conflicts. */
  lemma {:induction false} AnyInIff(tags: seq<string>, conflicts: seq<string>)
    ensures AnyIn(tags, conflicts) <==> exists k :: 0 <= k < |tags| && tags[k] in conflicts
  {
    if tags != [] {
      AnyInIff(tags[1..], conflicts);
      if exists k :: 0 < k < |tags| && tags[k] in conflicts {
        var k :| 0 < k < |tags| && tags[k] in conflicts;
        assert tags[1..][k - 1] == tags[k];
      }
    }
  }

  /** `hasConflict`: some existing tag is excluded by the new one. */
  predicate HasConflict(table: ConflictMap, newTag: string, existing: seq<string>) {
    AnyIn(existing, ConflictingTags(table, newTag))
  }

  datatype ConflictInfo = ConflictInfo(newTag: string, conflicts: seq<string>, existingConflicts: seq<string>)

  /** `getConflictInfo`. */
  function GetConflictInfo(table: ConflictMap, newTag: string, existing: seq<string>): (r: ConflictInfo)
    ensures r.newTag == newTag && r.conflicts == ConflictingTags(table, newTag)
    ensures forall t :: t in r.existingConflicts <==> t in existing && t in r.conflicts
  {
    var conflicts := ConflictingTags(table, newTag);
    ConflictInfo(newTag, conflicts, Filter(existing, t => t in conflicts))
  }

  /** A conflict is reported exactly when the info lists an existing conflict. */
  lemma HasConflictIffInfo(table: ConflictMap, newTag: string, existing: seq<string>)
    ensures HasConflict(table, newTag, existing) <==> GetConflictInfo(table, newTag, existing).existingConflicts != []
  {
    var info := GetConflictInfo(table, newTag, existing);
    AnyInIff(existing, info.conflicts);
    if HasConflict(table, newTag, existing) {
      var k :| 0 <= k < |existing| && existing[k] in info.conflicts;
      assert existing[k] in info.existingConflicts;
    }
    if info.existingConflicts != [] {
      var t := info.existingConflicts[0];
      assert t in existing;
      var k :| 0 <= k < |existing| && existing[k] == t;
    }
  }

  /** The existing conflicts keep exactly the matching occurrences of the existing tags, in order. */
  lemma ExistingConflictsSublist(table: ConflictMap, newTag: string, existing: seq<string>)
    ensures var conflicts := ConflictingTags(table, newTag);
      forall t :: multiset(GetConflictInfo(table, newTag, existing).existingConflicts)[t]
        == if t in conflicts then multiset(existing)[t] else 0
  {
    var conflicts := ConflictingTags(table, newTag);
    FilterMultiset(existing, t => t in conflicts);
  }

  /** The outcomes of all the result buckets, in order: `results.flatMap(r => r.outcomes || [])`. */
  function BucketOutcomes(results: seq<ResultBucket>): seq<Outcome> {
    if results == [] then [] else results[0].outcomes + BucketOutcomes(results[1..])
  }

  /** An outcome is in the flat list exactly when some bucket lists it. */
  lemma {:induction false} BucketOutcomesMembers(results: seq<ResultBucket>)
    ensures forall o :: o in BucketOutcomes(results) <==> exists k :: 0 <= k < |results| && o in results[k].outcomes
  {
    if results != [] {
      BucketOutcomesMembers(results[1..]);
      assert forall k :: 0 < k < |results| ==> results[k] == results[1..][k - 1];
      forall o | exists k :: 0 <= k < |results| && o in results[k].outcomes
        ensures o in BucketOutcomes(results)
      {
        var k :| 0 <= k < |results| && o in results[k].outcomes;
        if k > 0 {
          assert o in results[1..][k - 1].outcomes;
        }
      }
    }
  }

  /**
   * `getAllOutcomes`: a choice's flat outcome list when it has one (even an
   * empty one), otherwise the outcomes of its result buckets.
   */
  function AllOutcomes(choice: Choice): (r: seq<Outcome>)
    ensures choice.outcomes.Some? ==> r == choice.outcomes.value
    ensures choice.outcomes.None? ==> r == BucketOutcomes(choice.results)
  {
    match choice.outcomes
    case Some(outs) => outs
    case None => BucketOutcomes(choice.results)
  }

  /** An outcome that adds a non-empty tag without the `replace` flag. */
  predicate AddsPlainTag(o: Outcome) {
    o.AddTag? && o.tag != "" && !o.replace
  }

  /** `allOutcomes.some(...)` in `choiceAddsConflictingTag`. */
  function AnyAddsConflict(table: ConflictMap, outs: seq<Outcome>, tagIds: seq<string>): bool {
    if outs == [] then false
    else
      var first := outs[0];
      (if first.AddTag? && first.tag != "" then
         (if first.replace then false else HasConflict(table, first.tag, tagIds))
       else false)
      || AnyAddsConflict(table, outs[1..], tagIds)
  }

  /** The scan reports a conflict exactly when some outcome adds a plain tag that conflicts. */
  lemma {:induction false} AnyAddsConflictIff(table: ConflictMap, outs: seq<Outcome>, tagIds: seq<string>)
    ensures AnyAddsConflict(table, outs, tagIds) <==>
      exists k :: 0 <= k < |outs| && AddsPlainTag(outs[k]) && HasConflict(table, outs[k].tag, tagIds)
  {
    if outs != [] {
      AnyAddsConflictIff(table, outs[1..], tagIds);
      if exists k :: 0 < k < |outs| && AddsPlainTag(outs[k]) && HasConflict(table, outs[k].tag, tagIds) {
        var k :| 0 < k < |outs| && AddsPlainTag(outs[k]) && HasConflict(table, outs[k].tag, tagIds);
        assert outs[1..][k - 1] == outs[k];
      }
    }
  }

  /**
   * `choiceAddsConflictingTag`: the choice would add a plain tag that one of
   * the player's tags conflicts with; absent player tags count as none.
   */
  predicate ChoiceAddsConflictingTag(table: ConflictMap, choice: Choice, playerTags: Option<seq<string>>) {
    AnyAddsConflict(table, AllOutcomes(choice), playerTags.GetOr([]))
  }

  /** The gate in both directions, stated on the tag-adding outcomes of the choice. */
  lemma ChoiceAddsConflictingTagIff(table: ConflictMap, choice: Choice, playerTags: Option<seq<string>>)
    ensures ChoiceAddsConflictingTag(table, choice, playerTags) <==>
      exists o, t :: o in AllOutcomes(choice) && AddsPlainTag(o) && t in playerTags.GetOr([])
        && t in ConflictingTags(table, o.tag)
  {
    var outs := AllOutcomes(choice);
    var ids := playerTags.GetOr([]);
    AnyAddsConflictIff(table, outs, ids);
    if ChoiceAddsConflictingTag(table, choice, playerTags) {
      var k :| 0 <= k < |outs| && AddsPlainTag(outs[k]) && HasConflict(table, outs[k].tag, ids);
      AnyInIff(ids, ConflictingTags(table, outs[k].tag));
      var j :| 0 <= j < |ids| && ids[j] in ConflictingTags(table, outs[k].tag);
      assert outs[k] in outs && ids[j] in ids;
    }
    if exists o, t :: o in outs && AddsPlainTag(o) && t in ids && t in ConflictingTags(table, o.tag) {
      var o, t :| o in outs && AddsPlainTag(o) && t in ids && t in ConflictingTags(table, o.tag);
      var k :| 0 <= k < |outs| && outs[k] == o;
      var j :| 0 <= j < |ids| && ids[j] == t;
      AnyInIff(ids, ConflictingTags(table, o.tag));
    }
  }

  /** Without player tags (absent or empty), no choice is gated. */
  lemma NoTagsNoConflict(table: ConflictMap, choice: Choice)
    ensures !ChoiceAddsConflictingTag(table, choice, None)
    ensures !ChoiceAddsConflictingTag(table, choice, Some([]))
  {
    AnyAddsConflictIff(table, AllOutcomes(choice), []);
  }
}
