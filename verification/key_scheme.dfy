/**
 The names under which the service keeps its counters: two fixed totals, and
 per activity name one key with the prefix `activity:` (times suggested) and
 one with the prefix `completed:` (times completed). The lemmas here say which
 keys can never coincide; they are what make the frame properties of the
 service operations hold.
 */
module KeyScheme {
  import opened Activities
  import opened CounterStore

  const TOTAL_SUGGESTIONS: string := "total_suggestions"
  const TOTAL_COMPLETED: string := "total_completed"
  const ACTIVITY_PREFIX: string := "activity:"
  const COMPLETED_PREFIX: string := "completed:"

  /** A key of the `activity:<name>` family. */
  predicate IsActivityKey(k: string)
  {
    ACTIVITY_PREFIX <= k
  }

  /** A key of the `completed:<name>` family. */
  predicate IsCompletedKey(k: string)
  {
    COMPLETED_PREFIX <= k
  }

  /** The counter of how often `name` was suggested. */
  function ActivityKey(name: string): (k: string)
    ensures IsActivityKey(k)
    ensures k[|ACTIVITY_PREFIX|..] == name
  {
    ACTIVITY_PREFIX + name
  }

  /** The counter of how often `name` was reported completed. */
  function CompletedKey(name: string): (k: string)
    ensures IsCompletedKey(k)
    ensures k[|COMPLETED_PREFIX|..] == name
  {
    COMPLETED_PREFIX + name
  }

  /** Distinct names get distinct keys, in both families. */
  lemma KeysInjective(a: string, b: string)
    ensures ActivityKey(a) == ActivityKey(b) <==> a == b
    ensures CompletedKey(a) == CompletedKey(b) <==> a == b
  {
    if ActivityKey(a) == ActivityKey(b) {
      assert a == ActivityKey(a)[|ACTIVITY_PREFIX|..];
    }
    if CompletedKey(a) == CompletedKey(b) {
      assert a == CompletedKey(a)[|COMPLETED_PREFIX|..];
    }
  }

  /** No `activity:` key is a `completed:` key. */
  lemma FamiliesDisjoint(k: string)
    ensures IsActivityKey(k) ==> !IsCompletedKey(k)
  {
    if IsActivityKey(k) {
      assert k[0] == ACTIVITY_PREFIX[0] == 'a';
    }
  }

  /** The two totals are distinct keys, and neither belongs to either family. */
  lemma TotalsOutsideFamilies()
    ensures !IsActivityKey(TOTAL_SUGGESTIONS) && !IsCompletedKey(TOTAL_SUGGESTIONS)
    ensures !IsActivityKey(TOTAL_COMPLETED) && !IsCompletedKey(TOTAL_COMPLETED)
    ensures TOTAL_SUGGESTIONS != TOTAL_COMPLETED
  {
    assert TOTAL_SUGGESTIONS[0] == 't';
    assert TOTAL_COMPLETED[0] == 't';
    assert TOTAL_SUGGESTIONS[6] != TOTAL_COMPLETED[6];
  }

  /** The `activity:` keys of the catalog, in catalog order. */
  function SuggestedKeys(): (ks: seq<string>)
    ensures |ks| == |ACTIVITIES|
    ensures forall j :: 0 <= j < |ks| ==> ks[j] == ActivityKey(ACTIVITIES[j].name)
  {
    seq(|ACTIVITIES|, j requires 0 <= j < |ACTIVITIES| => ActivityKey(ACTIVITIES[j].name))
  }

  /** The `completed:` keys of the catalog, in catalog order. */
  function CompletedKeys(): (ks: seq<string>)
    ensures |ks| == |ACTIVITIES|
    ensures forall j :: 0 <= j < |ks| ==> ks[j] == CompletedKey(ACTIVITIES[j].name)
  {
    seq(|ACTIVITIES|, j requires 0 <= j < |ACTIVITIES| => CompletedKey(ACTIVITIES[j].name))
  }

  /**
   The catalog's key lists have no repetitions, and hold only keys of their own
   family, so a counter outside the family never contributes to their sums.
   */
  lemma CatalogKeysDistinct()
    ensures Distinct(SuggestedKeys())
    ensures Distinct(CompletedKeys())
    ensures forall k :: k in SuggestedKeys() ==> IsActivityKey(k)
    ensures forall k :: k in CompletedKeys() ==> IsCompletedKey(k)
  {
    NamesDistinct();
    forall i, j | 0 <= i < j < |ACTIVITIES|
      ensures SuggestedKeys()[i] != SuggestedKeys()[j]
      ensures CompletedKeys()[i] != CompletedKeys()[j]
    {
      KeysInjective(ACTIVITIES[i].name, ACTIVITIES[j].name);
    }
  }
}
