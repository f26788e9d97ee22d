/**
 The activity counter service: `suggest`, `complete`, `stats` and `reset`,
 each a pure transition over the counter store. The random pick of `suggest`
 is an index chosen by the caller. The HTTP layer is not modelled: `suggest`,
 `complete` and `reset` return the store they leave behind and the body they
 answer with, while `stats` only reads the store and returns the report.
 */
module Service {
  import opened CounterStore
  import opened Activities
  import opened KeyScheme

  /** The store an operation leaves behind, and what it answers. */
  datatype Response<T> = Response(store: Store, body: T)

  /** The acknowledgements of `complete` and `reset`; both report status "success". */
  datatype Ack = Success | SuccessWithMessage(message: string)

  const RESET_MESSAGE: string := "All stats reset!"

  /** One row of the `stats` answer. */
  datatype ActivityStat = ActivityStat(name: string, suggested: nat, completed: nat)

  /** The `stats` answer. */
  datatype Report = Report(totalSuggestions: nat, totalCompleted: nat, activities: seq<ActivityStat>)

  /**
   Suggests catalog entry `i`: counts one more suggestion in total and one more
   for that entry, and answers with the entry. No other counter changes.
   */
  function Suggest(s: Store, i: nat): (r: Response<Activity>)
    requires i < |ACTIVITIES|
    ensures r.body == ACTIVITIES[i]
    ensures Get(r.store, TOTAL_SUGGESTIONS) == Get(s, TOTAL_SUGGESTIONS) + 1
    ensures Get(r.store, ActivityKey(ACTIVITIES[i].name)) == Get(s, ActivityKey(ACTIVITIES[i].name)) + 1
    ensures r.store.Keys == s.Keys + {TOTAL_SUGGESTIONS, ActivityKey(ACTIVITIES[i].name)}
    ensures forall k :: k != TOTAL_SUGGESTIONS && k != ActivityKey(ACTIVITIES[i].name) ==> Get(r.store, k) == Get(s, k)
  {
    var activity := ACTIVITIES[i];
    TotalsOutsideFamilies();
    var s1 := Incr(s, TOTAL_SUGGESTIONS);
    var s2 := Incr(s1, ActivityKey(activity.name));
    Response(s2, activity)
  }

  /**
   Records that `name` was completed: one more completion in total and one more
   for `name`, whether or not `name` is in the catalog. No other counter changes.
   */
  function Complete(s: Store, name: string): (r: Response<Ack>)
    ensures r.body == Success
    ensures Get(r.store, TOTAL_COMPLETED) == Get(s, TOTAL_COMPLETED) + 1
    ensures Get(r.store, CompletedKey(name)) == Get(s, CompletedKey(name)) + 1
    ensures r.store.Keys == s.Keys + {TOTAL_COMPLETED, CompletedKey(name)}
    ensures forall k :: k != TOTAL_COMPLETED && k != CompletedKey(name) ==> Get(r.store, k) == Get(s, k)
  {
    TotalsOutsideFamilies();
    var s1 := Incr(s, TOTAL_COMPLETED);
    var s2 := Incr(s1, CompletedKey(name));
    Response(s2, Success)
  }

  /** The per-entry rows of `stats` for `acts`, in order, absent counters read as 0. */
  function ActivityStats(s: Store, acts: seq<Activity>): (rows: seq<ActivityStat>)
    ensures |rows| == |acts|
    ensures forall j :: 0 <= j < |acts| ==>
              && rows[j].name == acts[j].name
              && rows[j].suggested == Get(s, ActivityKey(acts[j].name))
              && rows[j].completed == Get(s, CompletedKey(acts[j].name))
  {
    if |acts| == 0 then []
    else
      var a := acts[0];
      [ActivityStat(a.name, Get(s, ActivityKey(a.name)), Get(s, CompletedKey(a.name)))]
      + ActivityStats(s, acts[1..])
  }

  /**
   Reads both totals and one row per catalog entry, in catalog order; every
   absent counter reads as 0. The store is only read.
   */
  function Stats(s: Store): (r: Report)
    ensures r.totalSuggestions == Get(s, TOTAL_SUGGESTIONS)
    ensures r.totalCompleted == Get(s, TOTAL_COMPLETED)
    ensures |r.activities| == |ACTIVITIES|
    ensures forall j :: 0 <= j < |ACTIVITIES| ==>
              && r.activities[j].name == ACTIVITIES[j].name
              && r.activities[j].suggested == Get(s, SuggestedKeys()[j])
              && r.activities[j].completed == Get(s, CompletedKeys()[j])
  {
    Report(Get(s, TOTAL_SUGGESTIONS), Get(s, TOTAL_COMPLETED), ActivityStats(s, ACTIVITIES))
  }

  /** Clears every counter unconditionally and acknowledges with a message. */
  function Reset(s: Store): (r: Response<Ack>)
    ensures r.body == SuccessWithMessage(RESET_MESSAGE)
    ensures |r.store| == 0
    ensures forall k :: Get(r.store, k) == 0
  {
    Response(Flush(s), SuccessWithMessage(RESET_MESSAGE))
  }

  /**
   `complete` never touches the suggestion side of the store: neither
   `total_suggestions` nor any `activity:` counter changes.
   */
  lemma CompleteLeavesSuggestionCounters(s: Store, name: string, k: string)
    requires k == TOTAL_SUGGESTIONS || IsActivityKey(k)
    ensures Get(Complete(s, name).store, k) == Get(s, k)
  {
    TotalsOutsideFamilies();
    FamiliesDisjoint(k);
    FamiliesDisjoint(CompletedKey(name));
  }

  /**
   `suggest` never touches the completion side of the store: neither
   `total_completed` nor any `completed:` counter changes.
   */
  lemma SuggestLeavesCompletionCounters(s: Store, i: nat, k: string)
    requires i < |ACTIVITIES|
    requires k == TOTAL_COMPLETED || IsCompletedKey(k)
    ensures Get(Suggest(s, i).store, k) == Get(s, k)
  {
    TotalsOutsideFamilies();
    FamiliesDisjoint(k);
    FamiliesDisjoint(ActivityKey(ACTIVITIES[i].name));
  }

  /** `stats` after `reset` reports zero everywhere, whatever the store held before. */
  lemma StatsAfterReset(s: Store)
    ensures Stats(Reset(s).store).totalSuggestions == 0
    ensures Stats(Reset(s).store).totalCompleted == 0
    ensures |Stats(Reset(s).store).activities| == |ACTIVITIES|
    ensures forall j :: 0 <= j < |ACTIVITIES| ==>
              Stats(Reset(s).store).activities[j] == ActivityStat(ACTIVITIES[j].name, 0, 0)
  {
  }

  /**
   As seen through `stats`, `suggest(i)` adds one to the total and to row `i`'s
   suggested count, and leaves every other number unchanged.
   */
  lemma SuggestSeenInStats(s: Store, i: nat)
    requires i < |ACTIVITIES|
    ensures Stats(Suggest(s, i).store).totalSuggestions == Stats(s).totalSuggestions + 1
    ensures Stats(Suggest(s, i).store).totalCompleted == Stats(s).totalCompleted
    ensures forall j :: 0 <= j < |ACTIVITIES| ==>
              Stats(Suggest(s, i).store).activities[j]
              == var row := Stats(s).activities[j];
                 if j == i then row.(suggested := row.suggested + 1) else row
  {
    var s' := Suggest(s, i).store;
    var key := ActivityKey(ACTIVITIES[i].name);
    var after := Stats(s');
    var before := Stats(s);
    CatalogKeysDistinct();
    TotalsOutsideFamilies();
    FamiliesDisjoint(key);
    forall j | 0 <= j < |ACTIVITIES|
      ensures after.activities[j]
              == if j == i then before.activities[j].(suggested := before.activities[j].suggested + 1)
                 else before.activities[j]
    {
      var ck := CompletedKeys()[j];
      FamiliesDisjoint(ck);
      assert Get(s', ck) == Get(s, ck);
      if j != i {
        var sk := SuggestedKeys()[j];
        assert sk != key by {
          assert key == SuggestedKeys()[i];
        }
        assert Get(s', sk) == Get(s, sk);
      }
    }
  }

  /**
   As seen through `stats`, completing catalog entry `i` by name adds one to the
   completion total and to row `i`'s completed count, and nothing else.
   */
  lemma CompleteSeenInStats(s: Store, i: nat)
    requires i < |ACTIVITIES|
    ensures Stats(Complete(s, ACTIVITIES[i].name).store).totalSuggestions == Stats(s).totalSuggestions
    ensures Stats(Complete(s, ACTIVITIES[i].name).store).totalCompleted == Stats(s).totalCompleted + 1
    ensures forall j :: 0 <= j < |ACTIVITIES| ==>
              Stats(Complete(s, ACTIVITIES[i].name).store).activities[j]
              == var row := Stats(s).activities[j];
                 if j == i then row.(completed := row.completed + 1) else row
  {
    var s' := Complete(s, ACTIVITIES[i].name).store;
    var key := CompletedKey(ACTIVITIES[i].name);
    var after := Stats(s');
    var before := Stats(s);
    CatalogKeysDistinct();
    TotalsOutsideFamilies();
    FamiliesDisjoint(key);
    forall j | 0 <= j < |ACTIVITIES|
      ensures after.activities[j]
              == if j == i then before.activities[j].(completed := before.activities[j].completed + 1)
                 else before.activities[j]
    {
      var sk := SuggestedKeys()[j];
      FamiliesDisjoint(sk);
      assert Get(s', sk) == Get(s, sk);
      if j != i {
        var ck := CompletedKeys()[j];
        assert ck != key by {
          assert key == CompletedKeys()[i];
        }
        assert Get(s', ck) == Get(s, ck);
      }
    }
  }

  /**
   Completing a name outside the catalog shows in `stats` only as one more
   completion in total: every row stays as it was.
   */
  lemma CompleteOutsideCatalog(s: Store, name: string)
    requires forall j :: 0 <= j < |ACTIVITIES| ==> ACTIVITIES[j].name != name
    ensures Stats(Complete(s, name).store).totalSuggestions == Stats(s).totalSuggestions
    ensures Stats(Complete(s, name).store).totalCompleted == Stats(s).totalCompleted + 1
    ensures Stats(Complete(s, name).store).activities == Stats(s).activities
  {
    var s' := Complete(s, name).store;
    var key := CompletedKey(name);
    TotalsOutsideFamilies();
    forall j | 0 <= j < |ACTIVITIES|
      ensures Stats(s').activities[j] == Stats(s).activities[j]
    {
      FamiliesDisjoint(SuggestedKeys()[j]);
      FamiliesDisjoint(key);
      KeysInjective(ACTIVITIES[j].name, name);
      assert Get(s', SuggestedKeys()[j]) == Get(s, SuggestedKeys()[j]);
      assert Get(s', CompletedKeys()[j]) == Get(s, CompletedKeys()[j]);
    }
  }

  /**
   From a fresh store, suggesting entry `i` and then completing it by name makes
   `stats` show one suggestion and one completion, both for entry `i`, and
   zero for every other entry.
   */
  lemma SuggestThenCompleteFromFresh(i: nat)
    requires i < |ACTIVITIES|
    ensures var r := Stats(Complete(Suggest(EMPTY, i).store, ACTIVITIES[i].name).store);
            && r.totalSuggestions == 1
            && r.totalCompleted == 1
            && |r.activities| == |ACTIVITIES|
            && r.activities[i] == ActivityStat(ACTIVITIES[i].name, 1, 1)
            && forall j :: 0 <= j < |ACTIVITIES| && j != i ==>
                 r.activities[j] == ActivityStat(ACTIVITIES[j].name, 0, 0)
  {
    var s1 := Suggest(EMPTY, i).store;
    SuggestSeenInStats(EMPTY, i);
    CompleteSeenInStats(s1, i);
  }
}
