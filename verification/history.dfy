/**
 Sequences of service calls, each run to completion before the next, applied to
 the store. Along any such sequence started from an empty store,
 `total_suggestions` equals the sum of the catalog's `activity:` counters, and
 `total_completed` is at least the sum of its `completed:` counters (it can be
 larger because `complete` accepts names outside the catalog). Between resets
 no counter ever decreases.
 */
module History {
  import opened CounterStore
  import opened Activities
  import opened KeyScheme
  import opened Service

  /** One call that changes the store; `stats` only reads, so it is not one. */
  datatype Op = SuggestOp(index: nat) | CompleteOp(name: string) | ResetOp

  predicate ValidOp(op: Op)
  {
    op.SuggestOp? ==> op.index < |ACTIVITIES|
  }

  predicate ValidOps(ops: seq<Op>)
  {
    forall j :: 0 <= j < |ops| ==> ValidOp(ops[j])
  }

  function Step(s: Store, op: Op): Store
    requires ValidOp(op)
  {
    match op
    case SuggestOp(i) => Suggest(s, i).store
    case CompleteOp(name) => Complete(s, name).store
    case ResetOp => Reset(s).store
  }

  /** The store after applying `ops` in order, starting from `s`. */
  function Run(s: Store, ops: seq<Op>): Store
    requires ValidOps(ops)
    decreases |ops|
  {
    if |ops| == 0 then s else Run(Step(s, ops[0]), ops[1..])
  }

  /** The relation between the totals and the catalog's per-entry counters. */
  ghost predicate TotalsConsistent(s: Store)
  {
    && Get(s, TOTAL_SUGGESTIONS) == SumOf(s, SuggestedKeys())
    && SumOf(s, CompletedKeys()) <= Get(s, TOTAL_COMPLETED)
  }

  lemma EmptyIsConsistent()
    ensures TotalsConsistent(EMPTY)
  {
    SumOfEmpty(SuggestedKeys());
    SumOfEmpty(CompletedKeys());
  }

  /** `suggest` keeps the totals consistent with the per-entry counters. */
  lemma SuggestKeepsTotalsConsistent(s: Store, i: nat)
    requires i < |ACTIVITIES|
    requires TotalsConsistent(s)
    ensures TotalsConsistent(Suggest(s, i).store)
  {
    var sk, ck := SuggestedKeys(), CompletedKeys();
    var key := ActivityKey(ACTIVITIES[i].name);
    CatalogKeysDistinct();
    TotalsOutsideFamilies();
    FamiliesDisjoint(key);
    assert key == sk[i];
    assert Suggest(s, i).store == Incr(Incr(s, TOTAL_SUGGESTIONS), key);
    SumOfIncrTwice(s, TOTAL_SUGGESTIONS, key, sk);
    SumOfIncrTwice(s, TOTAL_SUGGESTIONS, key, ck);
  }

  /** `complete` keeps the totals consistent with the per-entry counters, for any name. */
  lemma CompleteKeepsTotalsConsistent(s: Store, name: string)
    requires TotalsConsistent(s)
    ensures TotalsConsistent(Complete(s, name).store)
  {
    var sk, ck := SuggestedKeys(), CompletedKeys();
    var key := CompletedKey(name);
    CatalogKeysDistinct();
    TotalsOutsideFamilies();
    FamiliesDisjoint(key);
    assert Complete(s, name).store == Incr(Incr(s, TOTAL_COMPLETED), key);
    SumOfIncrTwice(s, TOTAL_COMPLETED, key, sk);
    SumOfIncrTwice(s, TOTAL_COMPLETED, key, ck);
  }

  /** Each call keeps the totals consistent with the per-entry counters. */
  lemma StepKeepsTotalsConsistent(s: Store, op: Op)
    requires ValidOp(op)
    requires TotalsConsistent(s)
    ensures TotalsConsistent(Step(s, op))
  {
    match op
    case SuggestOp(i) => SuggestKeepsTotalsConsistent(s, i);
    case CompleteOp(name) => CompleteKeepsTotalsConsistent(s, name);
    case ResetOp => EmptyIsConsistent();
  }

  /** Any run of calls keeps the totals consistent with the per-entry counters. */
  lemma {:induction false} RunKeepsTotalsConsistent(s: Store, ops: seq<Op>)
    requires ValidOps(ops)
    requires TotalsConsistent(s)
    ensures TotalsConsistent(Run(s, ops))
    decreases |ops|
  {
    if |ops| > 0 {
      StepKeepsTotalsConsistent(s, ops[0]);
      RunKeepsTotalsConsistent(Step(s, ops[0]), ops[1..]);
    }
  }

  /** The sum of the `suggested` column of a `stats` answer. */
  function SuggestedColumn(rows: seq<ActivityStat>): nat
  {
    if |rows| == 0 then 0 else rows[0].suggested + SuggestedColumn(rows[1..])
  }

  /** The sum of the `completed` column of a `stats` answer. */
  function CompletedColumn(rows: seq<ActivityStat>): nat
  {
    if |rows| == 0 then 0 else rows[0].completed + CompletedColumn(rows[1..])
  }

  /** The columns of `stats` add up the catalog's counters. */
  lemma {:induction false} ColumnsAreSums(s: Store, acts: seq<Activity>, sk: seq<string>, ck: seq<string>)
    requires |sk| == |acts| && |ck| == |acts|
    requires forall j :: 0 <= j < |acts| ==> sk[j] == ActivityKey(acts[j].name) && ck[j] == CompletedKey(acts[j].name)
    ensures SuggestedColumn(ActivityStats(s, acts)) == SumOf(s, sk)
    ensures CompletedColumn(ActivityStats(s, acts)) == SumOf(s, ck)
  {
    if |acts| > 0 {
      var rows := ActivityStats(s, acts);
      assert rows[1..] == ActivityStats(s, acts[1..]);
      ColumnsAreSums(s, acts[1..], sk[1..], ck[1..]);
    }
  }

  /**
   After any sequence of calls on a fresh store, `stats` reports a suggestion
   total equal to the sum of the per-entry suggested counts, and a completion
   total no smaller than the sum of the per-entry completed counts.
   */
  lemma StatsConsistentFromFresh(ops: seq<Op>)
    requires ValidOps(ops)
    ensures Stats(Run(EMPTY, ops)).totalSuggestions == SuggestedColumn(Stats(Run(EMPTY, ops)).activities)
    ensures CompletedColumn(Stats(Run(EMPTY, ops)).activities) <= Stats(Run(EMPTY, ops)).totalCompleted
  {
    var s := Run(EMPTY, ops);
    EmptyIsConsistent();
    RunKeepsTotalsConsistent(EMPTY, ops);
    ColumnsAreSums(s, ACTIVITIES, SuggestedKeys(), CompletedKeys());
  }

  /**
   The completion total can exceed the catalog's completed counts: completing a
   name outside the catalog counts in the total only.
   */
  lemma CompletionTotalMayExceedCatalog()
    ensures var s := Run(EMPTY, [CompleteOp("Nap")]);
            CompletedColumn(Stats(s).activities) == 0 && Stats(s).totalCompleted == 1
  {
    var s := Run(EMPTY, [CompleteOp("Nap")]);
    assert s == Complete(EMPTY, "Nap").store;
    NamesDistinct();
    CompleteOutsideCatalog(EMPTY, "Nap");
    ColumnsAreSums(EMPTY, ACTIVITIES, SuggestedKeys(), CompletedKeys());
    SumOfEmpty(CompletedKeys());
  }

  /** Every call other than `reset` leaves every counter at least where it was. */
  lemma StepNeverDecreases(s: Store, op: Op)
    requires ValidOp(op) && !op.ResetOp?
    ensures Dominates(Step(s, op), s)
  {
  }

  /** Along any run without `reset`, no counter decreases. */
  lemma {:induction false} RunNeverDecreases(s: Store, ops: seq<Op>)
    requires ValidOps(ops)
    requires forall j :: 0 <= j < |ops| ==> !ops[j].ResetOp?
    ensures Dominates(Run(s, ops), s)
    decreases |ops|
  {
    if |ops| > 0 {
      var s1 := Step(s, ops[0]);
      StepNeverDecreases(s, ops[0]);
      RunNeverDecreases(s1, ops[1..]);
    }
  }
}
