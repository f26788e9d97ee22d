# Activity counter service, modelled in Dafny

The docker-compose example web app offers a random activity from a fixed catalog
of eight entries. It counts suggestions and completions in a key-value counter
store (Redis), reports the counts, and can clear them. This project models that
service as four pure transitions over an immutable store `map<string, nat>`:

- `suggest` picks a catalog entry and bumps `total_suggestions` and `activity:<name>`.
- `complete(name)` bumps `total_completed` and `completed:<name>`, for any name.
- `stats` reads both totals and one suggested/completed pair per catalog entry,
  in catalog order. Absent keys read as 0.
- `reset` flushes the store.

Modules, one file each:

- `CounterStore` (`counter_store.dfy`): the store and its `get` / `incr` / `flushdb` primitives, plus sums of counters over key lists.
- `Activities` (`activities.dfy`): the catalog.
- `KeyScheme` (`key_scheme.dfy`): the four kinds of key, and proofs that they never collide.
- `Service` (`service.dfy`): the four operations, with frame lemmas and lemmas about what `stats` shows.
- `History` (`history.dfy`): sequences of operations. Along any sequence the totals stay consistent with the per-entry counters, and no counter decreases between resets.

The random choice of `suggest` is a parameter: the caller supplies the index
into the catalog. The HTTP layer is not modelled. `complete` takes the already
extracted name. `suggest`, `complete` and `reset` return the store they leave
plus the body they answer with; `stats` only reads the store and returns the
report.

Behaviours of the code worth noting:

- `complete` does no validation of the name. The code accepts any name and does not reject a missing one.
- The two increments of `suggest` and of `complete` are separate store calls, not one atomic update. A failure after the first one leaves only the total raised, and that difference stays. The proved relations between totals and per-entry counts therefore hold along runs in which every call succeeds.
- Under concurrent requests a `stats` answer can disagree with those relations in either direction. A total can run ahead of its rows while a call sits between its two increments. Rows can also add up to more than the total, because the totals are read first and the rows later.

## Model

| member | source | states |
|---|---|---|
| CounterStore.Get | examples/docker-compose-example/web/app.py:41-47 | reading a counter gives its stored value, and 0 for a key that was never incremented |
| CounterStore.Incr | examples/docker-compose-example/web/app.py:28-29 | a store increment raises exactly the named counter by one, creating it when absent, and leaves every other counter as it was |
| CounterStore.Flush | examples/docker-compose-example/web/app.py:63 | after a flush no key is present and every counter reads 0 |
| Activities.NamesDistinct | examples/docker-compose-example/web/app.py:9-18 | the catalog has eight entries and no two share a name |
| KeyScheme.ActivityKey | examples/docker-compose-example/web/app.py:29 | the suggestion key of a name carries the `activity:` prefix and gives back the name after it |
| KeyScheme.CompletedKey | examples/docker-compose-example/web/app.py:36 | the completion key of a name carries the `completed:` prefix and gives back the name after it |
| KeyScheme.KeysInjective | examples/docker-compose-example/web/app.py:29-36 | two names share a suggestion key, or a completion key, exactly when they are equal |
| KeyScheme.FamiliesDisjoint | examples/docker-compose-example/web/app.py:29-36 | no key of the `activity:` family is also a key of the `completed:` family |
| KeyScheme.TotalsOutsideFamilies | examples/docker-compose-example/web/app.py:28-35 | `total_suggestions` and `total_completed` are distinct, and neither is an `activity:` or a `completed:` key |
| KeyScheme.CatalogKeysDistinct | examples/docker-compose-example/web/app.py:45-47 | the catalog's suggestion keys are pairwise distinct, and so are its completion keys; each list holds only keys of its own family |
| Service.Suggest | examples/docker-compose-example/web/app.py:24-30 | suggesting entry i answers with exactly that entry and adds one to `total_suggestions` and to its `activity:` counter; no other counter changes |
| Service.Complete | examples/docker-compose-example/web/app.py:32-37 | completing any name, in the catalog or not, answers success and adds one to `total_completed` and to `completed:<name>`; no other counter changes |
| Service.ActivityStats | examples/docker-compose-example/web/app.py:44-52 | one row per given entry, in order, carrying its name and its suggested and completed counters, absent ones as 0 |
| Service.Stats | examples/docker-compose-example/web/app.py:39-58 | the report carries both totals as stored (0 when absent), and one row per catalog entry in catalog order |
| Service.Reset | examples/docker-compose-example/web/app.py:60-64 | reset answers success with the message "All stats reset!" and leaves a store in which every counter reads 0 |
| Service.CompleteLeavesSuggestionCounters | examples/docker-compose-example/web/app.py:35-36 | `complete` never changes `total_suggestions` or any `activity:` counter |
| Service.SuggestLeavesCompletionCounters | examples/docker-compose-example/web/app.py:28-29 | `suggest` never changes `total_completed` or any `completed:` counter |
| Service.StatsAfterReset | examples/docker-compose-example/web/app.py:39-64 | `stats` after `reset` reports 0 for both totals and a zero row for every catalog entry |
| Service.SuggestSeenInStats | examples/docker-compose-example/web/app.py:24-58 | after `suggest(i)`, `stats` shows the suggestion total and row i's suggested count one higher, and every other number unchanged |
| Service.CompleteSeenInStats | examples/docker-compose-example/web/app.py:32-58 | after completing catalog entry i by name, `stats` shows the completion total and row i's completed count one higher, and every other number unchanged |
| Service.CompleteOutsideCatalog | examples/docker-compose-example/web/app.py:34-36 | completing a name outside the catalog raises only the completion total in `stats`; every row stays the same |
| Service.SuggestThenCompleteFromFresh | examples/docker-compose-example/web/app.py:24-58 | from a fresh store, suggest(i) then complete of that name gives totals 1 and 1, row i with 1 and 1, every other row with 0 and 0 |
| History.SuggestKeepsTotalsConsistent | examples/docker-compose-example/web/app.py:28-29 | `suggest` keeps `total_suggestions` equal to the sum of the catalog's `activity:` counters, and `total_completed` at least the sum of its `completed:` counters |
| History.CompleteKeepsTotalsConsistent | examples/docker-compose-example/web/app.py:35-36 | `complete` of any name keeps both relations between totals and catalog counters |
| History.StepKeepsTotalsConsistent | examples/docker-compose-example/web/app.py:24-64 | each of suggest, complete and reset keeps both relations |
| History.RunKeepsTotalsConsistent | examples/docker-compose-example/web/app.py:24-64 | any sequence of calls keeps both relations |
| History.ColumnsAreSums | examples/docker-compose-example/web/app.py:45-52 | the suggested and completed columns of the `stats` rows add up to the sums of the corresponding counters |
| History.StatsConsistentFromFresh | examples/docker-compose-example/web/app.py:39-58 | after any calls on a fresh store, `stats` shows a suggestion total equal to the sum of the rows' suggested counts, and a completion total at least the sum of their completed counts |
| History.CompletionTotalMayExceedCatalog | examples/docker-compose-example/web/app.py:34-36 | completing a name outside the catalog on a fresh store gives a completion total of 1 while the rows' completed counts sum to 0 |
| History.StepNeverDecreases | examples/docker-compose-example/web/app.py:28-36 | suggest and complete leave every counter at least where it was |
| History.RunNeverDecreases | examples/docker-compose-example/web/app.py:24-37 | along any sequence of calls without reset, no counter decreases |

## Left out

- Flask routing, page rendering, `jsonify` and request-body parsing are framework I/O. `complete` takes the name as an already extracted string.
- `complete` with no `name` field is not modelled. The code counts such a request under the key `completed:None`; whether that is intended is unclear, so it is not modelled.
- Random selection in `suggest` is a caller-supplied index below the catalog size. That every entry is eventually suggested is a probabilistic property and is not stated.
- The Redis client and its failures are not modelled. An unreachable store surfaces as a server error, which the model omits.
- The store's counters are unbounded `nat`s. Redis keeps 64-bit signed counters and rejects an increment past 2^63-1, which 2^63 requests would be needed to reach.
- Values are kept as numbers. The decoding of stored counters from strings (`int(...)` in `stats`) is not modelled.
- Concurrency is not modelled. Each modelled call runs to completion before the next starts. Interleaved increments and the non-atomic multi-key reads of `stats` are outside the model.
- A call that fails between its two increments is not modelled. Every modelled `suggest` and `complete` performs both increments. A store error after the first increment would leave only the total raised.
- Names are Dafny strings, that is, sequences of Unicode scalar values. A name the store client cannot encode, such as one holding a lone surrogate, is outside the model. In the code such a name makes `complete` fail after `total_completed` has already been raised.
- The hello-world example app (`examples/python-app/app.py`) is a static page with no logic. Process start-up (`app.run`) is omitted as well.
