# Memoization caches and `Result<T>` in Dafny

This project models two parts of the `Functional` library of the mpconc-ws
workshop repository and proves properties of the models.

- `memoize.dfy` (module `MemoizeExt`) models the memoizing wrappers of
  `MemoizeExt`: `Memoize`, `MemoizeThreadSafe`, `MemoizeLazyThreadSafe`,
  `memo<T>` and the weakly caching `memo<T, R>` with its private
  `WeakDictionary`. Each wrapper's closure becomes an object whose fields are
  the closure's cache; calling the closure is calling `Invoke`. The wrapped
  function is a pure Dafny function, and a ghost counter records each time it
  runs. Runs are sequential, and the garbage collector is two explicit
  operations: `WeakDictionary.Reclaim` clears a slot's weak reference, and
  `WeakDictionary.Finalize` is the finalizer callback that removes the key.
- `result.dfy` (module `Validation`) models `Result<T>`, the `ResultEx`
  helpers and the synchronous `ResultExt` combinators as a datatype with pure
  functions. Lemmas state the short-circuiting of `Bind`, the monad laws,
  the fact that `OnSuccess` and `Map` agree, and that `BiMap` always succeeds.
- `options.dfy` (module `Options`) stands in for the repository's
  `Option<T>`, whose source is not part of this model.

`WeakDictionary.GetOrAdd` keeps an existing slot, because it goes through
`ConcurrentDictionary.GetOrAdd`. It throws `OutOfMemoryException` when that
slot's target has been collected (`src/Common/Functional.cs/Memoize.cs:115-117`).
`WeakDictionary.GetOrAdd` and `WeakMemo.Invoke` model that behaviour as
written. A weak cache is expected to treat such a slot as missing; the
corrected variant is described under "Findings".

## Model

| member | source | states |
|---|---|---|
| `MemoizeExt.Memoize.constructor` | src/Common/Functional.cs/Memoize.cs:14-16 | A new memoizer starts with an empty cache, and no invocation of `func` has happened yet. |
| `MemoizeExt.Memoize.Invoke` | src/Common/Functional.cs/Memoize.cs:17-22 | The result is always `func(arg)`. On a hit it is the stored value, and `func` is not invoked. On a miss `func` is invoked exactly once. Afterwards `cache[arg]` holds the result, and every other key is unchanged. The invariant that every cached value equals `func` of its key is preserved. |
| `MemoizeExt.MissesCountDistinctKeys` | src/Common/Functional.cs/Memoize.cs:19-21 | Serving a sequence of calls invokes `func` once for each distinct key that was not already cached. |
| `MemoizeExt.InvokeEach` | src/Common/Functional.cs/Memoize.cs:17-22 | A caller that applies the memoized function to each key in turn gets `func(k)` for every key. Afterwards the cache holds the old keys plus the requested ones. `func` ran exactly once per distinct key that was not cached before. |
| `MemoizeExt.MemoizeThreadSafe.constructor` | src/Common/Functional.cs/Memoize.cs:26-28 | A new thread-safe memoizer starts with an empty concurrent cache and no invocations. |
| `MemoizeExt.Lazy.constructor` | src/Common/Functional.cs/Memoize.cs:47 | A new `Lazy` holds its factory, has created no value, and has not run the factory. |
| `MemoizeExt.MemoizeLazyThreadSafe.constructor` | src/Common/Functional.cs/Memoize.cs:33-35 | A new lazy memoizer starts with no cells and no invocations. |
| `MemoizeExt.Memo.constructor` | src/Common/Functional.cs/Memoize.cs:45-47 | `memo(func)` allocates one fresh `Lazy` over `func` that has not yet run. |
| `MemoizeExt.WeakDictionary.constructor` | src/Common/Functional.cs/Memoize.cs:74 | The weak dictionary starts empty, and `addFunc` has not run. |
| `MemoizeExt.MemoizeThreadSafe.Invoke` | src/Common/Functional.cs/Memoize.cs:26-30 | Run sequentially, `GetOrAdd` stores `func(arg)` on the first call for a key. Later calls return the stored value without invoking `func`. The result is always `func(arg)`, and no other key changes. |
| `MemoizeExt.Lazy.Value` | src/Common/Functional.cs/Memoize.cs:36 | Reading `Value` returns `valueFactory()`. The factory runs on the first read only, and later reads return the value already created. |
| `MemoizeExt.MemoizeLazyThreadSafe.Invoke` | src/Common/Functional.cs/Memoize.cs:33-37 | A `Lazy` cell is installed once per key, and an existing cell is kept. The call returns `func(arg)`. `func` runs only when the key is new. Every installed cell computes `func` of its key and has already been evaluated. |
| `MemoizeExt.Memo.Invoke` | src/Common/Functional.cs/Memoize.cs:45-49 | Every call returns `func()`, the same value the first call produced. `func` has been evaluated exactly once, however many calls have been made. |
| `MemoizeExt.WeakDictionary.TryGetValue` | src/Common/Functional.cs/Memoize.cs:101-110 | The result is `None` exactly when the key is absent or its slot has been reclaimed. For a live slot it is `Some` of the stored value. The dictionary is not modified. |
| `MemoizeExt.WeakDictionary.GetOrAdd` | src/Common/Functional.cs/Memoize.cs:112-118 | `ReferenceValue` (lines 92-99) builds the slot for a new key. An absent key: `addFunc(key)` runs once, a live slot holding it is stored, and its value is returned. A live slot: its value is returned, and `addFunc` does not run. A reclaimed slot: `OutOfMemoryException`, with the dictionary unchanged. |
| `MemoizeExt.WeakDictionary.TryRemove` | src/Common/Functional.cs/Memoize.cs:120-124 | Returns true exactly when the key was present. The key is absent afterwards, and the other keys are untouched. |
| `MemoizeExt.WeakDictionary.Reclaim` | src/Common/Functional.cs/Memoize.cs:74 | Collecting the target of a slot turns it into a reclaimed slot. The key stays in the dictionary, and no other key changes. |
| `MemoizeExt.WeakDictionary.Finalize` | src/Common/Functional.cs/Memoize.cs:86-98 | The finalizer callback removes the key, whatever slot currently occupies it, and leaves the other keys untouched. |
| `MemoizeExt.WeakMemo.constructor` | src/Common/Functional.cs/Memoize.cs:51-54 | A new weak memoizer starts with an empty weak cache and an empty token map. |
| `MemoizeExt.WeakMemo.Invoke` | src/Common/Functional.cs/Memoize.cs:56-69 | When `TryGetValue` finds a live value, that value is returned and `func` is not called. Otherwise the result comes from `GetOrAdd`, so `func` runs exactly when the key was absent. Every returned value is `func(inp)`. The call throws exactly when the key's slot was reclaimed but not yet finalized. After a normal return `syncMap` has no entry for `inp`. After the exception the token stays, because the removal is skipped. A leftover token only ever sits beside a reclaimed or removed slot. |
| `MemoizeExt.SquaresScenario` | src/Common/Functional.cs/Memoize.cs:56-69 | `x * x` memoized weakly and called with 3, 3 and 4 returns 9, 9 and 16, with two invocations. |
| `MemoizeExt.FinalizedKeyIsRecomputed` | src/Common/Functional.cs/Memoize.cs:94-98 | After a value is reclaimed and its key finalized, the next call recomputes it. It returns the same value, with a second invocation. |
| `MemoizeExt.ReclaimedSlotThrows` | src/Common/Functional.cs/Memoize.cs:112-118 | A call made after reclamation but before finalization throws `OutOfMemoryException` and leaves its lock token in `syncMap`. |
| `MemoizeExt.WeakDictionary.GetOrRecompute` | src/Common/Functional.cs/Memoize.cs:112-118 | Corrected `GetOrAdd`: a reclaimed slot is treated as absent, so the value is recomputed and the slot replaced. It never fails. |
| `MemoizeExt.WeakMemo.InvokeRecomputing` | src/Common/Functional.cs/Memoize.cs:56-69 | Corrected `memo<T, R>` call: the result is always `func(inp)`. `func` runs exactly when no live value was cached, and `syncMap` has no entry for `inp` afterwards. |
| `MemoizeExt.ReclaimedSlotRecomputes` | src/Common/Functional.cs/Memoize.cs:56-69 | With the corrected call, the sequence that throws in `ReclaimedSlotThrows` returns 9 twice, with two invocations and no token left behind. |
| `Validation.Result.Error` | Common/Functional.cs/Validation/Result.cs:22 | `Error` is present exactly on a failed result, and it is that result's exception. |
| `Validation.Result.IsFailed` | Common/Functional.cs/Validation/Result.cs:24 | `IsFailed` holds exactly for the failure case, that is, when `Error` is present. |
| `Validation.Result.IsOk` | Common/Functional.cs/Validation/Result.cs:25 | `IsOk` holds exactly for the success case. |
| `Validation.Result.Match` | Common/Functional.cs/Validation/Result.cs:38-44 | On a success the result is `okMap(value)`; on a failure it is `failureMap(error)`. |
| `Validation.OnSuccess` | Common/Functional.cs/Validation/Result.cs:194-199 | The result succeeds exactly when the input does. A failure keeps its error, and a success with value `v` carries `map(v)`. |
| `Validation.OnFailure` | Common/Functional.cs/Validation/Result.cs:201-206 | The input result is returned unchanged. The action runs on the error exactly when the input failed. |
| `Validation.Bind` | Common/Functional.cs/Validation/Result.cs:208-213 | A failure comes back failed with the same error, and `map` is not applied. A success with value `x` gives `map(x)`. |
| `Validation.Map` | Common/Functional.cs/Validation/Result.cs:215-219 | The result succeeds exactly when the input does. A failure keeps its error, and a success with value `v` carries `map(v)`. |
| `Validation.BiMap` | Common/Functional.cs/Validation/Result.cs:221-226 | The result always succeeds. It carries `mapError(error)` for a failure and `mapOk(value)` for a success. |
| `Validation.BiMapAction` | Common/Functional.cs/Validation/Result.cs:228-236 | The result succeeds exactly when the input does. A failure keeps its error and has the action run on that error. A success carries `mapOk(value)`, and no action runs. |
| `Validation.FailedIffErrorPresent` | Common/Functional.cs/Validation/Result.cs:21-25 | `IsFailed` holds exactly when `Error` is present, `IsOk` is its negation, and `IsOk` holds exactly for the success case. |
| `Validation.MakeOk` | Common/Functional.cs/Validation/Result.cs:14 | `ResultEx.Ok(v)`, the value constructor and the implicit conversions give a successful result that carries `v` and has no error. |
| `Validation.MakeFailure` | Common/Functional.cs/Validation/Result.cs:15 | `ResultEx.Failure(e)`, the exception constructor and the implicit conversions give a failed result whose error is `e`. |
| `Validation.MatchBranches` | Common/Functional.cs/Validation/Result.cs:38-44 | `Match` applies `okMap` to the value of a success and `failureMap` to the error of a failure. This holds for the struct method, its `void` overload and the `ResultExt.Match` extension at lines 191-192. |
| `Validation.MatchWithConstructors` | Common/Functional.cs/Validation/Result.cs:38-39 | Matching with the two constructors gives back the original result. |
| `Validation.BindShortCircuits` | Common/Functional.cs/Validation/Result.cs:208-213 | `Bind` on a failure returns a failure with the same error, whatever `map` is. |
| `Validation.BindLeftIdentity` | Common/Functional.cs/Validation/Result.cs:208-213 | `Bind(Ok(x), map) == map(x)`. |
| `Validation.BindRightIdentity` | Common/Functional.cs/Validation/Result.cs:208-213 | `Bind(r, Ok) == r`. |
| `Validation.BindAssociative` | Common/Functional.cs/Validation/Result.cs:208-213 | `Bind` chains are associative. |
| `Validation.OnSuccessIsMap` | Common/Functional.cs/Validation/Result.cs:194-199 | `OnSuccess` and `Map` give the same result for every input. |
| `Validation.MapKeepsErrorOrMapsValue` | Common/Functional.cs/Validation/Result.cs:215-219 | `Map` keeps the error of a failure and turns a success with value `v` into `Ok(map(v))`. |
| `Validation.MapIsBindOk` | Common/Functional.cs/Validation/Result.cs:215-219 | `Map(r, map)` is `Bind` with `x => Ok(map(x))`. |
| `Validation.MapIdentity` | Common/Functional.cs/Validation/Result.cs:215-219 | Mapping the identity function changes nothing. |
| `Validation.MapComposes` | Common/Functional.cs/Validation/Result.cs:215-219 | Mapping twice is mapping the composition. |
| `Validation.OnFailureKeepsResult` | Common/Functional.cs/Validation/Result.cs:201-206 | `OnFailure` returns its input unchanged, and runs the action on the error exactly when the input failed. |
| `Validation.BiMapAlwaysOk` | Common/Functional.cs/Validation/Result.cs:221-226 | `BiMap(mapOk, mapError)` always gives a success, carrying `mapError(error)` for a failure and `mapOk(value)` for a success. |
| `Validation.BiMapActionKeepsError` | Common/Functional.cs/Validation/Result.cs:228-236 | The action overload of `BiMap` maps a success like `Map` and returns a failure with the original error. It runs the action on that error exactly when the input failed. |

## Left out

- Concurrency: the `lock (sync)` block, the atomicity of `ConcurrentDictionary.GetOrAdd` and `TryRemove`, and the single-flight guarantee of `memo<T, R>` are about interleaved threads. Every method here runs to completion alone, so the lock tokens are allocated and removed but never contended.
- Garbage collection and weak references: reachability is not modelled. A slot becomes reclaimed only through `WeakDictionary.Reclaim`, and the finalizer runs only through `WeakDictionary.Finalize`. The caller decides when these happen.
- Exceptions thrown by the wrapped function: `func` is a total Dafny function. So a failing call that caches nothing, followed by a next call that retries, is not modelled.
- `MemoizeLazyTaskdSafe` and the `Task`-based `ResultExtensions` (`TryCatch`, `SelectMany`, `Select`, the asynchronous `Match`, `ToResult`, `OnSuccess`, `OnFailure`, `Bind`, `Map`, `Ensure`, `Tee`): these are asynchronous plumbing around the same branching as the synchronous combinators.
- The `Ok` property of a failed result (C#'s `default(T)`) and a result built from a null exception (C# treats it as a success carrying `default(T)`): Dafny has no default value for a type parameter. So a failure carries no value, and exceptions are never null.
- The `Result.Ok<L>` and `Result.Failure` tag structs: `MakeOk` and `MakeFailure` cover both the helper and its conversion to `Result<T>`.
- `Action` arguments: an action is a function that describes its effect, and the combinator returns the effect it performed. Effects beyond that value are not modelled.
- The object identity of `ActionOnFinalize`: the model keeps only whether a slot's target is alive and what value it holds.
- `Lazy<T>` thread-safety modes and cached factory exceptions: the modes only matter under concurrency, and a cached factory exception only matters when `func` throws, which it never does in the model.
- Null keys: `Dictionary.ContainsKey` (Memoize.cs:19) and the `ConcurrentDictionary` calls (lines 29, 36, 62 and 105) throw `ArgumentNullException` for a null key. Dafny keys are never null, so that exception is not modelled, and `Outcome` has only `OutOfMemory` as its exception.
- A `func` that calls its own memoized wrapper: every `Invoke` treats `func` as a pure function that does not re-enter the object. In `Memoize`, a re-entrant `func` could add other keys while `func(arg)` runs, so `cache == old(cache)[arg := r]` does not cover that case. In `MemoizeLazyThreadSafe`, re-entering for the same key makes `Lazy.Value` throw `InvalidOperationException`. Neither is modelled.
- A collection during a call: only the weak reference holds the `ActionOnFinalize` built at Memoize.cs:93-99, and callers keep only `target.Value`. So a collection between the store and `TryGetTarget` at line 115 makes even a call for an absent key throw. `Reclaim` runs only between calls. So `WeakMemo.Invoke`'s "throws exactly when the slot was already reclaimed" and `GetOrAdd`'s absent-key case describe calls that no collection interrupts.
- Exception identity: C# compares exceptions by reference, but the model's `Exception` is a value identified by its message. No lemma depends on telling two equal-message exceptions apart.
- `Module1/Parallelism/ProcessFuzzyMacth.cs` (timing harnesses over a fuzzy-match search whose source is not part of this model) and `src/Module6/ParallelFilterMap/ParallelFilterMap/ParallelFilterMap.cs` (an unfinished exercise that returns `null`): they have no sequential behaviour to state.

## Findings

| source | as written | input that shows it | evidently intended | confidence | as-written member | corrected member |
|---|---|---|---|---|---|---|
| src/Common/Functional.cs/Memoize.cs:112-118 | `GetOrAdd` keeps a slot whose weak reference was cleared and throws `OutOfMemoryException`. `memo<T, R>` reaches this whenever a value has been collected but its finalizer has not yet removed the key. The throw also skips `syncMap.TryRemove` at line 67, so the key's lock token stays behind. | `memo(x => x * x)` called with 3, then the value for 3 is reclaimed, then another call with 3 | A reclaimed slot is treated as absent: the value is recomputed, the slot replaced and the token removed. The memoized function then never fails where `func` does not. | not executed; the interleaving of collection, finalization and the call is read from the code | `MemoizeExt.ReclaimedSlotThrows` | `MemoizeExt.WeakMemo.InvokeRecomputing` |

`ReclaimedSlotThrows` runs the as-written `WeakMemo.Invoke` on that input.
`ReclaimedSlotRecomputes` runs the corrected `WeakMemo.InvokeRecomputing`,
which is built on `WeakDictionary.GetOrRecompute`, on the same input.
