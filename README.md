# vscode-toggle: a verified model of the `toggle` command

The extension registers one command, `toggle`. Its argument is `{ id, value }`:
`id` names a toggle group and `value` is an ordered list of candidate
configuration objects. Each invocation works out which candidate is current,
moves on to the next one (wrapping), and writes that candidate's key/value
pairs into the user's global settings. After the first toggle of an id, a
process-wide cache (`toggleCache`) remembers the chosen index. Later toggles of
that id step from the cached index and do not compare the candidates with the
settings, but they still run the workspace check over every key.

The model has these parts:

- `Values`: JavaScript values (`Undefined`, `Null`, `Bool`, `Num`, `Str`, `Arr`,
  `Obj`) and `IsObjectTyped`, which holds for `Null`, `Arr` and `Obj` because
  `typeof null` is `"object"`. It also defines `Configuration`, an object given by
  its key order (`Object.keys` / `for ... in`) and its own key/value map.
- `Settings`: the host's configuration store as a map from key to a three-tier
  `Inspection` (`defaultValue`, `globalValue`, `workspaceValue`). `Undefined`
  marks a tier that is not set. `ConfigurationStore.Update` is the global-scope
  `update` call.
- `ShallowEquality`: `shallowEqual` as a predicate on maps, and its two loops as
  the method `ShallowEqualScan`, proved equal to that predicate.
- `ToggleSpec`: one invocation as a pure function `Step` from (cache, store,
  argument) to (new cache, new store, outcome). It is built from the key union
  (`UnionKeys`), the workspace check (`Resolve`), the matching scan (`LastMatch`),
  the cached step (`NextIndex`) and the writes (`WriteKeys`). The outcome
  (`InvalidArgs`, `WorkspaceOverride(key)`, `EmptyList`, `Toggled(next)`, `Crash`)
  stands in for the notifications.
- `Extension`: the handler in imperative form. `Toggler` holds `toggleCache` as
  a map field. `Toggler.Toggle` runs the handler's loops (collecting the keys,
  checking and resolving them, scanning the candidates, writing the keys) on a
  `ConfigurationStore`. Its postcondition says the new cache, the new store and
  the outcome are exactly those given by `Step`.
- `ToggleProperties` and `ToggleScenarios`: what invocations guarantee, proved
  about `Step`, plus concrete runs on a two-theme toggle.

Behaviour of the code that the model keeps:

- A candidate matches only if its key set equals the union of all candidates'
  keys. The comparison always runs over the whole union.
- The matching scan has no `break`, so the last matching candidate wins, not
  the first.
- Only the candidate's value is type-tested. If it is object-typed (including
  `null`), that key never makes the comparison fail.
- The workspace check runs before the cached/uncached split, so it applies to
  both branches.
- The empty-list check exists only in the uncached branch; the cached branch
  has no guard of its own. If a cached id is
  toggled with an empty list, `% 0` stores NaN in the cache, and then
  `Object.keys(undefined)` throws (outcome `Crash`, no writes). Every later
  invocation for that id that passes the workspace check throws the same way,
  because NaN stays in the cache (`NaNIsPermanent`).
- A cached index set from one list is wrapped by the length of the list given
  now, whatever that length is.

## Model

| member | source | states |
|---|---|---|
| `Values.IsObjectTyped` | src/extension.ts:21 | `typeof v === "object"`: true for arrays, objects and `null`, false for every primitive |
| `ShallowEquality.KeyPasses` | src/extension.ts:20-21 | one shared key lets the comparison go on when the values are equal or the candidate's value is object-typed |
| `ShallowEquality.ShallowEqual` | src/extension.ts:15-27 | every own key of the candidate is on the other side and passes, and every own key of the other side is on the candidate |
| `Settings.PinnedInWorkspace` | src/extension.ts:48-49 | a key is pinned when its inspection has a workspace value |
| `Settings.EffectiveValue` | src/extension.ts:53 | a key's current value is its global value if set, otherwise its default |
| `Settings.WriteKeys` | src/extension.ts:74-77 | the store after `update(key, c[key], true)` for each of the keys in order |
| `ToggleSpec.AddKey` | src/extension.ts:41 | `Set.add`: a key already present keeps its place, a new key goes to the end |
| `ToggleSpec.AddKeys` | src/extension.ts:40-42 | one candidate's keys added in order to the insertion-ordered set |
| `ToggleSpec.UnionKeys` | src/extension.ts:38-43 | `allOptions`: the set built over all candidates in order |
| `ToggleSpec.Resolve` | src/extension.ts:46-54 | the loop over `allOptions`: the first pinned key refuses, otherwise each key is recorded with its effective value |
| `ToggleSpec.Write` | src/extension.ts:74-84 | the writes of the chosen candidate's keys in its key order, as both branches do them |
| `ToggleSpec.StepResolved` | src/extension.ts:56-85 | after the check: no cache entry gives the empty-list warning or (last match + 1) mod N; a cache entry gives the cached step, NaN and a crash or a write |
| `Values.Put` | src/extension.ts:53 | `currentOptions[key] = v`: the key gets the value, and a key not yet present goes to the end of the key order |
| `Settings.Inspect` | src/extension.ts:48 | `inspect(key)`: the key's three tiers, with every tier unset for a key the store does not know |
| `Settings.SetGlobal` | src/extension.ts:76 | the effect of `update(key, v, true)`: that key's global tier becomes `v`, its other tiers stay |
| `ToggleSpec.ArgumentsPresent` | src/extension.ts:31 | the guard passes exactly when `args`, `args.id` and `args.value` are there and the id is not the empty string |
| `ToggleSpec.Matches` | src/extension.ts:66 | `shallowEqual(configuration, currentOptions)`, with the candidate as the first argument |
| `ToggleSpec.UnionKeysOrder` | src/extension.ts:38-43 | `allOptions` holds exactly the keys met in the candidates, listed in the order in which each is first met going through the candidates and their keys |
| `ToggleSpec.UnionKeysPosition` | src/extension.ts:38-43 | one key of `allOptions` comes before another exactly when it is met first in the candidates |
| `ShallowEquality.ShallowEqualScan` | src/extension.ts:15-27 | the two loops with their early returns give exactly the shallow-equality predicate on the objects' own properties |
| `ShallowEquality.SameKeysWhenEqual` | src/extension.ts:17-25 | a true result implies equal key sets; a key on only one side gives false |
| `ShallowEquality.ShallowEqualCharacterized` | src/extension.ts:15-27 | equal exactly when the key sets are equal and every primitive candidate value equals the other side's value |
| `ShallowEquality.ObjectTypedKeyIgnored` | src/extension.ts:20-21 | a shared key whose candidate value is object-typed (object, array, null) never changes the result, whatever the other side holds |
| `ShallowEquality.PrimitiveKeyMustMatch` | src/extension.ts:20-21 | a shared key whose candidate value is primitive passes only if both values are equal |
| `ShallowEquality.ShallowAndAsymmetric` | src/extension.ts:16-21 | nested differences go unseen; `{a: null}` matches `{a: 1}` but `{a: 1}` matches neither `{a: null}` nor `{a: 2}` |
| `Settings.WriteKeysEffect` | src/extension.ts:74-77 | writing a candidate's keys sets the global tier of exactly those keys to their paired values; every other key and tier stays as it was |
| `Settings.ConfigurationStore.Update` | src/extension.ts:76 | `update(key, value, true)` replaces only the global tier of that key |
| `ToggleSpec.AddKeysEffect` | src/extension.ts:40-42 | adding keys to the insertion-ordered set keeps its old contents as a prefix, gains exactly the new keys and keeps every key once |
| `ToggleSpec.UnionKeysEffect` | src/extension.ts:38-43 | `allOptions` holds exactly the keys of all candidates, each once |
| `ToggleSpec.ResolveRefusesFirstPin` | src/extension.ts:47-52 | the check refuses if and only if some key has a workspace value, and then names the first such key in `allOptions` order |
| `ToggleSpec.ResolveRecordsEffectiveValues` | src/extension.ts:46-54 | when nothing is refused, `currentOptions` holds exactly the keys of `allOptions`, each with its global value if set, else its default |
| `ToggleSpec.LastMatch` | src/extension.ts:62-69 | the scan result `currentIndex` is -1 or a valid index into the candidates |
| `ToggleSpec.LastMatchIsLast` | src/extension.ts:64-69 | a non-negative result names a matching candidate, and no candidate after it matches |
| `ToggleSpec.NextIndex` | src/extension.ts:79 | the cached step gives an index when the cached number c is an index and the list is non-empty, and NaN otherwise; the index is (c+1) mod N, below N |
| `ToggleSpec.Step` | src/extension.ts:31-85 | `InvalidArgs` exactly when args, id or value is missing or the id is empty; rejections change nothing; a toggle caches its index for the id and the index is below the list length; a crash stores NaN for the id and writes nothing |
| `Extension.CollectOptions` | src/extension.ts:38-43 | the nested `forEach` builds exactly the insertion-ordered key union |
| `Extension.ResolveOptions` | src/extension.ts:46-54 | the loop with its early return computes the workspace check and the current options |
| `Extension.ResolveStopsAtFirstPin` | src/extension.ts:49-52 | once a prefix of the keys is refused, the whole list is refused for the same key |
| `Extension.FindCurrentIndex` | src/extension.ts:62-69 | the scan loop computes the last matching index, or -1 |
| `Extension.WriteConfiguration` | src/extension.ts:74-77 | the per-key `update` loop leaves the store as `WriteKeys` describes |
| `Extension.Toggler.constructor` | src/extension.ts:13 | the cache starts empty |
| `Extension.Toggler.Toggle` | src/extension.ts:30-86 | the handler's new cache, new store and outcome are exactly those given by `Step` |
| `Extension.Toggler.Advance` | src/extension.ts:56-85 | the uncached and cached branches, with their writes, compute `StepResolved` |
| `ToggleProperties.ResolvedToCurrentOptions` | src/extension.ts:46-54 | with no pinned key, the check passes and the current options are the global-else-default values over the key union |
| `ToggleProperties.MissingArgumentsRefused` | src/extension.ts:31-34 | a missing args, a missing or empty id, or a missing value list gives `InvalidArgs` and changes neither the cache nor the store |
| `ToggleProperties.WorkspacePinRefused` | src/extension.ts:45-54 | a pinned key in any candidate refuses the toggle, cached or not, and names the first pinned key in union order; cache and store are unchanged |
| `ToggleProperties.EmptyListWithoutCacheWarns` | src/extension.ts:56-60 | no cache entry and an empty list give `EmptyList` with nothing changed |
| `ToggleProperties.FirstToggleFollowsLastMatch` | src/extension.ts:62-71 | with no cache entry, if k is the last candidate that matches the current options over the union (-1 if none), the toggle picks (k+1) mod N |
| `ToggleProperties.NoMatchPicksFirst` | src/extension.ts:62-71 | with no cache entry and no matching candidate, the toggle picks candidate 0 |
| `ToggleProperties.CachedToggleAdvances` | src/extension.ts:79-80 | with a cached index c and N > 0 candidates, the toggle picks (c+1) mod N and caches it |
| `ToggleProperties.CachedIgnoresCurrentSettings` | src/extension.ts:78-84 | in the cached branch, the global and default values have no influence on the outcome or on the new cache |
| `ToggleProperties.ToggleWritesChosenCandidate` | src/extension.ts:71-84 | a toggle to n sets the global tier of exactly candidate n's keys to their values, leaves every other key and tier alone, and leaves other ids' cache entries untouched |
| `ToggleProperties.OnlyGlobalTierWritten` | src/extension.ts:76 | no invocation changes a default or a workspace value |
| `ToggleProperties.NaNIsPermanent` | src/extension.ts:79-81 | a cached NaN makes every invocation that passes the checks throw, with nothing changed |
| `ToggleProperties.CachedEmptyListCrashes` | src/extension.ts:79-81 | a cached id toggled with an empty list stores NaN and throws before any write |
| `ToggleProperties.CachedStepStaysInCycle` | src/extension.ts:79-84 | a cached step keeps the id cached at the next index and pins no key |
| `ToggleProperties.RepeatAdvances` | src/extension.ts:79-80 | n invocations with the same N candidates move a cached index i to (i+n) mod N; for n > 0, i may be left over from a longer list |
| `ToggleProperties.WrapAround` | src/extension.ts:79-80 | N invocations with the same N candidates bring the cached index back to where it started |
| `ToggleScenarios.FirstToggleFromDarkPicksLight` | src/extension.ts:56-71 | candidates dark/light, global theme dark, no cache: the scan matches "dark" and the toggle picks 1 |
| `ToggleScenarios.FirstToggleFromDark` | src/extension.ts:56-77 | candidates dark/light, global theme dark, no cache: writes light and caches 1 |
| `ToggleScenarios.SecondToggleUsesCache` | src/extension.ts:78-84 | cache 1: writes dark and caches 0, whatever the current theme is |
| `ToggleScenarios.EmptyListWarns` | src/extension.ts:56-60 | an empty list with no cache entry only warns |
| `ToggleScenarios.WorkspaceThemeRefused` | src/extension.ts:47-52 | a theme pinned in the workspace is refused by name with nothing changed |

## Left out

- Command registration, `context.subscriptions`, activation and `deactivate` are host plumbing with no logic.
- `showErrorMessage` and `showWarningMessage` become outcome values. Their message texts are not modelled.
- `update` is asynchronous and never awaited, and the host may reject a write. A write is modelled as an immediate, successful map update. The host's own handling of a written value (such as dropping a value equal to the default) is not part of this model.
- Prototype behaviour is not modelled. `for ... in` over inherited enumerable keys (filtered at line 18) is out, and so is a `toggleCache` lookup of an id such as `"toString"`, which finds an `Object.prototype` member. Every key an object lists is its own.
- `===` on two object references is replaced by structural equality. It only matters when the candidate's value is object-typed, and the result is then true either way.
- Numbers are integers and other floating-point values are not modelled. The only NaN is the cached one produced by `% 0`.
- `Settings.Inspect`: a key the store does not know is taken to report every tier as unset. The host's answer for an unregistered key is part of the host, not of this model.
- The `workspaceFolderValue` tier and the key that `inspect` echoes back are not modelled. The echoed key is taken to be the key asked for.
- Arguments of the wrong shape (a non-array `value`, a non-string `id`) are excluded by the argument's type.
- `Values.KeysListed`: the `Configuration` type does not rule out a key order that lists a property twice, which no `Object.keys` result does. Adding `Distinct` to the type makes the proofs about `Step` too costly for the solver. Every operation of the model gives the same result either way: each one skips or overwrites a repeated key.
- `Object.keys` places integer-like keys first. Here the key order of each object is taken as given.
