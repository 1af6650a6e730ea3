/**
 * The `toggle` command handler: the module-level `toggleCache` becomes a field
 * of a Toggler, and each invocation is the method Toggle, which works on the
 * host's configuration store step by step as the handler does.
 */
module Extension {
  import opened Wrappers
  import opened Values
  import opened Settings
  import opened ShallowEquality
  import opened ToggleSpec

  /** The nested `forEach` that fills the Set `allOptions`. */
  method CollectOptions(value: seq<Configuration>) returns (allOptions: seq<string>)
    ensures allOptions == UnionKeys(value)
  {
    allOptions := [];
    for i := 0 to |value|
      invariant allOptions == UnionKeys(value[..i])
    {
      var keys := value[i].keys;
      for j := 0 to |keys|
        invariant allOptions == AddKeys(UnionKeys(value[..i]), keys[..j])
      {
        assert keys[..j + 1][..j] == keys[..j];
        if keys[j] !in allOptions {
          allOptions := allOptions + [keys[j]];
        }
      }
      assert keys[..|keys|] == keys;
      assert value[..i + 1][..i] == value[..i];
    }
    assert value[..|value|] == value;
  }

  /**
   * The loop over `allOptions` that refuses a key pinned in the workspace and
   * otherwise fills `currentOptions` with each key's global-else-default value.
   */
  method ResolveOptions(store: ConfigurationStore, allOptions: seq<string>) returns (r: Resolution)
    ensures r == Resolve(store.tiers, allOptions)
  {
    var currentOptions: Configuration := Object([], map[]);
    for i := 0 to |allOptions|
      invariant Resolve(store.tiers, allOptions[..i]) == Resolved(currentOptions)
    {
      var key := allOptions[i];
      assert allOptions[..i + 1][..i] == allOptions[..i];
      if Inspect(store.tiers, key).workspaceValue != Undefined {
        ResolveStopsAtFirstPin(store.tiers, allOptions, i + 1);
        return Overridden(key);
      }
      currentOptions := Put(currentOptions, key, EffectiveValue(store.tiers, key));
    }
    assert allOptions[..|allOptions|] == allOptions;
    return Resolved(currentOptions);
  }

  /** Once a prefix of the keys is refused, the whole list is refused for the same key. */
  lemma {:induction false} ResolveStopsAtFirstPin(tiers: Tiers, keys: seq<string>, n: nat)
    requires n <= |keys| && Resolve(tiers, keys[..n]).Overridden?
    ensures Resolve(tiers, keys) == Resolve(tiers, keys[..n])
    decreases |keys| - n
  {
    if n < |keys| {
      var longer := keys[..n + 1];
      assert longer[..n] == keys[..n];
      ResolveStopsAtFirstPin(tiers, keys, n + 1);
    } else {
      assert keys[..n] == keys;
    }
  }

  /** The scan for the candidate that matches the current options; it has no `break`. */
  method FindCurrentIndex(value: seq<Configuration>, currentOptions: Configuration) returns (currentIndex: int)
    ensures currentIndex == LastMatch(value, currentOptions)
  {
    currentIndex := -1;
    for index := 0 to |value|
      invariant currentIndex == LastMatch(value[..index], currentOptions)
    {
      assert value[..index + 1][..index] == value[..index];
      var equal := ShallowEqualScan(value[index], currentOptions);
      if equal {
        currentIndex := index;
      }
    }
    assert value[..|value|] == value;
  }

  /** `Object.keys(c).forEach(key => update(key, c[key], true))`. */
  method WriteConfiguration(store: ConfigurationStore, c: Configuration)
    modifies store
    ensures store.tiers == Write(old(store.tiers), c)
  {
    for j := 0 to |c.keys|
      invariant store.tiers == WriteKeys(old(store.tiers), c.keys[..j], c.entries)
    {
      assert c.keys[..j + 1][..j] == c.keys[..j];
      store.Update(c.keys[j], c.entries[c.keys[j]]);
    }
    assert c.keys[..|c.keys|] == c.keys;
  }

  class Toggler {
    /** For each id, the index the last toggle chose (`toggleCache`). */
    var toggleCache: map<string, CachedIndex>

    constructor ()
      ensures toggleCache == map[]
    {
      toggleCache := map[];
    }

    /** The `toggle` command callback. */
    method Toggle(store: ConfigurationStore, args: Option<ToggleArguments>) returns (outcome: Outcome)
      modifies this, store
      ensures (State(toggleCache, store.tiers), outcome) == Step(State(old(toggleCache), old(store.tiers)), args)
    {
      if args.None? || args.value.id.None? || args.value.id.value == "" || args.value.value.None? {
        return InvalidArgs;
      }
      var id := args.value.id.value;
      var value := args.value.value.value;
      ghost var before := State(toggleCache, store.tiers);

      var allOptions := CollectOptions(value);
      var resolution := ResolveOptions(store, allOptions);
      if resolution.Overridden? {
        return WorkspaceOverride(resolution.key);
      }
      var currentOptions := resolution.current;
      assert Step(before, args) == StepResolved(before, id, value, currentOptions);

      outcome := Advance(store, id, value, currentOptions);
    }

    /** Everything after the workspace check: the uncached scan or the cached step, then the writes. */
    method Advance(store: ConfigurationStore, id: string, value: seq<Configuration>, currentOptions: Configuration)
      returns (outcome: Outcome)
      modifies this, store
      ensures (State(toggleCache, store.tiers), outcome) == StepResolved(State(old(toggleCache), old(store.tiers)), id, value, currentOptions)
    {
      if id !in toggleCache {
        if |value| <= 0 {
          return EmptyList;
        }
        var currentIndex := FindCurrentIndex(value, currentOptions);
        var nextIndex := (currentIndex + 1) % |value|;
        toggleCache := toggleCache[id := Index(nextIndex)];
        WriteConfiguration(store, value[nextIndex]);
        return Toggled(nextIndex);
      } else {
        var nextIndex := NextIndex(toggleCache[id], |value|);
        toggleCache := toggleCache[id := nextIndex];
        if nextIndex.NaN? {
          // `args.value[NaN]` is undefined and `Object.keys(undefined)` throws.
          return Crash;
        }
        WriteConfiguration(store, value[nextIndex.i]);
        return Toggled(nextIndex.i);
      }
    }
  }
}
