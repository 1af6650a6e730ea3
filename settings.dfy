/**
 * The host editor's configuration store, reduced to what the toggle command uses:
 * a per-key three-tier inspection (default, global, workspace) and a write to the
 * global tier.
 */
module Settings {
  import opened Values

  /**
   * What `inspect(key)` reports for a key. A tier holding `Undefined` is not set.
   * The key the host echoes back is taken to be the key that was asked for.
   */
  datatype Inspection = Inspection(defaultValue: Value, globalValue: Value, workspaceValue: Value)

  /** The whole store: the tiers of every key the host knows. */
  type Tiers = map<string, Inspection>

  /** Inspecting a key the store does not know reports every tier as not set. */
  function Inspect(tiers: Tiers, key: string): Inspection {
    if key in tiers then tiers[key] else Inspection(Undefined, Undefined, Undefined)
  }

  /** The key has a workspace-level value, which would override anything written globally. */
  predicate PinnedInWorkspace(tiers: Tiers, key: string) {
    Inspect(tiers, key).workspaceValue != Undefined
  }

  /** The value the toggle treats as current: the global value if set, else the default. */
  function EffectiveValue(tiers: Tiers, key: string): Value {
    var t := Inspect(tiers, key);
    if t.globalValue != Undefined then t.globalValue else t.defaultValue
  }

  /** `update(key, v, true)`: the global tier of `key` becomes `v`. */
  function SetGlobal(tiers: Tiers, key: string, v: Value): Tiers {
    tiers[key := Inspect(tiers, key).(globalValue := v)]
  }

  /** The store after `update(key, entries[key], true)` for each key of `keys` in turn. */
  function WriteKeys(tiers: Tiers, keys: seq<string>, entries: map<string, Value>): Tiers
    requires forall k :: k in keys ==> k in entries
    decreases |keys|
  {
    if keys == [] then tiers
    else
      var last := keys[|keys| - 1];
      var front := keys[..|keys| - 1];
      assert forall k :: k in front ==> k in keys;
      SetGlobal(WriteKeys(tiers, front, entries), last, entries[last])
  }

  /**
   * Exactly the written keys get a new global value, the value paired with them;
   * every other tier of every key, and every key not written, keeps what it had.
   */
  lemma {:induction false} WriteKeysEffect(tiers: Tiers, keys: seq<string>, entries: map<string, Value>)
    requires forall k :: k in keys ==> k in entries
    ensures forall k :: k in WriteKeys(tiers, keys, entries) <==> k in tiers || k in keys
    ensures forall k :: k in keys ==> Inspect(WriteKeys(tiers, keys, entries), k) == Inspect(tiers, k).(globalValue := entries[k])
    ensures forall k :: k !in keys && k in tiers ==> WriteKeys(tiers, keys, entries)[k] == tiers[k]
    decreases |keys|
  {
    if keys != [] {
      var front := keys[..|keys| - 1];
      assert forall k :: k in keys <==> k in front || k == keys[|keys| - 1];
      WriteKeysEffect(tiers, front, entries);
    }
  }

  /** The host's configuration object; only its global tier is ever written. */
  class ConfigurationStore {
    var tiers: Tiers

    constructor (tiers: Tiers)
      ensures this.tiers == tiers
    {
      this.tiers := tiers;
    }

    /** `update(key, value, true)`, applied at once. */
    method Update(key: string, value: Value)
      modifies this
      ensures tiers == SetGlobal(old(tiers), key, value)
    {
      tiers := SetGlobal(tiers, key, value);
    }
  }
}
