/**
 * The `toggle` command as a function of the cache, the configuration store and
 * the command's argument. Extension.Toggler.Toggle is proved to compute it.
 */
module ToggleSpec {
  import opened Wrappers
  import opened Values
  import opened Settings
  import opened ShallowEquality

  /** The command's argument `{ id, value }`; either field may be missing. */
  datatype ToggleArguments = ToggleArguments(id: Option<string>, value: Option<seq<Configuration>>)

  /**
   * What one invocation does, in place of the notifications: a rejected
   * argument, a key pinned in the workspace, an empty list with no cache entry,
   * a toggle to a candidate index, or the TypeError that escapes the handler.
   */
  datatype Outcome =
    | InvalidArgs
    | WorkspaceOverride(key: string)
    | EmptyList
    | Toggled(next: nat)
    | Crash

  /**
   * A number stored in the cache. Every number the handler stores is a
   * non-negative integer, except the NaN that `% 0` produces.
   */
  datatype CachedIndex = Index(i: nat) | NaN

  /** `toggleCache` together with the host's configuration store. */
  datatype State = State(cache: map<string, CachedIndex>, tiers: Tiers)

  /** `!args || !args.id || !args.value` is false: every field is there and the id is not empty. */
  predicate ArgumentsPresent(args: Option<ToggleArguments>) {
    args.Some? && args.value.id.Some? && args.value.id.value != "" && args.value.value.Some?
  }

  function Id(args: Option<ToggleArguments>): string
    requires ArgumentsPresent(args)
  {
    args.value.id.value
  }

  function Candidates(args: Option<ToggleArguments>): seq<Configuration>
    requires ArgumentsPresent(args)
  {
    args.value.value.value
  }

  /** `Set.add`: a key already present keeps its place. */
  function AddKey(acc: seq<string>, key: string): seq<string> {
    if key in acc then acc else acc + [key]
  }

  /** Adding `keys` one by one to the insertion-ordered set `acc`. */
  function AddKeys(acc: seq<string>, keys: seq<string>): seq<string>
    decreases |keys|
  {
    if keys == [] then acc
    else AddKey(AddKeys(acc, keys[..|keys| - 1]), keys[|keys| - 1])
  }

  /** The set grows at the end only, gains exactly the new keys and never holds a key twice. */
  lemma {:induction false} AddKeysEffect(acc: seq<string>, keys: seq<string>)
    ensures forall k :: k in AddKeys(acc, keys) <==> k in acc || k in keys
    ensures acc <= AddKeys(acc, keys)
    ensures Distinct(acc) ==> Distinct(AddKeys(acc, keys))
    decreases |keys|
  {
    if keys != [] {
      var front := keys[..|keys| - 1];
      assert forall k :: k in keys <==> k in front || k == keys[|keys| - 1];
      AddKeysEffect(acc, front);
    }
  }

  /**
   * `allOptions`: the keys of every candidate, in the order they are first met
   * going through the candidates and their keys in order.
   */
  function UnionKeys(value: seq<Configuration>): seq<string>
    decreases |value|
  {
    if value == [] then []
    else AddKeys(UnionKeys(value[..|value| - 1]), value[|value| - 1].keys)
  }

  /** `allOptions` holds every key of every candidate, and nothing else, once each. */
  lemma {:induction false} UnionKeysEffect(value: seq<Configuration>)
    ensures forall k :: k in UnionKeys(value) <==> exists i :: 0 <= i < |value| && k in value[i].entries
    ensures Distinct(UnionKeys(value))
    decreases |value|
  {
    if value != [] {
      var front := value[..|value| - 1];
      var last := value[|value| - 1];
      assert forall i :: 0 <= i < |front| ==> front[i] == value[i];
      UnionKeysEffect(front);
      AddKeysEffect(UnionKeys(front), last.keys);
    }
  }

  /** Every candidate's keys, one candidate after another. */
  function Flatten(value: seq<Configuration>): seq<string>
    decreases |value|
  {
    if value == [] then [] else Flatten(value[..|value| - 1]) + value[|value| - 1].keys
  }

  /** The position where `k` first occurs in `s`. */
  function FirstIndex(s: seq<string>, k: string): (r: nat)
    requires k in s
    ensures r < |s| && s[r] == k && k !in s[..r]
  {
    if s[0] == k then 0
    else
      var r' := FirstIndex(s[1..], k);
      assert s[..1 + r'] == [s[0]] + s[1..][..r'];
      1 + r'
  }

  /** A position holding `k` with no `k` before it is the first position of `k`. */
  lemma FirstIndexUnique(s: seq<string>, k: string, r: nat)
    requires r < |s| && s[r] == k && k !in s[..r]
    ensures FirstIndex(s, k) == r
  {
  }

  /** The keys of `r` come in the order in which they first occur in `s`. */
  predicate InFirstSeenOrder(r: seq<string>, s: seq<string>) {
    forall i, j :: 0 <= i < j < |r| ==> r[i] in s && r[j] in s && FirstIndex(s, r[i]) < FirstIndex(s, r[j])
  }

  /**
   * Adding `keys` to a set that lists the keys of `seen` in first-seen order
   * gives a set that lists the keys of `seen + keys` in first-seen order.
   */
  lemma {:induction false} AddKeysOrder(acc: seq<string>, seen: seq<string>, keys: seq<string>)
    requires forall k :: k in acc <==> k in seen
    requires InFirstSeenOrder(acc, seen)
    ensures forall k :: k in AddKeys(acc, keys) <==> k in seen + keys
    ensures InFirstSeenOrder(AddKeys(acc, keys), seen + keys)
    decreases |keys|
  {
    if keys == [] {
      assert seen + keys == seen;
    } else {
      var front, x := keys[..|keys| - 1], keys[|keys| - 1];
      var before := seen + front;
      assert seen + keys == before + [x];
      AddKeysOrder(acc, seen, front);
      var r := AddKeys(acc, front);
      forall k | k in before
        ensures FirstIndex(before + [x], k) == FirstIndex(before, k)
      {
        var f := FirstIndex(before, k);
        assert (before + [x])[..f] == before[..f];
        FirstIndexUnique(before + [x], k, f);
      }
      var after := before + [x];
      if x in r {
        assert AddKeys(acc, keys) == r;
        forall i, j | 0 <= i < j < |r|
          ensures r[i] in after && r[j] in after && FirstIndex(after, r[i]) < FirstIndex(after, r[j])
        {
          assert r[i] in before && r[j] in before;
        }
      } else {
        assert after[..|before|] == before;
        FirstIndexUnique(after, x, |before|);
        var r' := r + [x];
        assert AddKeys(acc, keys) == r';
        forall i, j | 0 <= i < j < |r'|
          ensures r'[i] in after && r'[j] in after && FirstIndex(after, r'[i]) < FirstIndex(after, r'[j])
        {
          assert r'[i] == r[i] && r[i] in before;
          if j < |r| {
            assert r'[j] == r[j] && r[j] in before;
          } else {
            assert r'[j] == x;
          }
        }
      }
    }
  }

  /**
   * `allOptions` lists the keys in the order in which they are first met going
   * through the candidates and their keys in order.
   */
  lemma {:induction false} UnionKeysOrder(value: seq<Configuration>)
    ensures forall k :: k in UnionKeys(value) <==> k in Flatten(value)
    ensures InFirstSeenOrder(UnionKeys(value), Flatten(value))
    decreases |value|
  {
    if value != [] {
      var front := value[..|value| - 1];
      UnionKeysOrder(front);
      AddKeysOrder(UnionKeys(front), Flatten(front), value[|value| - 1].keys);
    }
  }

  /** One key of `allOptions` precedes another exactly when it is met first in the candidates. */
  lemma UnionKeysPosition(value: seq<Configuration>, i: nat, j: nat)
    requires i < |UnionKeys(value)| && j < |UnionKeys(value)|
    ensures UnionKeys(value)[i] in Flatten(value) && UnionKeys(value)[j] in Flatten(value)
    ensures i < j <==> FirstIndex(Flatten(value), UnionKeys(value)[i]) < FirstIndex(Flatten(value), UnionKeys(value)[j])
  {
    UnionKeysOrder(value);
    var u := UnionKeys(value);
    assert u[i] in u && u[j] in u;
  }

  /** The outcome of the workspace check over `allOptions`. */
  datatype Resolution = Overridden(key: string) | Resolved(current: Configuration)

  /** The loop over `allOptions`, which stops at the first key pinned in the workspace. */
  function Resolve(tiers: Tiers, keys: seq<string>): Resolution
    decreases |keys|
  {
    if keys == [] then Resolved(Object([], map[]))
    else
      var key := keys[|keys| - 1];
      match Resolve(tiers, keys[..|keys| - 1])
      case Overridden(k) => Overridden(k)
      case Resolved(c) =>
        if PinnedInWorkspace(tiers, key) then Overridden(key)
        else Resolved(Put(c, key, EffectiveValue(tiers, key)))
  }

  /** `key` is the first of `keys` pinned in the workspace. */
  predicate FirstPinned(tiers: Tiers, keys: seq<string>, key: string) {
    exists i :: 0 <= i < |keys| && keys[i] == key && PinnedInWorkspace(tiers, keys[i]) &&
      forall j :: 0 <= j < i ==> !PinnedInWorkspace(tiers, keys[j])
  }

  /** The check refuses exactly when some key is pinned, and then names the first pinned key. */
  lemma {:induction false} ResolveRefusesFirstPin(tiers: Tiers, keys: seq<string>)
    ensures Resolve(tiers, keys).Overridden? <==> exists i :: 0 <= i < |keys| && PinnedInWorkspace(tiers, keys[i])
    ensures Resolve(tiers, keys).Overridden? ==> FirstPinned(tiers, keys, Resolve(tiers, keys).key)
    decreases |keys|
  {
    if keys != [] {
      var front := keys[..|keys| - 1];
      var key := keys[|keys| - 1];
      assert forall i :: 0 <= i < |front| ==> front[i] == keys[i];
      ResolveRefusesFirstPin(tiers, front);
      var r := Resolve(tiers, front);
      if r.Resolved? && PinnedInWorkspace(tiers, key) {
        assert Resolve(tiers, keys) == Overridden(key);
        assert keys[|keys| - 1] == key;
      }
    }
  }

  /** When no key is pinned, the check records every key, each with its global-else-default value. */
  lemma {:induction false} ResolveRecordsEffectiveValues(tiers: Tiers, keys: seq<string>)
    ensures Resolve(tiers, keys).Resolved? ==>
      forall k :: k in Resolve(tiers, keys).current.entries <==> k in keys
    ensures Resolve(tiers, keys).Resolved? ==>
      forall k :: k in Resolve(tiers, keys).current.entries ==>
        Resolve(tiers, keys).current.entries[k] == EffectiveValue(tiers, k)
    decreases |keys|
  {
    if keys != [] {
      var front := keys[..|keys| - 1];
      assert forall k :: k in keys <==> k in front || k == keys[|keys| - 1];
      ResolveRecordsEffectiveValues(tiers, front);
    }
  }

  /** The candidate matches the current options. */
  predicate Matches(candidate: Configuration, current: Configuration) {
    ShallowEqual(candidate.entries, current.entries)
  }

  /** `currentIndex` after the scan over the candidates. */
  function LastMatch(value: seq<Configuration>, current: Configuration): (k: int)
    ensures -1 <= k < |value|
    decreases |value|
  {
    if value == [] then -1
    else if Matches(value[|value| - 1], current) then |value| - 1
    else LastMatch(value[..|value| - 1], current)
  }

  /**
   * The scan has no `break`, so it yields the LAST matching index, or -1 when no
   * candidate matches.
   */
  lemma {:induction false} LastMatchIsLast(value: seq<Configuration>, current: Configuration)
    ensures LastMatch(value, current) >= 0 ==> Matches(value[LastMatch(value, current)], current)
    ensures forall j :: LastMatch(value, current) < j < |value| ==> !Matches(value[j], current)
    decreases |value|
  {
    if value != [] && !Matches(value[|value| - 1], current) {
      var front := value[..|value| - 1];
      assert forall i :: 0 <= i < |front| ==> front[i] == value[i];
      LastMatchIsLast(front, current);
    }
  }

  /**
   * `(toggleCache[id] + 1) % value.length` in JavaScript numbers: NaN when the
   * cached number is NaN or the list is empty, a valid index otherwise.
   */
  function NextIndex(cached: CachedIndex, n: nat): (r: CachedIndex)
    ensures r.Index? <==> cached.Index? && n > 0
    ensures r.Index? ==> r.i < n && r.i == (cached.i + 1) % n
  {
    match cached
    case NaN => NaN
    case Index(i) => if n == 0 then NaN else Index((i + 1) % n)
  }

  /** The writes of `Object.keys(c).forEach(key => update(key, c[key], true))`. */
  function Write(tiers: Tiers, c: Configuration): Tiers {
    WriteKeys(tiers, c.keys, c.entries)
  }

  /** The part of an invocation after the workspace check has passed. */
  function StepResolved(s: State, id: string, value: seq<Configuration>, current: Configuration): (State, Outcome) {
    if id !in s.cache then
      if |value| <= 0 then (s, EmptyList)
      else
        var next := (LastMatch(value, current) + 1) % |value|;
        (State(s.cache[id := Index(next)], Write(s.tiers, value[next])), Toggled(next))
    else
      match NextIndex(s.cache[id], |value|)
      case NaN => (State(s.cache[id := NaN], s.tiers), Crash)
      case Index(next) => (State(s.cache[id := Index(next)], Write(s.tiers, value[next])), Toggled(next))
  }

  /**
   * One invocation of the command. Every rejection leaves the state as it was;
   * a toggle records the chosen index for the id; the TypeError of the cached
   * branch leaves NaN in the cache and writes nothing.
   */
  function Step(s: State, args: Option<ToggleArguments>): (r: (State, Outcome))
    ensures r.1.InvalidArgs? || r.1.WorkspaceOverride? || r.1.EmptyList? ==> r.0 == s
    ensures r.1.InvalidArgs? <==> !ArgumentsPresent(args)
    ensures r.1.Toggled? ==>
      ArgumentsPresent(args) && r.1.next < |Candidates(args)| &&
      r.0.cache == s.cache[Id(args) := Index(r.1.next)]
    ensures r.1.Crash? ==>
      ArgumentsPresent(args) && Id(args) in s.cache && r.0 == State(s.cache[Id(args) := NaN], s.tiers)
  {
    if !ArgumentsPresent(args) then (s, InvalidArgs)
    else
      var id := Id(args);
      var value := Candidates(args);
      match Resolve(s.tiers, UnionKeys(value))
      case Overridden(key) => (s, WorkspaceOverride(key))
      case Resolved(current) => StepResolved(s, id, value, current)
  }
}
