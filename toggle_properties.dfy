/** What one or several invocations of the `toggle` command guarantee. */
module ToggleProperties {
  import opened Wrappers
  import opened Values
  import opened Settings
  import opened ShallowEquality
  import opened ToggleSpec

  /** Some key of some candidate has a workspace-level value. */
  predicate SomeKeyPinned(tiers: Tiers, value: seq<Configuration>) {
    exists i, k :: 0 <= i < |value| && k in value[i].entries && PinnedInWorkspace(tiers, k)
  }

  /** The options the handler compares the candidates with: every key of every candidate, global else default. */
  function CurrentOptions(tiers: Tiers, value: seq<Configuration>): map<string, Value> {
    map k | k in UnionKeys(value) :: EffectiveValue(tiers, k)
  }

  /** With no pinned key, the workspace check yields exactly CurrentOptions. */
  lemma {:induction false} ResolvedToCurrentOptions(tiers: Tiers, value: seq<Configuration>)
    requires !SomeKeyPinned(tiers, value)
    ensures Resolve(tiers, UnionKeys(value)).Resolved?
    ensures Resolve(tiers, UnionKeys(value)).current.entries == CurrentOptions(tiers, value)
  {
    var keys := UnionKeys(value);
    UnionKeysEffect(value);
    ResolveRefusesFirstPin(tiers, keys);
    ResolveRecordsEffectiveValues(tiers, keys);
    forall i | 0 <= i < |keys|
      ensures !PinnedInWorkspace(tiers, keys[i])
    {
      assert keys[i] in keys;
      var j :| 0 <= j < |value| && keys[i] in value[j].entries;
    }
    var r := Resolve(tiers, keys);
    var got, want := r.current.entries, CurrentOptions(tiers, value);
    assert got.Keys == want.Keys;
    forall k | k in got
      ensures got[k] == want[k]
    {
    }
  }

  /** A missing argument, id or list, or an empty id, is refused and changes nothing. */
  lemma MissingArgumentsRefused(s: State, args: Option<ToggleArguments>)
    requires args.None? || args.value.id.None? || args.value.id == Some("") || args.value.value.None?
    ensures Step(s, args) == (s, InvalidArgs)
  {
  }

  /**
   * A key pinned in the workspace refuses the toggle, cached or not: nothing is
   * written, the cache is unchanged, and the key named is the first pinned one
   * in the order `allOptions` holds them.
   */
  lemma {:induction false} WorkspacePinRefused(s: State, args: Option<ToggleArguments>)
    requires ArgumentsPresent(args) && SomeKeyPinned(s.tiers, Candidates(args))
    ensures Step(s, args).0 == s
    ensures Step(s, args).1.WorkspaceOverride?
    ensures FirstPinned(s.tiers, UnionKeys(Candidates(args)), Step(s, args).1.key)
  {
    var value := Candidates(args);
    var keys := UnionKeys(value);
    UnionKeysEffect(value);
    ResolveRefusesFirstPin(s.tiers, keys);
    var i, k :| 0 <= i < |value| && k in value[i].entries && PinnedInWorkspace(s.tiers, k);
    assert k in keys;
    var n :| 0 <= n < |keys| && keys[n] == k;
    var r := Resolve(s.tiers, keys);
    assert r.Overridden?;
    assert Step(s, args) == (s, WorkspaceOverride(r.key));
    var m :| 0 <= m < |keys| && keys[m] == r.key && PinnedInWorkspace(s.tiers, keys[m]) &&
      forall j :: 0 <= j < m ==> !PinnedInWorkspace(s.tiers, keys[j]);
    assert keys[m] == Step(s, args).1.key;
  }

  /** With no cache entry for the id, an empty list only warns and changes nothing. */
  lemma EmptyListWithoutCacheWarns(s: State, args: Option<ToggleArguments>)
    requires ArgumentsPresent(args) && Id(args) !in s.cache && Candidates(args) == []
    ensures Step(s, args) == (s, EmptyList)
  {
  }

  /**
   * The first toggle of an id: when k is the LAST candidate that shallow-equals
   * the current options over all candidates' keys, or -1 when none does, the
   * toggle picks k + 1, wrapping to 0.
   */
  lemma FirstToggleFollowsLastMatch(s: State, args: Option<ToggleArguments>, k: int)
    requires ArgumentsPresent(args) && Id(args) !in s.cache && |Candidates(args)| > 0 && -1 <= k < |Candidates(args)|
    requires !SomeKeyPinned(s.tiers, Candidates(args))
    requires k >= 0 ==> ShallowEqual(Candidates(args)[k].entries, CurrentOptions(s.tiers, Candidates(args)))
    requires forall j :: k < j < |Candidates(args)| ==>
      !ShallowEqual(Candidates(args)[j].entries, CurrentOptions(s.tiers, Candidates(args)))
    ensures Step(s, args).1 == Toggled((k + 1) % |Candidates(args)|)
  {
    var value := Candidates(args);
    var current := CurrentOptions(s.tiers, value);
    ResolvedToCurrentOptions(s.tiers, value);
    var resolved := Resolve(s.tiers, UnionKeys(value)).current;
    StepPassesCheck(s, args);
    UncachedStepOutcome(s, Id(args), value, resolved);
    var last := LastMatch(value, resolved);
    LastMatchIsLast(value, resolved);
    if last < k {
      assert Matches(value[k], resolved);
    }
  }

  /** No candidate matches the current options: the first toggle picks candidate 0. */
  lemma NoMatchPicksFirst(s: State, args: Option<ToggleArguments>)
    requires ArgumentsPresent(args) && Id(args) !in s.cache && |Candidates(args)| > 0
    requires !SomeKeyPinned(s.tiers, Candidates(args))
    requires forall j :: 0 <= j < |Candidates(args)| ==>
      !ShallowEqual(Candidates(args)[j].entries, CurrentOptions(s.tiers, Candidates(args)))
    ensures Step(s, args).1 == Toggled(0)
  {
    FirstToggleFollowsLastMatch(s, args, -1);
  }

  /** Once the workspace check passes, the rest of the invocation is StepResolved. */
  lemma StepPassesCheck(s: State, args: Option<ToggleArguments>)
    requires ArgumentsPresent(args) && Resolve(s.tiers, UnionKeys(Candidates(args))).Resolved?
    ensures Step(s, args) == StepResolved(s, Id(args), Candidates(args), Resolve(s.tiers, UnionKeys(Candidates(args))).current)
  {
  }

  lemma UncachedStepOutcome(s: State, id: string, value: seq<Configuration>, current: Configuration)
    requires id !in s.cache && |value| > 0
    ensures StepResolved(s, id, value, current).1 == Toggled((LastMatch(value, current) + 1) % |value|)
  {
  }

  /**
   * With a cache entry, the toggle moves one past the cached index modulo the
   * length of the list given now, which may differ from the list that set it.
   */
  lemma CachedToggleAdvances(s: State, args: Option<ToggleArguments>)
    requires ArgumentsPresent(args) && Id(args) in s.cache && s.cache[Id(args)].Index?
    requires |Candidates(args)| > 0 && !SomeKeyPinned(s.tiers, Candidates(args))
    ensures Step(s, args).1 == Toggled((s.cache[Id(args)].i + 1) % |Candidates(args)|)
    ensures Step(s, args).0.cache == s.cache[Id(args) := Index((s.cache[Id(args)].i + 1) % |Candidates(args)|)]
  {
    ResolvedToCurrentOptions(s.tiers, Candidates(args));
  }

  /**
   * With a cache entry, the current global and default values play no part:
   * two stores that agree on nothing but the absence of workspace values lead
   * to the same outcome and the same cache.
   */
  lemma CachedIgnoresCurrentSettings(s1: State, s2: State, args: Option<ToggleArguments>)
    requires ArgumentsPresent(args) && s1.cache == s2.cache && Id(args) in s1.cache
    requires !SomeKeyPinned(s1.tiers, Candidates(args)) && !SomeKeyPinned(s2.tiers, Candidates(args))
    ensures Step(s1, args).1 == Step(s2, args).1
    ensures Step(s1, args).0.cache == Step(s2, args).0.cache
  {
    ResolvedToCurrentOptions(s1.tiers, Candidates(args));
    ResolvedToCurrentOptions(s2.tiers, Candidates(args));
  }

  /**
   * A toggle to candidate n writes the global value of exactly n's keys, each
   * to its paired value; every other key, and the default and workspace tiers
   * of every key, stay as they were, as do the cache entries of other ids.
   */
  lemma ToggleWritesChosenCandidate(s: State, args: Option<ToggleArguments>, n: nat)
    requires Step(s, args).1 == Toggled(n)
    ensures ArgumentsPresent(args) && n < |Candidates(args)|
    ensures var c := Candidates(args)[n]; var t := Step(s, args).0.tiers;
      (forall k :: k in c.entries ==> Inspect(t, k) == Inspect(s.tiers, k).(globalValue := c.entries[k])) &&
      (forall k :: k !in c.entries ==> Inspect(t, k) == Inspect(s.tiers, k))
    ensures Id(args) in Step(s, args).0.cache && Step(s, args).0.cache[Id(args)] == Index(n)
    ensures forall other :: other != Id(args) ==>
      (other in Step(s, args).0.cache <==> other in s.cache) &&
      (other in s.cache ==> Step(s, args).0.cache[other] == s.cache[other])
  {
    var c := Candidates(args)[n];
    var t := Step(s, args).0.tiers;
    assert t == Write(s.tiers, c);
    WriteKeysEffect(s.tiers, c.keys, c.entries);
    forall k | k !in c.entries
      ensures Inspect(t, k) == Inspect(s.tiers, k)
    {
      assert k !in c.keys;
    }
  }

  /** No invocation changes a default or workspace value. */
  lemma {:induction false} OnlyGlobalTierWritten(s: State, args: Option<ToggleArguments>, key: string)
    ensures Inspect(Step(s, args).0.tiers, key).defaultValue == Inspect(s.tiers, key).defaultValue
    ensures Inspect(Step(s, args).0.tiers, key).workspaceValue == Inspect(s.tiers, key).workspaceValue
  {
    var r := Step(s, args);
    if r.1.Toggled? {
      ToggleWritesChosenCandidate(s, args, r.1.next);
    }
  }

  /**
   * With a cached NaN, every invocation that passes the checks throws again:
   * the id keeps NaN and no value is ever written for it.
   */
  lemma NaNIsPermanent(s: State, args: Option<ToggleArguments>)
    requires ArgumentsPresent(args) && Id(args) in s.cache && s.cache[Id(args)] == NaN
    requires !SomeKeyPinned(s.tiers, Candidates(args))
    ensures Step(s, args) == (s, Crash)
  {
    ResolvedToCurrentOptions(s.tiers, Candidates(args));
    assert s.cache[Id(args) := NaN] == s.cache;
  }

  /** A cached id toggled with an empty list stores NaN and throws before writing. */
  lemma CachedEmptyListCrashes(s: State, args: Option<ToggleArguments>)
    requires ArgumentsPresent(args) && Id(args) in s.cache && Candidates(args) == []
    ensures Step(s, args) == (State(s.cache[Id(args) := NaN], s.tiers), Crash)
  {
  }

  /** A cached step keeps the id cached at a valid index and pins no key. */
  lemma CachedStepStaysInCycle(s: State, args: Option<ToggleArguments>)
    requires ArgumentsPresent(args) && |Candidates(args)| > 0
    requires Id(args) in s.cache && s.cache[Id(args)].Index?
    requires !SomeKeyPinned(s.tiers, Candidates(args))
    ensures Id(args) in Step(s, args).0.cache
    ensures Step(s, args).0.cache[Id(args)] == Index((s.cache[Id(args)].i + 1) % |Candidates(args)|)
    ensures !SomeKeyPinned(Step(s, args).0.tiers, Candidates(args))
  {
    CachedToggleAdvances(s, args);
    var t := Step(s, args).0.tiers;
    if SomeKeyPinned(t, Candidates(args)) {
      var i, k :| 0 <= i < |Candidates(args)| && k in Candidates(args)[i].entries && PinnedInWorkspace(t, k);
      OnlyGlobalTierWritten(s, args, k);
      assert PinnedInWorkspace(s.tiers, k);
      assert false;
    }
  }

  /**
   * The state after n invocations with the same argument. The last invocation
   * is taken out into RepeatLast, so that unfolding either function exposes one
   * invocation at a time.
   */
  function Repeat(s: State, args: Option<ToggleArguments>, n: nat): State
    decreases n, 1
  {
    if n == 0 then s else RepeatLast(s, args, n)
  }

  /** The last of n > 0 invocations, applied to the state after the first n - 1. */
  function RepeatLast(s: State, args: Option<ToggleArguments>, n: nat): State
    requires n > 0
    decreases n, 0
  {
    Step(Repeat(s, args, n - 1), args).0
  }

  lemma {:induction false} MulAtLeast(d: nat, n: nat)
    requires d >= 1
    ensures d * n >= n
  {
    if d > 1 {
      MulAtLeast(d - 1, n);
      assert d * n == (d - 1) * n + n;
    }
  }

  lemma ModUnique(x: int, n: int, q: int, r: int)
    requires n > 0 && 0 <= r < n && x == q * n + r
    ensures x % n == r
  {
    var q', r' := x / n, x % n;
    assert x == q' * n + r';
    assert (q - q') * n == r' - r;
    if q > q' {
      MulAtLeast(q - q', n);
    } else if q < q' {
      MulAtLeast(q' - q, n);
    }
  }

  /** One step of the wrap, taken modulo n after each step or once at the end, lands on the same index. */
  lemma ModSuccessor(a: nat, n: nat)
    requires n > 0
    ensures (a % n + 1) % n == (a + 1) % n
  {
    var q, r := a / n, a % n;
    assert a == q * n + r;
    if r + 1 < n {
      ModUnique(a + 1, n, q, r + 1);
      ModUnique(r + 1, n, 0, r + 1);
    } else {
      assert a + 1 == (q + 1) * n + 0;
      ModUnique(a + 1, n, q + 1, 0);
      ModUnique(r + 1, n, 1, 0);
    }
  }

  /** One more invocation, from a cached index j, is one cached step. */
  lemma RepeatOnceMore(s: State, args: Option<ToggleArguments>, n: nat, j: nat)
    requires n > 0 && ArgumentsPresent(args) && |Candidates(args)| > 0
    requires Id(args) in Repeat(s, args, n - 1).cache && Repeat(s, args, n - 1).cache[Id(args)] == Index(j)
    requires !SomeKeyPinned(Repeat(s, args, n - 1).tiers, Candidates(args))
    ensures Id(args) in Repeat(s, args, n).cache
    ensures Repeat(s, args, n).cache[Id(args)] == Index((j + 1) % |Candidates(args)|)
    ensures !SomeKeyPinned(Repeat(s, args, n).tiers, Candidates(args))
  {
    CachedStepStaysInCycle(Repeat(s, args, n - 1), args);
  }

  /** Advancing by one after n - 1 steps, modulo N, is advancing by n. */
  lemma AdvanceByOne(i: nat, n: nat, total: nat)
    requires n > 0 && total > 0
    ensures ((i + (n - 1)) % total + 1) % total == (i + n) % total
  {
    ModSuccessor(i + (n - 1), total);
  }

  /**
   * Starting from a cached index i, n invocations with the same list of N
   * candidates leave the index at (i + n) mod N. For n > 0 the cached index may
   * be left over from a longer list; only n == 0 needs it to be below N.
   */
  lemma {:induction false} RepeatAdvances(s: State, args: Option<ToggleArguments>, n: nat)
    requires ArgumentsPresent(args) && |Candidates(args)| > 0
    requires Id(args) in s.cache && s.cache[Id(args)].Index?
    requires n > 0 || s.cache[Id(args)].i < |Candidates(args)|
    requires !SomeKeyPinned(s.tiers, Candidates(args))
    ensures Id(args) in Repeat(s, args, n).cache
    ensures Repeat(s, args, n).cache[Id(args)] == Index((s.cache[Id(args)].i + n) % |Candidates(args)|)
    ensures !SomeKeyPinned(Repeat(s, args, n).tiers, Candidates(args))
  {
    var i, total := s.cache[Id(args)].i, |Candidates(args)|;
    if n > 1 {
      RepeatAdvances(s, args, n - 1);
      RepeatOnceMore(s, args, n, (i + (n - 1)) % total);
      AdvanceByOne(i, n, total);
    } else if n == 1 {
      RepeatOnceMore(s, args, 1, i);
    } else {
      ModUnique(i, total, 0, i);
    }
  }

  /** N invocations with the same list of N candidates bring the cached index back to where it was. */
  lemma WrapAround(s: State, args: Option<ToggleArguments>)
    requires ArgumentsPresent(args) && |Candidates(args)| > 0
    requires Id(args) in s.cache && s.cache[Id(args)].Index? && s.cache[Id(args)].i < |Candidates(args)|
    requires !SomeKeyPinned(s.tiers, Candidates(args))
    ensures Id(args) in Repeat(s, args, |Candidates(args)|).cache
    ensures Repeat(s, args, |Candidates(args)|).cache[Id(args)] == s.cache[Id(args)]
  {
    var i, total := s.cache[Id(args)].i, |Candidates(args)|;
    RepeatAdvances(s, args, total);
    ModUnique(i + total, total, 1, i);
  }
}
