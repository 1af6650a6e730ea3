/** Concrete runs of the command on a two-candidate "theme" toggle. */
module ToggleScenarios {
  import opened Wrappers
  import opened Values
  import opened Settings
  import opened ShallowEquality
  import opened ToggleSpec
  import opened ToggleProperties

  function Theme(name: string): Configuration {
    Object(["theme"], map["theme" := Str(name)])
  }

  function ThemeArgs(): Option<ToggleArguments> {
    Some(ToggleArguments(Some("theme"), Some([Theme("dark"), Theme("light")])))
  }

  function GlobalTheme(name: string): Tiers {
    map["theme" := Inspection(Undefined, Str(name), Undefined)]
  }

  /** No cache entry and the global theme "dark": the scan finds "dark" and the toggle picks 1. */
  lemma FirstToggleFromDarkPicksLight()
    ensures Step(State(map[], GlobalTheme("dark")), ThemeArgs()).1 == Toggled(1)
  {
    var s, args := State(map[], GlobalTheme("dark")), ThemeArgs();
    var value := Candidates(args);
    assert UnionKeys(value) == ["theme"];
    assert CurrentOptions(s.tiers, value) == map["theme" := Str("dark")];
    assert !SomeKeyPinned(s.tiers, value);
    assert !ShallowEqual(value[1].entries, CurrentOptions(s.tiers, value)) by {
      PrimitiveKeyMustMatch(value[1].entries, CurrentOptions(s.tiers, value), "theme");
    }
    FirstToggleFollowsLastMatch(s, args, 0);
  }

  /** No cache entry and the global theme "dark": the toggle writes "light" and caches 1. */
  lemma FirstToggleFromDark()
    ensures Step(State(map[], GlobalTheme("dark")), ThemeArgs()) ==
      (State(map["theme" := Index(1)], GlobalTheme("light")), Toggled(1))
  {
    var s, args := State(map[], GlobalTheme("dark")), ThemeArgs();
    FirstToggleFromDarkPicksLight();
    ToggleWritesChosenCandidate(s, args, 1);
    assert Step(s, args).0.tiers == GlobalTheme("light");
  }

  /**
   * Toggled again straight away, the cached 1 moves to 0 and "dark" is written,
   * without looking at the current theme.
   */
  lemma SecondToggleUsesCache(current: string)
    ensures Step(State(map["theme" := Index(1)], GlobalTheme(current)), ThemeArgs()) ==
      (State(map["theme" := Index(0)], GlobalTheme("dark")), Toggled(0))
  {
    var s, args := State(map["theme" := Index(1)], GlobalTheme(current)), ThemeArgs();
    var value := Candidates(args);
    assert UnionKeys(value) == ["theme"];
    assert !SomeKeyPinned(s.tiers, value);
    CachedToggleAdvances(s, args);
    ToggleWritesChosenCandidate(s, args, 0);
    assert Step(s, args).0.tiers == GlobalTheme("dark");
    assert Step(s, args).0.cache == map["theme" := Index(0)];
  }

  /** An empty list with no cache entry only warns. */
  lemma EmptyListWarns(tiers: Tiers)
    ensures Step(State(map[], tiers), Some(ToggleArguments(Some("theme"), Some([])))) ==
      (State(map[], tiers), EmptyList)
  {
  }

  /** A theme pinned in the workspace is refused by name, with nothing changed. */
  lemma WorkspaceThemeRefused(cache: map<string, CachedIndex>)
    ensures var s := State(cache, map["theme" := Inspection(Undefined, Undefined, Str("dark"))]);
      Step(s, ThemeArgs()) == (s, WorkspaceOverride("theme"))
  {
    var s := State(cache, map["theme" := Inspection(Undefined, Undefined, Str("dark"))]);
    var value := Candidates(ThemeArgs());
    assert "theme" in value[0].entries && PinnedInWorkspace(s.tiers, "theme");
    assert SomeKeyPinned(s.tiers, value);
    WorkspacePinRefused(s, ThemeArgs());
    assert UnionKeys(value) == ["theme"];
  }
}
