/**
 * Concrete situations the manager is designed for, each proved from the
 * transition contracts.
 */
module TaskbarScenarios {
  import opened Wrappers
  import opened TaskbarModel
  import opened TaskbarManager

  /** The display filter watches exactly the active-screen, density and
      supported-bounds bits. */
  lemma DisplayFilterBits(flags: bv32)
    ensures flags & ChangeFlags != 0 <==>
      flags & ChangeActiveScreen != 0 || flags & ChangeDensity != 0 || flags & ChangeSupportedBounds != 0
  {
  }

  /** A rotation-only display change is ignored: no rebuild, no call. */
  lemma RotationChangeIgnored(m: Manager, env: Env)
    ensures OnDisplayInfoChanged(m, env, ChangeRotation) == Step(m, [])
  {
  }

  /** Unlocked but with the feature disabled: the old session is destroyed,
      none is created, and the compositor hears "not visible". */
  lemma FeatureDisabledShowsNothing(m: Manager, env: Env)
    requires !env.taskbarFlagEnabled
    ensures var r := OnUserUnlocked(m, env);
      && r.m.session.None?
      && r.events[|r.events| - 1] == NotifyStatus(false, false)
      && forall k :: 0 <= k < |r.events| ==> !r.events[k].Create?
  {
  }

  /** With the feature on and a taskbar profile, the first unlock creates one
      session and a second unlock performs exactly one more destroy and
      create. */
  lemma UnlockTwice(env: Env)
    requires env.taskbarFlagEnabled && env.profile.isTaskbarPresent
    ensures var s0 := New(env);
      var s1 := OnUserUnlocked(s0.m, env);
      var s2 := OnUserUnlocked(s1.m, env);
      && s1.events == [Create(0, env.profile), Init(0), UpdateFlags(0, 0, true)]
      && s2.events == [Destroy(0), Create(1, env.profile), Init(1), UpdateFlags(1, 0, true)]
      && s2.m.session == Some(1)
  {
  }

  /** A launcher set while no session exists is attached by the next rebuild
      that creates one. */
  lemma LauncherAttachDeferred(m: Manager, env: Env, l: LauncherId)
    requires m.session.None?
    requires ShouldExist(m, env)
    ensures var s := SetLauncher(m, l);
      var r := RecreateTaskbar(s.m, env);
      && s.events == []
      && r.events == [Create(m.nextId, env.profile), Init(m.nextId),
                      SetUI(m.nextId, LauncherController(l)), UpdateFlags(m.nextId, m.sysuiStateFlags, true)]
  {
  }

  /** A session exists and a launcher is stored; a navigation-mode change
      replaces the session and re-attaches the launcher to the new one. */
  lemma NavigationChangeReattachesLauncher(m: Manager, env: Env, l: LauncherId, mode: NavigationMode)
    requires m.session.Some? && m.launcher == Some(l)
    requires ShouldExist(m, env)
    ensures var r := OnNavigationModeChanged(m, env, mode);
      r.events == [Destroy(m.session.value), Create(m.nextId, env.profile), Init(m.nextId),
                   SetUI(m.nextId, LauncherController(l)), UpdateFlags(m.nextId, m.sysuiStateFlags, true)]
  {
  }

  /** A stale clear (another launcher than the stored one) changes nothing,
      so a later rebuild still attaches the stored launcher. */
  lemma StaleClearKeepsLauncher(m: Manager, env: Env, stored: LauncherId, stale: LauncherId)
    requires m.launcher == Some(stored) && stale != stored
    requires ShouldExist(m, env)
    ensures var c := ClearLauncher(m, stale);
      var r := RecreateTaskbar(c.m, env);
      && c.events == []
      && SetUI(m.nextId, LauncherController(stored)) in r.events
  {
  }

  /** A launcher replaced by another is not cleared by its own late clear:
      the identity check keeps the newer launcher stored. */
  lemma LateClearAfterReplace(m: Manager, first: LauncherId, second: LauncherId)
    requires first != second
    ensures var s1 := SetLauncher(m, first);
      var s2 := SetLauncher(s1.m, second);
      var c := ClearLauncher(s2.m, first);
      && c.m.launcher == Some(second)
      && c.events == []
  {
  }
}
