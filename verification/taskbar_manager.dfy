/**
 * The transitions of the taskbar manager, one function per Java method.
 *
 * Each takes the manager state (and, where the Java code consults foreign
 * global state, an `Env` snapshot) and returns the new state together with
 * the calls the method makes, in order.
 */
module TaskbarManager {
  import opened Wrappers
  import opened TaskbarModel

  /** The calls a newly built session receives: construction, `init`, the
      launcher controller if a launcher is stored, then a forced replay of
      the cached flags. */
  function SessionSetup(id: SessionId, dp: DeviceProfile, launcher: Option<LauncherId>, flags: bv32): seq<Event> {
    [Create(id, dp), Init(id)]
    + (if launcher.Some? then [SetUI(id, LauncherController(launcher.value))] else [])
    + [UpdateFlags(id, flags, true)]
  }

  /** The taskbar should exist iff the feature is on, the user is unlocked
      and the device profile has a taskbar. */
  predicate ShouldExist(m: Manager, env: Env) {
    env.taskbarFlagEnabled && m.userUnlocked && env.profile.isTaskbarPresent
  }

  /** What one rebuild must do, stated as a relation between the state
      before, the environment, and the result: the old session (if any) is
      destroyed first; then either a session with a fresh id is set up, or
      the compositor is told "not visible, not stashed" and none is kept.
      The launcher, the cached flags, the unlock flag and the listener
      registration are untouched. */
  ghost predicate IsRebuild(m: Manager, env: Env, r: Step) {
    var teardown := if m.session.Some? then [Destroy(m.session.value)] else [];
    && r.m.launcher == m.launcher
    && r.m.sysuiStateFlags == m.sysuiStateFlags
    && r.m.userUnlocked == m.userUnlocked
    && r.m.registered == m.registered
    && (ShouldExist(m, env) ==>
          && r.m.session == Some(m.nextId)
          && r.m.nextId == m.nextId + 1
          && r.events == teardown + SessionSetup(m.nextId, env.profile, m.launcher, m.sysuiStateFlags))
    && (!ShouldExist(m, env) ==>
          && r.m.session.None?
          && r.m.nextId == m.nextId
          && r.events == teardown + [NotifyStatus(false, false)])
  }

  /** The state once the fields are initialised and both listeners are
      registered, before the constructor's rebuild. */
  function Initial(): Manager {
    Manager(None, None, 0, false, true, 0)
  }

  /** The constructor: register listeners, then rebuild once. Since the user
      cannot be unlocked yet, no session is created. */
  function New(env: Env): (r: Step)
    ensures r.m.session.None? && !r.m.userUnlocked && r.m.registered
    ensures r.m.launcher.None? && r.m.sysuiStateFlags == 0
    ensures r.events == [NotifyStatus(false, false)]
    ensures Valid(r.m)
  {
    RecreateTaskbar(Initial(), env)
  }

  /** Any navigation-mode change rebuilds, whatever the new mode. */
  function OnNavigationModeChanged(m: Manager, env: Env, mode: NavigationMode): (r: Step)
    ensures IsRebuild(m, env, r)
  {
    RecreateTaskbar(m, env)
  }

  /** A display change rebuilds iff it touches the active screen, the
      density or the supported bounds; otherwise nothing happens. */
  function OnDisplayInfoChanged(m: Manager, env: Env, flags: bv32): (r: Step)
    ensures flags & ChangeFlags != 0 ==> IsRebuild(m, env, r)
    ensures flags & ChangeFlags == 0 ==> r.m == m && r.events == []
  {
    if flags & ChangeFlags != 0 then RecreateTaskbar(m, env) else Step(m, [])
  }

  /** Destroys the current session, if any, and forgets it. */
  function DestroyExistingTaskbar(m: Manager): (r: Step)
    ensures r.m.session.None?
    ensures r.m.(session := m.session) == m
    ensures m.session.None? ==> r.events == []
    ensures m.session.Some? ==> r.events == [Destroy(m.session.value)]
  {
    match m.session
    case None => Step(m, [])
    case Some(id) => Step(m.(session := None), [Destroy(id)])
  }

  /** Records the unlock and rebuilds exactly once. */
  function OnUserUnlocked(m: Manager, env: Env): (r: Step)
    ensures r.m.userUnlocked
    ensures IsRebuild(m.(userUnlocked := true), env, r)
  {
    RecreateTaskbar(m.(userUnlocked := true), env)
  }

  /** Stores the launcher, replacing any other, and attaches a controller for
      it to the current session if there is one. */
  function SetLauncher(m: Manager, launcher: LauncherId): (r: Step)
    ensures r.m == m.(launcher := Some(launcher))
    ensures m.session.Some? ==> r.events == [SetUI(m.session.value, LauncherController(launcher))]
    ensures m.session.None? ==> r.events == []
  {
    var m' := m.(launcher := Some(launcher));
    match m.session
    case None => Step(m', [])
    case Some(id) => Step(m', [SetUI(id, LauncherController(launcher))])
  }

  /** Forgets the launcher only if it is the one stored; the current session,
      if any, then falls back to the default controller. */
  function ClearLauncher(m: Manager, launcher: LauncherId): (r: Step)
    ensures m.launcher != Some(launcher) ==> r.m == m && r.events == []
    ensures m.launcher == Some(launcher) ==> r.m == m.(launcher := None)
    ensures m.launcher == Some(launcher) && m.session.Some? ==>
              r.events == [SetUI(m.session.value, DefaultController)]
    ensures m.session.None? ==> r.events == []
  {
    if m.launcher != Some(launcher) then Step(m, [])
    else
      var m' := m.(launcher := None);
      match m.session
      case None => Step(m', [])
      case Some(id) => Step(m', [SetUI(id, DefaultController)])
  }

  /** The single rebuild path: destroy, decide, then either set up a new
      session or report that no taskbar is shown. */
  function RecreateTaskbar(m: Manager, env: Env): (r: Step)
    ensures IsRebuild(m, env, r)
    ensures Valid(r.m)
  {
    var d := DestroyExistingTaskbar(m);
    var dp := if d.m.userUnlocked then Some(env.profile) else None;
    var enabled := env.taskbarFlagEnabled && dp.Some? && dp.value.isTaskbarPresent;
    if !enabled then
      Step(d.m, d.events + [NotifyStatus(false, false)])
    else
      var b := BuildTaskbar(d.m, dp.value);
      Step(b.m, d.events + b.events)
  }

  /** Constructs a session with the next fresh id, initialises it, attaches
      the stored launcher's controller and replays the cached flags with a
      forced update. */
  function BuildTaskbar(m: Manager, dp: DeviceProfile): (r: Step)
    ensures r.m == m.(session := Some(m.nextId), nextId := m.nextId + 1)
    ensures r.events == SessionSetup(m.nextId, dp, m.launcher, m.sysuiStateFlags)
  {
    var id := m.nextId;
    var created := m.(session := Some(id), nextId := id + 1);
    var attached :=
      match created.launcher
      case None => Step(created, [])
      case Some(l) => Step(created, [SetUI(id, LauncherController(l))]);
    var flags := OnSysuiFlagsChangedInternal(attached.m, attached.m.sysuiStateFlags, true);
    Step(flags.m, [Create(id, dp), Init(id)] + attached.events + flags.events)
  }

  /** Caches the flags and pushes them to the current session, if any. */
  function OnSysuiFlagsChangedInternal(m: Manager, flags: bv32, forceUpdate: bool): (r: Step)
    ensures r.m == m.(sysuiStateFlags := flags)
    ensures m.session.Some? ==> r.events == [UpdateFlags(m.session.value, flags, forceUpdate)]
    ensures m.session.None? ==> r.events == []
  {
    var m' := m.(sysuiStateFlags := flags);
    match m.session
    case None => Step(m', [])
    case Some(id) => Step(m', [UpdateFlags(id, flags, forceUpdate)])
  }

  /** A flag update from system UI: cached, and forwarded without forcing. */
  function OnSystemUiFlagsChanged(m: Manager, flags: bv32): (r: Step)
    ensures r.m == m.(sysuiStateFlags := flags)
    ensures m.session.Some? ==> r.events == [UpdateFlags(m.session.value, flags, false)]
    ensures m.session.None? ==> r.events == []
  {
    OnSysuiFlagsChangedInternal(m, flags, false)
  }

  function OnRotationProposal(m: Manager, rotation: int32, isValid: bool): (r: Step)
    ensures r.m == m
    ensures m.session.Some? ==> r.events == [ForwardRotationProposal(m.session.value, rotation, isValid)]
    ensures m.session.None? ==> r.events == []
  {
    match m.session
    case None => Step(m, [])
    case Some(id) => Step(m, [ForwardRotationProposal(id, rotation, isValid)])
  }

  function DisableNavBarElements(m: Manager, displayId: int32, state1: int32, state2: int32, animate: bool): (r: Step)
    ensures r.m == m
    ensures m.session.Some? ==>
              r.events == [ForwardDisableNavBarElements(m.session.value, displayId, state1, state2, animate)]
    ensures m.session.None? ==> r.events == []
  {
    match m.session
    case None => Step(m, [])
    case Some(id) => Step(m, [ForwardDisableNavBarElements(id, displayId, state1, state2, animate)])
  }

  function OnSystemBarAttributesChanged(m: Manager, displayId: int32, behavior: int32): (r: Step)
    ensures r.m == m
    ensures m.session.Some? ==> r.events == [ForwardSystemBarAttributes(m.session.value, displayId, behavior)]
    ensures m.session.None? ==> r.events == []
  {
    match m.session
    case None => Step(m, [])
    case Some(id) => Step(m, [ForwardSystemBarAttributes(id, displayId, behavior)])
  }

  /** Tears the manager down: destroys the session and unregisters both
      listeners. Everything else is left as it was. */
  function DestroyManager(m: Manager): (r: Step)
    ensures r.m.session.None? && !r.m.registered
    ensures r.m.(session := m.session, registered := m.registered) == m
    ensures r.events == DestroyExistingTaskbar(m).events
  {
    var d := DestroyExistingTaskbar(m);
    Step(d.m.(registered := false), d.events)
  }
}
