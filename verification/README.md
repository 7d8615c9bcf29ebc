# Taskbar lifecycle manager

A Dafny model of `TaskbarManager`, the Launcher3 quickstep class that owns
the taskbar's lifecycle. The manager holds at most one taskbar session (a
`TaskbarActivityContext`), the launcher that acts as the taskbar's UI
callback, the last system UI state flags reported by system UI, and whether
the user has unlocked. Every external signal that can invalidate the
taskbar (navigation-mode change, a relevant display change, the unlock)
goes through one rebuild path, `recreateTaskbar`: destroy the current
session, decide whether a taskbar should exist (feature flag on, user
unlocked, device profile has a taskbar), and either build, initialise and
resynchronise a new session or tell system UI that no taskbar is visible.

The model is functional. `TaskbarModel.Manager` is the manager's fields at
one instant; each Java method is a pure function from a state (and an
`Env`, the answers of the feature flag and the device-profile store at that
moment) to a `Step`: the new state plus the sequence of calls the method
makes (`Create`, `Init`, `SetUI`, `UpdateFlags`, the three forwarded
notifications, `Destroy`, and `NotifyStatus` to system UI). Sessions are
abstract ids taken from a counter in the state, so a new session is always
a new id.

Files:
- `wrappers.dfy`: `Option`, for Java references that may be null.
- `taskbar_model.dfy`: the state, environment, events and constants.
- `taskbar_manager.dfy`: one transition per Java method, plus `IsRebuild`,
  a declarative description of what one rebuild must do.
- `session_protocol.dfy`: the session discipline over traces, independent
  of the manager. A tracker replays a trace and admits an event only when
  it is addressed to the live session (the system UI notification: only
  when none is live); `Create` needs no live session and an unused id.
- `taskbar_signals.dfy`: the manager driven by a sequence of signals, and
  the properties of every run.
- `taskbar_scenarios.dfy`: concrete situations (unlock twice, a stale
  launcher clear, a deferred launcher attach, ...).

A rebuild attaches a controller only when a launcher is stored; the code
never attaches the default controller during a rebuild. The constructor's
rebuild can never create a session, because the user is not yet unlocked.

## Model

| member | source | states |
|---|---|---|
| TaskbarManager.New | quickstep/src/com/android/launcher3/taskbar/TaskbarManager.java:64-77 | construction registers both listeners and rebuilds once; since the user is not yet unlocked no session exists afterwards, the cached flags are 0, no launcher is stored, and the only call is the "not visible, not stashed" notification |
| TaskbarManager.OnNavigationModeChanged | quickstep/src/com/android/launcher3/taskbar/TaskbarManager.java:79-82 | any navigation-mode change, whatever the mode, performs one full rebuild as described by `IsRebuild` |
| TaskbarManager.OnDisplayInfoChanged | quickstep/src/com/android/launcher3/taskbar/TaskbarManager.java:84-89 | a display change rebuilds iff its flags meet active-screen, density or supported-bounds; otherwise the state, including the session identity, is unchanged and no call is made |
| TaskbarManager.DestroyExistingTaskbar | quickstep/src/com/android/launcher3/taskbar/TaskbarManager.java:91-96 | afterwards no session is held; a held session receives exactly one `Destroy`, none is sent when there is no session, and no other field changes |
| TaskbarManager.OnUserUnlocked | quickstep/src/com/android/launcher3/taskbar/TaskbarManager.java:101-104 | the unlock flag becomes true and exactly one rebuild follows, evaluated with the user unlocked |
| TaskbarManager.SetLauncher | quickstep/src/com/android/launcher3/taskbar/TaskbarManager.java:109-115 | the stored launcher is overwritten; a controller for it is attached at once iff a session exists; nothing else changes |
| TaskbarManager.ClearLauncher | quickstep/src/com/android/launcher3/taskbar/TaskbarManager.java:120-127 | a launcher other than the stored one is a no-op; the stored one is forgotten, and the default controller is attached iff a session exists |
| TaskbarManager.RecreateTaskbar | quickstep/src/com/android/launcher3/taskbar/TaskbarManager.java:129-152 | destroy first; then a session exists iff feature on, unlocked and profile has a taskbar; a new session gets the fresh id and the calls construct, init, attach (only if a launcher is stored), forced flag replay, in that order; otherwise only "not visible, not stashed" follows the destroy; launcher, cache, unlock flag and registration are untouched; the id invariant is kept |
| TaskbarManager.BuildTaskbar | quickstep/src/com/android/launcher3/taskbar/TaskbarManager.java:144-151 | the new session takes the next fresh id, is built from the device profile, and receives init, the stored launcher's controller if any, and the cached flags with forced update |
| TaskbarManager.OnSysuiFlagsChangedInternal | quickstep/src/com/android/launcher3/taskbar/TaskbarManager.java:158-163 | the cache always becomes the given flags; they are pushed with the given force bit iff a session exists; nothing else changes |
| TaskbarManager.OnSystemUiFlagsChanged | quickstep/src/com/android/launcher3/taskbar/TaskbarManager.java:154-156 | the cache becomes the flags, which are forwarded unforced iff a session exists; nothing else changes |
| TaskbarManager.OnRotationProposal | quickstep/src/com/android/launcher3/taskbar/TaskbarManager.java:165-169 | forwarded unchanged to the session if one exists, dropped otherwise; the state is unchanged |
| TaskbarManager.DisableNavBarElements | quickstep/src/com/android/launcher3/taskbar/TaskbarManager.java:171-175 | forwarded unchanged to the session if one exists, dropped otherwise; the state is unchanged |
| TaskbarManager.OnSystemBarAttributesChanged | quickstep/src/com/android/launcher3/taskbar/TaskbarManager.java:177-181 | forwarded unchanged to the session if one exists, dropped otherwise; the state is unchanged |
| TaskbarManager.DestroyManager | quickstep/src/com/android/launcher3/taskbar/TaskbarManager.java:186-190 | the session is destroyed as by `DestroyExistingTaskbar`, the listeners are unregistered, and nothing else changes |
| TaskbarSignals.Dispatch | quickstep/src/com/android/launcher3/taskbar/TaskbarManager.java:79-190 | one signal keeps the id invariant, never moves the counter back, never re-locks the user, never re-registers listeners, and once unregistered a display or navigation-mode callback has no effect |
| TaskbarSignals.Run | quickstep/src/com/android/launcher3/taskbar/TaskbarManager.java:79-190 | along any run the id invariant holds, the counter only grows, the unlock flag is monotone and a destroyed manager stays unregistered |
| TaskbarSignals.RebuildConforms | quickstep/src/com/android/launcher3/taskbar/TaskbarManager.java:129-152 | the calls of a rebuild obey the session discipline: destroy the old session, then either build one session with an unused id or notify with none live |
| TaskbarSignals.DispatchConforms | quickstep/src/com/android/launcher3/taskbar/TaskbarManager.java:79-190 | the calls of every entry point obey the session discipline and leave the tracker exactly at the manager's new session and counter |
| TaskbarSignals.RunConforms | quickstep/src/com/android/launcher3/taskbar/TaskbarManager.java:91-152 | every run from a valid state obeys the session discipline: at most one live session, every call addressed to it |
| TaskbarSignals.DestroyedSessionNeverAddressed | quickstep/src/com/android/launcher3/taskbar/TaskbarManager.java:91-96 | in any run, after a session's `Destroy` no later call is addressed to it and its id is never reused |
| TaskbarSignals.PreviousSessionDestroyedFirst | quickstep/src/com/android/launcher3/taskbar/TaskbarManager.java:129-146 | in any run, between two session constructions the first session is destroyed |
| TaskbarSignals.SessionIdUnused | quickstep/src/com/android/launcher3/taskbar/TaskbarManager.java:144-145 | in any run, every constructed session, including the last, has an id not in use before the run |
| TaskbarSignals.SessionsAreFresh | quickstep/src/com/android/launcher3/taskbar/TaskbarManager.java:144-145 | in any run, constructed sessions have strictly increasing ids, none in use before the run |
| TaskbarSignals.DispatchWhileLocked | quickstep/src/com/android/launcher3/taskbar/TaskbarManager.java:132-142 | while locked with no session, any signal but the unlock keeps the user locked and builds nothing |
| TaskbarSignals.NoUnlockNoSession | quickstep/src/com/android/launcher3/taskbar/TaskbarManager.java:132-142 | a run without an unlock, from a locked state with no session, constructs no session and ends with none |
| TaskbarSignals.NeverUnlockedNeverShown | quickstep/src/com/android/launcher3/taskbar/TaskbarManager.java:64-77 | from construction, without an unlock no session is ever built |
| TaskbarSignals.RebuildShape | quickstep/src/com/android/launcher3/taskbar/TaskbarManager.java:144-151 | in a rebuild every flag push is a forced replay of the cache, every attached controller is the stored launcher's, and `init` directly follows construction |
| TaskbarSignals.RebuildDelivers | quickstep/src/com/android/launcher3/taskbar/TaskbarManager.java:144-151 | a rebuild that builds a session later pushes the cached flags to it with forced update and, when a launcher is stored, attaches that launcher's controller to it |
| TaskbarSignals.DispatchDelivers | quickstep/src/com/android/launcher3/taskbar/TaskbarManager.java:79-190 | the same for any one signal: every session it builds receives the cached flags forced and the stored launcher's controller |
| TaskbarSignals.DispatchShape | quickstep/src/com/android/launcher3/taskbar/TaskbarManager.java:144-163 | the same three facts for any one signal, given that it is not a flag update (first) or a launcher change (second) |
| TaskbarSignals.DispatchKeepsFlags | quickstep/src/com/android/launcher3/taskbar/TaskbarManager.java:154-163 | a signal other than a flag update keeps the cache and only replays it |
| TaskbarSignals.CachedFlagsSurvive | quickstep/src/com/android/launcher3/taskbar/TaskbarManager.java:151-163 | along a run without flag updates the cache is unchanged, every session built later receives exactly it with forced update, and no other flag value is pushed |
| TaskbarSignals.LastFlagsReplayed | quickstep/src/com/android/launcher3/taskbar/TaskbarManager.java:151-159 | after a flag update, every session built by later rebuilds receives those flags with forced update, and no other value is pushed |
| TaskbarSignals.DispatchKeepsLauncher | quickstep/src/com/android/launcher3/taskbar/TaskbarManager.java:109-127 | a signal other than a launcher change keeps the stored launcher and attaches only its controller |
| TaskbarSignals.LauncherSurvivesRebuilds | quickstep/src/com/android/launcher3/taskbar/TaskbarManager.java:147-150 | along a run without launcher changes the launcher stays stored, every session built later gets its controller, and no other controller is attached; with none stored no controller is attached |
| TaskbarSignals.RunInitsAfterCreate | quickstep/src/com/android/launcher3/taskbar/TaskbarManager.java:144-146 | in any run each construction is immediately followed by `init` of the same session |
| TaskbarScenarios.DisplayFilterBits | quickstep/src/com/android/launcher3/taskbar/TaskbarManager.java:61-62 | the watched mask meets a change set iff the set has the active-screen, density or supported-bounds bit |
| TaskbarScenarios.RotationChangeIgnored | quickstep/src/com/android/launcher3/taskbar/TaskbarManager.java:84-89 | a rotation-only display change leaves the state as is and makes no call |
| TaskbarScenarios.FeatureDisabledShowsNothing | quickstep/src/com/android/launcher3/taskbar/TaskbarManager.java:135-141 | unlock with the feature off builds no session and ends with "not visible, not stashed" |
| TaskbarScenarios.UnlockTwice | quickstep/src/com/android/launcher3/taskbar/TaskbarManager.java:101-104 | with the feature on and a taskbar profile, the first unlock builds session 0 and a second destroys it and builds session 1, each with init and forced replay of the cache |
| TaskbarScenarios.LauncherAttachDeferred | quickstep/src/com/android/launcher3/taskbar/TaskbarManager.java:109-115 | a launcher set with no session makes no call and is attached by the next rebuild that builds a session |
| TaskbarScenarios.NavigationChangeReattachesLauncher | quickstep/src/com/android/launcher3/taskbar/TaskbarManager.java:147-150 | a navigation-mode change replaces the session and re-attaches the stored launcher to the new one |
| TaskbarScenarios.LateClearAfterReplace | quickstep/src/com/android/launcher3/taskbar/TaskbarManager.java:109-127 | after one launcher is replaced by another, the first one's late clear makes no call and leaves the second stored |
| TaskbarScenarios.StaleClearKeepsLauncher | quickstep/src/com/android/launcher3/taskbar/TaskbarManager.java:120-127 | clearing with a launcher other than the stored one makes no call and the next rebuild still attaches the stored one |

## Left out

- Window-context creation, the default-display lookup and the navigation-button controller (lines 66-72): platform plumbing with no effect on the lifecycle decisions.
- Listener registration with the display controller and the navigation-mode source: modelled only as the `registered` flag, set by construction and cleared by destroy; `TaskbarSignals.Dispatch` drops listener callbacks once it is clear.
- The device-profile store, `dp.copy`, the taskbar feature flag and the system UI proxy singleton: foreign global state, modelled as the `Env` parameter given with each signal and as the `NotifyStatus` event; the profile copy is the profile value itself.
- The internals of the taskbar session and of the launcher UI controller (rendering, what a forced update does, how a controller swap detaches the old one): sessions are abstract ids and controllers are `DefaultController` or `LauncherController(id)`.
- Threading: the code runs on the main thread without locks, so all calls are sequential.
- The bit values of the display-change constants: the display controller is not part of this model; the values used (1, 2, 4, 8) are assumptions, and only their distinctness matters.
- The navigation mode's value: the code ignores it, and so does the model.
- A second call to destroy: the code does not guard it; in the model it is harmless (no session is left to destroy).
