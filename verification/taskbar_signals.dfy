/**
 * The manager driven by a sequence of signals, and the properties that hold
 * of every such run: the session discipline, the fate of the unlock flag,
 * the cached flags and the stored launcher across rebuilds.
 *
 * Every signal arrives with the environment snapshot that the foreign
 * global state would give at that moment. All calls are sequential.
 */
module TaskbarSignals {
  import opened Wrappers
  import opened TaskbarModel
  import opened SessionProtocol
  import TaskbarManager

  /** One inbound call on the manager. The first two arrive through the
      display and navigation-mode listeners. */
  datatype Signal =
    | NavigationModeChanged(mode: NavigationMode)
    | DisplayInfoChanged(changeFlags: bv32)
    | UserUnlocked
    | SetLauncher(launcher: LauncherId)
    | ClearLauncher(launcher: LauncherId)
    | SystemUiFlagsChanged(flags: bv32)
    | RotationProposal(rotation: int32, isValid: bool)
    | DisableNavBarElements(displayId: int32, state1: int32, state2: int32, animate: bool)
    | SystemBarAttributesChanged(displayId: int32, behavior: int32)
    | DestroyManager

  predicate IsListenerCallback(s: Signal) {
    s.NavigationModeChanged? || s.DisplayInfoChanged?
  }

  datatype Input = Input(signal: Signal, env: Env)

  /** The tracker state a manager state corresponds to. */
  function Abs(m: Manager): Tracker {
    Tracker(m.session, m.nextId)
  }

  /** Delivers one signal. Listener callbacks reach the manager only while
      its listeners are registered. */
  function Dispatch(m: Manager, input: Input): (r: Step)
    ensures Valid(m) ==> Valid(r.m)
    ensures m.nextId <= r.m.nextId
    ensures m.userUnlocked ==> r.m.userUnlocked
    ensures !m.registered ==> !r.m.registered
    ensures !m.registered && IsListenerCallback(input.signal) ==> r.m == m && r.events == []
  {
    var env := input.env;
    match input.signal
    case NavigationModeChanged(mode) =>
      if m.registered then TaskbarManager.OnNavigationModeChanged(m, env, mode) else Step(m, [])
    case DisplayInfoChanged(flags) =>
      if m.registered then TaskbarManager.OnDisplayInfoChanged(m, env, flags) else Step(m, [])
    case UserUnlocked => TaskbarManager.OnUserUnlocked(m, env)
    case SetLauncher(l) => TaskbarManager.SetLauncher(m, l)
    case ClearLauncher(l) => TaskbarManager.ClearLauncher(m, l)
    case SystemUiFlagsChanged(f) => TaskbarManager.OnSystemUiFlagsChanged(m, f)
    case RotationProposal(rotation, isValid) => TaskbarManager.OnRotationProposal(m, rotation, isValid)
    case DisableNavBarElements(displayId, state1, state2, animate) =>
      TaskbarManager.DisableNavBarElements(m, displayId, state1, state2, animate)
    case SystemBarAttributesChanged(displayId, behavior) =>
      TaskbarManager.OnSystemBarAttributesChanged(m, displayId, behavior)
    case DestroyManager => TaskbarManager.DestroyManager(m)
  }

  /** Delivers the signals in order and concatenates the calls made. */
  function Run(m: Manager, inputs: seq<Input>): (r: Step)
    ensures Valid(m) ==> Valid(r.m)
    ensures m.nextId <= r.m.nextId
    ensures m.userUnlocked ==> r.m.userUnlocked
    ensures !m.registered ==> !r.m.registered
    decreases |inputs|
  {
    if |inputs| == 0 then Step(m, [])
    else
      var s := Dispatch(m, inputs[0]);
      var rest := Run(s.m, inputs[1..]);
      Step(rest.m, s.events + rest.events)
  }

  /** The calls of one rebuild are admissible from the state before it. */
  lemma RebuildConforms(m: Manager, env: Env, r: Step)
    requires Valid(m)
    requires TaskbarManager.IsRebuild(m, env, r)
    ensures Replay(Abs(m), r.events) == Some(Abs(r.m))
  {
    var teardown := if m.session.Some? then [Destroy(m.session.value)] else [];
    var cleared := Tracker(None, m.nextId);
    assert Replay(Abs(m), teardown) == Some(cleared);
    if TaskbarManager.ShouldExist(m, env) {
      var n := m.nextId;
      var attach := if m.launcher.Some? then [SetUI(n, LauncherController(m.launcher.value))] else [];
      var up := [UpdateFlags(n, m.sysuiStateFlags, true)];
      var made := Tracker(Some(n), n + 1);
      assert Replay(made, [Init(n)]) == Some(made);
      assert [Create(n, env.profile), Init(n)][1..] == [Init(n)];
      assert Replay(cleared, [Create(n, env.profile), Init(n)]) == Some(made);
      assert Replay(made, attach) == Some(made);
      assert Replay(made, up) == Some(made);
      ReplayAppend(made, attach, up);
      ReplayAppend(cleared, [Create(n, env.profile), Init(n)], attach + up);
      assert TaskbarManager.SessionSetup(n, env.profile, m.launcher, m.sysuiStateFlags)
          == [Create(n, env.profile), Init(n)] + (attach + up);
      ReplayAppend(Abs(m), teardown, TaskbarManager.SessionSetup(n, env.profile, m.launcher, m.sysuiStateFlags));
    } else {
      assert Replay(cleared, [NotifyStatus(false, false)]) == Some(cleared);
      ReplayAppend(Abs(m), teardown, [NotifyStatus(false, false)]);
    }
  }

  /** A transition that keeps the session and the counter and makes at most
      one call, addressed to the current session, is admissible. */
  lemma QuietConforms(m: Manager, r: Step)
    requires r.m.session == m.session && r.m.nextId == m.nextId
    requires r.events == [] || (|r.events| == 1 && !r.events[0].Create? && !r.events[0].Destroy?
                                && Target(r.events[0]) == m.session)
    ensures Replay(Abs(m), r.events) == Some(Abs(r.m))
  {
    if r.events != [] {
      assert r.events[1..] == [];
    }
  }

  /** The calls of one signal are admissible from the state before it, and
      leave the tracker where the manager's new state says. */
  lemma DispatchConforms(m: Manager, input: Input)
    requires Valid(m)
    ensures Replay(Abs(m), Dispatch(m, input).events) == Some(Abs(Dispatch(m, input).m))
  {
    var env := input.env;
    match input.signal
    case NavigationModeChanged(mode) =>
      if m.registered {
        RebuildConforms(m, env, TaskbarManager.OnNavigationModeChanged(m, env, mode));
      }
    case DisplayInfoChanged(flags) =>
      if m.registered {
        var r := TaskbarManager.OnDisplayInfoChanged(m, env, flags);
        if flags & ChangeFlags != 0 { RebuildConforms(m, env, r); }
      }
    case UserUnlocked =>
      RebuildConforms(m.(userUnlocked := true), env, TaskbarManager.OnUserUnlocked(m, env));
    case SetLauncher(l) =>
      QuietConforms(m, TaskbarManager.SetLauncher(m, l));
    case ClearLauncher(l) =>
      QuietConforms(m, TaskbarManager.ClearLauncher(m, l));
    case SystemUiFlagsChanged(f) =>
      QuietConforms(m, TaskbarManager.OnSystemUiFlagsChanged(m, f));
    case RotationProposal(rotation, isValid) =>
      QuietConforms(m, TaskbarManager.OnRotationProposal(m, rotation, isValid));
    case DisableNavBarElements(displayId, state1, state2, animate) =>
      QuietConforms(m, TaskbarManager.DisableNavBarElements(m, displayId, state1, state2, animate));
    case SystemBarAttributesChanged(displayId, behavior) =>
      QuietConforms(m, TaskbarManager.OnSystemBarAttributesChanged(m, displayId, behavior));
    case DestroyManager =>
      var r := TaskbarManager.DestroyManager(m);
      if m.session.Some? {
        assert r.events == [Destroy(m.session.value)];
        assert r.events[1..] == [];
      }
  }

  /** Every run from a valid state obeys the session discipline. */
  lemma {:induction false} RunConforms(m: Manager, inputs: seq<Input>)
    requires Valid(m)
    ensures Replay(Abs(m), Run(m, inputs).events) == Some(Abs(Run(m, inputs).m))
    decreases |inputs|
  {
    if |inputs| > 0 {
      var s := Dispatch(m, inputs[0]);
      DispatchConforms(m, inputs[0]);
      RunConforms(s.m, inputs[1..]);
      ReplayAppend(Abs(m), s.events, Run(s.m, inputs[1..]).events);
    }
  }

  /** In any run, a destroyed session receives no further call and its id
      is never given to a new session. */
  lemma DestroyedSessionNeverAddressed(m: Manager, inputs: seq<Input>, i: nat, j: nat)
    requires Valid(m)
    requires var t := Run(m, inputs).events; i < j < |t| && t[i].Destroy?
    ensures var t := Run(m, inputs).events; Target(t[j]) != Some(t[i].id)
  {
    RunConforms(m, inputs);
    DestroyedNeverAddressed(Abs(m), Run(m, inputs).events, i, j);
  }

  /** In any run, the session created first is destroyed before the next one
      is created, so at most one session is ever live. */
  lemma PreviousSessionDestroyedFirst(m: Manager, inputs: seq<Input>, i: nat, j: nat)
    requires Valid(m)
    requires var t := Run(m, inputs).events; i < j < |t| && t[i].Create? && t[j].Create?
    ensures var t := Run(m, inputs).events; exists k :: i < k < j && t[k] == Destroy(t[i].id)
  {
    RunConforms(m, inputs);
    DestroyBetweenCreates(Abs(m), Run(m, inputs).events, i, j);
  }

  /** In any run, every session built gets an id not in use before the run
      started. */
  lemma SessionIdUnused(m: Manager, inputs: seq<Input>, i: nat)
    requires Valid(m)
    requires var t := Run(m, inputs).events; i < |t| && t[i].Create?
    ensures var t := Run(m, inputs).events; m.nextId <= t[i].id
  {
    var t := Run(m, inputs).events;
    RunConforms(m, inputs);
    SplitAt(Abs(m), t, i);
    assert t[i..][0] == t[i];
  }

  /** In any run, sessions get strictly increasing ids, none already in use
      before the run started. */
  lemma SessionsAreFresh(m: Manager, inputs: seq<Input>, i: nat, j: nat)
    requires Valid(m)
    requires var t := Run(m, inputs).events; i < j < |t| && t[i].Create? && t[j].Create?
    ensures var t := Run(m, inputs).events; m.nextId <= t[i].id < t[j].id
  {
    var t := Run(m, inputs).events;
    RunConforms(m, inputs);
    CreatesIncrease(Abs(m), t, i, j);
    SplitAt(Abs(m), t, i);
    assert t[i..][0] == t[i];
  }

  /** No session is constructed anywhere in the trace. */
  predicate NoCreate(t: seq<Event>) {
    forall k :: 0 <= k < |t| ==> !t[k].Create?
  }

  /** Every flag push in the trace is a forced replay of `flags`. */
  predicate OnlyReplays(t: seq<Event>, flags: bv32) {
    forall k :: 0 <= k < |t| && t[k].UpdateFlags? ==> t[k].flags == flags && t[k].forceUpdate
  }

  /** Every controller attached in the trace is the one for `launcher`. */
  predicate OnlyAttaches(t: seq<Event>, launcher: Option<LauncherId>) {
    forall k :: 0 <= k < |t| && t[k].SetUI? ==>
      launcher.Some? && t[k].controller == LauncherController(launcher.value)
  }

  /** Every construction in the trace is immediately followed by `init` of
      the same session. */
  predicate InitFollowsCreate(t: seq<Event>) {
    forall k :: 0 <= k < |t| && t[k].Create? ==> k + 1 < |t| && t[k + 1] == Init(t[k].id)
  }

  /** Every session built in the trace later receives `flags` with a forced
      update. */
  predicate EveryCreateReplays(t: seq<Event>, flags: bv32) {
    forall k :: 0 <= k < |t| && t[k].Create? ==>
      exists j :: k < j < |t| && t[j] == UpdateFlags(t[k].id, flags, true)
  }

  /** When a launcher is stored, every session built in the trace later gets
      that launcher's controller. */
  predicate EveryCreateAttaches(t: seq<Event>, launcher: Option<LauncherId>) {
    launcher.Some? ==>
      forall k :: 0 <= k < |t| && t[k].Create? ==>
        exists j :: k < j < |t| && t[j] == SetUI(t[k].id, LauncherController(launcher.value))
  }

  lemma NoCreateAppend(a: seq<Event>, b: seq<Event>)
    requires NoCreate(a) && NoCreate(b)
    ensures NoCreate(a + b)
  {
    forall k | 0 <= k < |a + b|
      ensures !(a + b)[k].Create?
    {
      if k < |a| { assert (a + b)[k] == a[k]; } else { assert (a + b)[k] == b[k - |a|]; }
    }
  }

  lemma OnlyReplaysAppend(a: seq<Event>, b: seq<Event>, flags: bv32)
    requires OnlyReplays(a, flags) && OnlyReplays(b, flags)
    ensures OnlyReplays(a + b, flags)
  {
    forall k | 0 <= k < |a + b| && (a + b)[k].UpdateFlags?
      ensures (a + b)[k].flags == flags && (a + b)[k].forceUpdate
    {
      if k < |a| { assert (a + b)[k] == a[k]; } else { assert (a + b)[k] == b[k - |a|]; }
    }
  }

  lemma OnlyAttachesAppend(a: seq<Event>, b: seq<Event>, launcher: Option<LauncherId>)
    requires OnlyAttaches(a, launcher) && OnlyAttaches(b, launcher)
    ensures OnlyAttaches(a + b, launcher)
  {
    forall k | 0 <= k < |a + b| && (a + b)[k].SetUI?
      ensures launcher.Some? && (a + b)[k].controller == LauncherController(launcher.value)
    {
      if k < |a| { assert (a + b)[k] == a[k]; } else { assert (a + b)[k] == b[k - |a|]; }
    }
  }

  lemma EveryCreateReplaysAppend(a: seq<Event>, b: seq<Event>, flags: bv32)
    requires EveryCreateReplays(a, flags) && EveryCreateReplays(b, flags)
    ensures EveryCreateReplays(a + b, flags)
  {
    var t := a + b;
    forall k | 0 <= k < |t| && t[k].Create?
      ensures exists j :: k < j < |t| && t[j] == UpdateFlags(t[k].id, flags, true)
    {
      if k < |a| {
        assert t[k] == a[k];
        var j :| k < j < |a| && a[j] == UpdateFlags(a[k].id, flags, true);
        assert t[j] == a[j];
      } else {
        var k' := k - |a|;
        assert t[k] == b[k'];
        var j :| k' < j < |b| && b[j] == UpdateFlags(b[k'].id, flags, true);
        assert t[j + |a|] == b[j];
      }
    }
  }

  lemma EveryCreateAttachesAppend(a: seq<Event>, b: seq<Event>, launcher: Option<LauncherId>)
    requires EveryCreateAttaches(a, launcher) && EveryCreateAttaches(b, launcher)
    ensures EveryCreateAttaches(a + b, launcher)
  {
    if launcher.Some? {
      var c := LauncherController(launcher.value);
      var t := a + b;
      forall k | 0 <= k < |t| && t[k].Create?
        ensures exists j :: k < j < |t| && t[j] == SetUI(t[k].id, c)
      {
        if k < |a| {
          assert t[k] == a[k];
          var j :| k < j < |a| && a[j] == SetUI(a[k].id, c);
          assert t[j] == a[j];
        } else {
          var k' := k - |a|;
          assert t[k] == b[k'];
          var j :| k' < j < |b| && b[j] == SetUI(b[k'].id, c);
          assert t[j + |a|] == b[j];
        }
      }
    }
  }

  /** While the user is locked, a signal other than the unlock leaves the
      user locked and constructs nothing. */
  lemma DispatchWhileLocked(m: Manager, input: Input)
    requires !m.userUnlocked && m.session.None?
    requires !input.signal.UserUnlocked?
    ensures !Dispatch(m, input).m.userUnlocked && Dispatch(m, input).m.session.None?
    ensures NoCreate(Dispatch(m, input).events)
  {
    var r := Dispatch(m, input);
    assert !TaskbarManager.ShouldExist(m, input.env);
    if r.events != [] && (input.signal.NavigationModeChanged? || input.signal.DisplayInfoChanged?) {
      assert r.events == [NotifyStatus(false, false)];
    }
  }

  /** Without an unlock no session is ever created: from a locked state with
      no session, a run without `UserUnlocked` keeps the user locked and
      constructs no session. */
  lemma {:induction false} NoUnlockNoSession(m: Manager, inputs: seq<Input>)
    requires !m.userUnlocked && m.session.None?
    requires forall k :: 0 <= k < |inputs| ==> !inputs[k].signal.UserUnlocked?
    ensures !Run(m, inputs).m.userUnlocked && Run(m, inputs).m.session.None?
    ensures NoCreate(Run(m, inputs).events)
    decreases |inputs|
  {
    if |inputs| > 0 {
      var s := Dispatch(m, inputs[0]);
      DispatchWhileLocked(m, inputs[0]);
      assert forall k :: 0 <= k < |inputs[1..]| ==> inputs[1..][k] == inputs[k + 1];
      NoUnlockNoSession(s.m, inputs[1..]);
      var rest := Run(s.m, inputs[1..]);
      NoCreateAppend(s.events, rest.events);
    }
  }

  /** From the manager's construction, a run without `UserUnlocked` never
      creates a session. */
  lemma NeverUnlockedNeverShown(env: Env, inputs: seq<Input>)
    requires forall k :: 0 <= k < |inputs| ==> !inputs[k].signal.UserUnlocked?
    ensures var start := TaskbarManager.New(env);
      NoCreate(start.events + Run(start.m, inputs).events)
      && Run(start.m, inputs).m.session.None?
  {
    var start := TaskbarManager.New(env);
    NoUnlockNoSession(start.m, inputs);
    var t := start.events + Run(start.m, inputs).events;
    assert forall k :: 1 <= k < |t| ==> t[k] == Run(start.m, inputs).events[k - 1];
  }

  /** The calls of one rebuild: each flag push is a forced replay of the
      cache, each controller attached is the stored launcher's, and each
      construction is followed by `init`. */
  lemma RebuildShape(m: Manager, env: Env, r: Step)
    requires TaskbarManager.IsRebuild(m, env, r)
    ensures OnlyReplays(r.events, m.sysuiStateFlags)
    ensures OnlyAttaches(r.events, m.launcher)
    ensures InitFollowsCreate(r.events)
  {
    var teardown := if m.session.Some? then [Destroy(m.session.value)] else [];
    if TaskbarManager.ShouldExist(m, env) {
      var n := m.nextId;
      var f := m.sysuiStateFlags;
      var setup := TaskbarManager.SessionSetup(n, env.profile, m.launcher, f);
      var t := teardown + setup;
      assert r.events == t;
      if m.launcher.Some? {
        var l := m.launcher.value;
        assert setup == [Create(n, env.profile), Init(n), SetUI(n, LauncherController(l)), UpdateFlags(n, f, true)];
      } else {
        assert setup == [Create(n, env.profile), Init(n), UpdateFlags(n, f, true)];
      }
      assert forall k :: |teardown| <= k < |t| ==> t[k] == setup[k - |teardown|];
    } else {
      assert r.events == teardown + [NotifyStatus(false, false)];
    }
  }

  /** A rebuild that builds a session replays the cached flags into it with
      a forced update and attaches the stored launcher's controller. */
  lemma RebuildDelivers(m: Manager, env: Env, r: Step)
    requires TaskbarManager.IsRebuild(m, env, r)
    ensures EveryCreateReplays(r.events, m.sysuiStateFlags)
    ensures EveryCreateAttaches(r.events, m.launcher)
  {
    var teardown := if m.session.Some? then [Destroy(m.session.value)] else [];
    var t := r.events;
    if TaskbarManager.ShouldExist(m, env) {
      var n := m.nextId;
      var f := m.sysuiStateFlags;
      var setup := TaskbarManager.SessionSetup(n, env.profile, m.launcher, f);
      assert t == teardown + setup;
      var d := |teardown|;
      forall k | 0 <= k < |t| && t[k].Create?
        ensures k == d && t[k].id == n
      {
        if k >= d { assert t[k] == setup[k - d]; }
      }
      if m.launcher.Some? {
        var l := m.launcher.value;
        assert setup == [Create(n, env.profile), Init(n), SetUI(n, LauncherController(l)), UpdateFlags(n, f, true)];
        assert t[d + 3] == UpdateFlags(n, f, true);
        assert t[d + 2] == SetUI(n, LauncherController(l));
      } else {
        assert setup == [Create(n, env.profile), Init(n), UpdateFlags(n, f, true)];
        assert t[d + 2] == UpdateFlags(n, f, true);
      }
    } else {
      assert t == teardown + [NotifyStatus(false, false)];
      assert forall k :: 0 <= k < |t| ==> !t[k].Create?;
    }
  }

  /** Whatever the signal, every session it builds receives the cached flags
      forced, and the stored launcher's controller when one is stored. */
  lemma DispatchDelivers(m: Manager, input: Input)
    ensures EveryCreateReplays(Dispatch(m, input).events, m.sysuiStateFlags)
    ensures EveryCreateAttaches(Dispatch(m, input).events, m.launcher)
  {
    var env := input.env;
    match input.signal
    case NavigationModeChanged(mode) =>
      if m.registered {
        RebuildDelivers(m, env, TaskbarManager.OnNavigationModeChanged(m, env, mode));
      }
    case DisplayInfoChanged(flags) =>
      if m.registered && flags & ChangeFlags != 0 {
        RebuildDelivers(m, env, TaskbarManager.OnDisplayInfoChanged(m, env, flags));
      }
    case UserUnlocked =>
      RebuildDelivers(m.(userUnlocked := true), env, TaskbarManager.OnUserUnlocked(m, env));
    case _ =>
      QuietSignalDelivers(m, input);
  }

  /** The signals that never rebuild build no session. */
  lemma QuietSignalDelivers(m: Manager, input: Input)
    requires !input.signal.NavigationModeChanged? && !input.signal.DisplayInfoChanged?
    requires !input.signal.UserUnlocked?
    ensures EveryCreateReplays(Dispatch(m, input).events, m.sysuiStateFlags)
    ensures EveryCreateAttaches(Dispatch(m, input).events, m.launcher)
  {
    match input.signal
    case SetLauncher(l) =>
      QuietDelivers(TaskbarManager.SetLauncher(m, l).events, m);
    case ClearLauncher(l) =>
      QuietDelivers(TaskbarManager.ClearLauncher(m, l).events, m);
    case SystemUiFlagsChanged(f) =>
      QuietDelivers(TaskbarManager.OnSystemUiFlagsChanged(m, f).events, m);
    case RotationProposal(rotation, isValid) =>
      QuietDelivers(TaskbarManager.OnRotationProposal(m, rotation, isValid).events, m);
    case DisableNavBarElements(displayId, state1, state2, animate) =>
      QuietDelivers(TaskbarManager.DisableNavBarElements(m, displayId, state1, state2, animate).events, m);
    case SystemBarAttributesChanged(displayId, behavior) =>
      QuietDelivers(TaskbarManager.OnSystemBarAttributesChanged(m, displayId, behavior).events, m);
    case DestroyManager =>
      QuietDelivers(TaskbarManager.DestroyManager(m).events, m);
  }

  /** At most one call, and not a construction: nothing to deliver. */
  lemma QuietDelivers(t: seq<Event>, m: Manager)
    requires |t| <= 1 && (|t| == 1 ==> !t[0].Create?)
    ensures EveryCreateReplays(t, m.sysuiStateFlags)
    ensures EveryCreateAttaches(t, m.launcher)
  {
  }

  /** A signal other than a flag update keeps the cached flags, and any flag
      push it makes is a forced replay of them. */
  lemma DispatchKeepsFlags(m: Manager, input: Input)
    requires !input.signal.SystemUiFlagsChanged?
    ensures Dispatch(m, input).m.sysuiStateFlags == m.sysuiStateFlags
    ensures OnlyReplays(Dispatch(m, input).events, m.sysuiStateFlags)
  {
    DispatchShape(m, input);
  }

  /** The calls of any one signal other than a flag update or a launcher
      change, seen through the three trace predicates. */
  lemma DispatchShape(m: Manager, input: Input)
    ensures !input.signal.SystemUiFlagsChanged? ==> OnlyReplays(Dispatch(m, input).events, m.sysuiStateFlags)
    ensures !input.signal.SetLauncher? && !input.signal.ClearLauncher? ==>
              OnlyAttaches(Dispatch(m, input).events, m.launcher)
    ensures InitFollowsCreate(Dispatch(m, input).events)
  {
    var r := Dispatch(m, input);
    match input.signal
    case NavigationModeChanged(_) =>
      if m.registered { RebuildShape(m, input.env, r); }
    case DisplayInfoChanged(flags) =>
      if m.registered && flags & ChangeFlags != 0 { RebuildShape(m, input.env, r); }
    case UserUnlocked =>
      RebuildShape(m.(userUnlocked := true), input.env, r);
    case _ =>
  }

  /** Cached flags are never lost: along a run with no new flag update, the
      cache keeps its value, every session built receives it with a forced
      update, and no other flag value is pushed. */
  lemma {:induction false} CachedFlagsSurvive(m: Manager, inputs: seq<Input>)
    requires forall k :: 0 <= k < |inputs| ==> !inputs[k].signal.SystemUiFlagsChanged?
    ensures Run(m, inputs).m.sysuiStateFlags == m.sysuiStateFlags
    ensures OnlyReplays(Run(m, inputs).events, m.sysuiStateFlags)
    ensures EveryCreateReplays(Run(m, inputs).events, m.sysuiStateFlags)
    decreases |inputs|
  {
    if |inputs| > 0 {
      var s := Dispatch(m, inputs[0]);
      DispatchKeepsFlags(m, inputs[0]);
      assert forall k :: 0 <= k < |inputs[1..]| ==> inputs[1..][k] == inputs[k + 1];
      CachedFlagsSurvive(s.m, inputs[1..]);
      var rest := Run(s.m, inputs[1..]);
      OnlyReplaysAppend(s.events, rest.events, m.sysuiStateFlags);
      DispatchDelivers(m, inputs[0]);
      EveryCreateReplaysAppend(s.events, rest.events, m.sysuiStateFlags);
    }
  }

  /** The last flags reported are the ones every later session is
      initialised with, however many rebuilds follow. */
  lemma LastFlagsReplayed(m: Manager, flags: bv32, env: Env, inputs: seq<Input>)
    requires forall k :: 0 <= k < |inputs| ==> !inputs[k].signal.SystemUiFlagsChanged?
    ensures var s := Dispatch(m, Input(SystemUiFlagsChanged(flags), env));
      && Run(s.m, inputs).m.sysuiStateFlags == flags
      && OnlyReplays(Run(s.m, inputs).events, flags)
      && EveryCreateReplays(Run(s.m, inputs).events, flags)
  {
    var s := Dispatch(m, Input(SystemUiFlagsChanged(flags), env));
    CachedFlagsSurvive(s.m, inputs);
  }

  /** A signal other than a launcher change keeps the stored launcher, and
      any controller it attaches is that launcher's. */
  lemma DispatchKeepsLauncher(m: Manager, input: Input)
    requires !input.signal.SetLauncher? && !input.signal.ClearLauncher?
    ensures Dispatch(m, input).m.launcher == m.launcher
    ensures OnlyAttaches(Dispatch(m, input).events, m.launcher)
  {
    DispatchShape(m, input);
  }

  /** The stored launcher survives rebuilds: along a run with no launcher
      change it stays stored, every session built in the run gets its
      controller, and no other controller is attached. */
  lemma {:induction false} LauncherSurvivesRebuilds(m: Manager, inputs: seq<Input>)
    requires forall k :: 0 <= k < |inputs| ==>
      !inputs[k].signal.SetLauncher? && !inputs[k].signal.ClearLauncher?
    ensures Run(m, inputs).m.launcher == m.launcher
    ensures OnlyAttaches(Run(m, inputs).events, m.launcher)
    ensures EveryCreateAttaches(Run(m, inputs).events, m.launcher)
    decreases |inputs|
  {
    if |inputs| > 0 {
      var s := Dispatch(m, inputs[0]);
      DispatchKeepsLauncher(m, inputs[0]);
      assert forall k :: 0 <= k < |inputs[1..]| ==> inputs[1..][k] == inputs[k + 1];
      LauncherSurvivesRebuilds(s.m, inputs[1..]);
      var rest := Run(s.m, inputs[1..]);
      OnlyAttachesAppend(s.events, rest.events, m.launcher);
      DispatchDelivers(m, inputs[0]);
      EveryCreateAttachesAppend(s.events, rest.events, m.launcher);
    }
  }

  /** In any run, each session is initialised immediately after it is built,
      before any other call. */
  lemma {:induction false} RunInitsAfterCreate(m: Manager, inputs: seq<Input>)
    ensures InitFollowsCreate(Run(m, inputs).events)
    decreases |inputs|
  {
    if |inputs| > 0 {
      var s := Dispatch(m, inputs[0]);
      DispatchShape(m, inputs[0]);
      RunInitsAfterCreate(s.m, inputs[1..]);
      var rest := Run(s.m, inputs[1..]);
      var t := s.events + rest.events;
      forall k | 0 <= k < |t| && t[k].Create?
        ensures k + 1 < |t| && t[k + 1] == Init(t[k].id)
      {
        if k < |s.events| {
          assert t[k] == s.events[k];
          assert t[k + 1] == s.events[k + 1];
        } else {
          assert t[k] == rest.events[k - |s.events|];
          assert t[k + 1] == rest.events[k + 1 - |s.events|];
        }
      }
    }
  }
}
