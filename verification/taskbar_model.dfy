/**
 * The state and the observable outputs of the taskbar lifecycle manager.
 *
 * A `Manager` value is the manager object's mutable fields at one instant;
 * an `Event` is one call the manager makes on a collaborator (the current
 * taskbar session or the system UI proxy). Sessions are identified by
 * abstract ids handed out by a counter, so a new session is always a new id.
 */
module TaskbarModel {
  import opened Wrappers

  /** A Java `int` used as a plain value (rotation, display id, ...). */
  newtype int32 = x: int | -0x8000_0000 <= x < 0x8000_0000

  /** Identity of one taskbar session (one TaskbarActivityContext object). */
  type SessionId = nat

  /** Identity of one launcher object; Java `==` on references is id equality. */
  type LauncherId = nat

  /** Display-change bits. DisplayController is not part of this model: the
      values are assumed distinct single bits, and no proof depends on which. */
  const ChangeActiveScreen: bv32 := 1
  const ChangeRotation: bv32 := 2
  const ChangeDensity: bv32 := 4
  const ChangeSupportedBounds: bv32 := 8

  /** The display changes that invalidate the current taskbar. */
  const ChangeFlags: bv32 := ChangeActiveScreen | ChangeDensity | ChangeSupportedBounds

  datatype NavigationMode = ThreeButtons | TwoButtons | NoButton

  /** The one attribute of a device profile the manager looks at. */
  datatype DeviceProfile = DeviceProfile(isTaskbarPresent: bool)

  /** What the foreign global state answers at the moment of a rebuild: the
      taskbar feature flag, and the device profile the launcher's profile
      store would return (consulted only once the user is unlocked). */
  datatype Env = Env(taskbarFlagEnabled: bool, profile: DeviceProfile)

  /** The UI controller attached to a session: the no-op default, or a
      controller bound to a launcher. */
  datatype UIController = DefaultController | LauncherController(launcher: LauncherId)

  /** One outbound call, in the order the manager makes it. */
  datatype Event =
    | Create(id: SessionId, profile: DeviceProfile)
    | Init(id: SessionId)
    | SetUI(id: SessionId, controller: UIController)
    | UpdateFlags(id: SessionId, flags: bv32, forceUpdate: bool)
    | ForwardRotationProposal(id: SessionId, rotation: int32, isValid: bool)
    | ForwardDisableNavBarElements(id: SessionId, displayId: int32, state1: int32, state2: int32, animate: bool)
    | ForwardSystemBarAttributes(id: SessionId, displayId: int32, behavior: int32)
    | Destroy(id: SessionId)
    | NotifyStatus(visible: bool, stashed: bool)

  /** The session an event is addressed to; the compositor notification is
      addressed to none. */
  function Target(e: Event): Option<SessionId> {
    if e.NotifyStatus? then None else Some(e.id)
  }

  /** The manager's fields: the current session, the stored launcher, the
      cached system UI flags, the unlock flag, whether the display and
      navigation-mode listeners are registered, and the next fresh id. */
  datatype Manager = Manager(
    session: Option<SessionId>,
    launcher: Option<LauncherId>,
    sysuiStateFlags: bv32,
    userUnlocked: bool,
    registered: bool,
    nextId: nat)

  /** Ids already handed out are below the counter, so the counter is fresh. */
  predicate Valid(m: Manager) {
    m.session.Some? ==> m.session.value < m.nextId
  }

  /** The result of one transition: the new state and the calls it made. */
  datatype Step = Step(m: Manager, events: seq<Event>)
}
