/**
 * The privilege gate (`AdbService`): the Shizuku permission check and privileged command execution.
 */
module AdbService {
  import opened Wrappers
  import opened Exceptions
  import opened Platform

  /** The broker supports the protocol and has granted the permission. */
  predicate Granted(b: Broker) {
    b.isPreV11 == Returns(false) && b.permissionGranted == Returns(true)
  }

  /** The permission is missing but may still be asked for: the user is prompted. */
  predicate Prompts(b: Broker) {
    b.isPreV11 == Returns(false) && b.permissionGranted == Returns(false) && b.showRationale == Returns(true)
  }

  /** The permission is missing and the user chose "deny and don't ask again". */
  predicate DeniedForGood(b: Broker) {
    b.isPreV11 == Returns(false) && b.permissionGranted == Returns(false) && b.showRationale == Returns(false)
  }

  /** One of the broker calls made along the way throws `IllegalStateException`. */
  predicate Unreachable(b: Broker) {
    || b.isPreV11.ThrowsIllegalState?
    || (b.isPreV11 == Returns(false) && b.permissionGranted.ThrowsIllegalState?)
    || (b.isPreV11 == Returns(false) && b.permissionGranted == Returns(false) && b.showRationale.ThrowsIllegalState?)
    || (Prompts(b) && b.requestThrows)
  }

  /**
   * `checkShizukuPermission`: an unsupported broker fails before any permission query, a granted
   * permission passes without a request, a missing permission fails with `NoShizukuPermissionException`
   * after prompting only when a rationale may be shown, and a broker that throws fails as unavailable.
   */
  function CheckShizukuPermission(b: Broker): (r: Run)
    ensures r.thrown.None? <==> Granted(b)
    ensures r.thrown.Some? ==> IsShizukuException(r.thrown.value)
    ensures b.isPreV11 == Returns(true) ==> r == Run(Some(ShizukuVersionNotSupportedException), [])
    ensures r.thrown == Some(ShizukuUnavailableException) <==> Unreachable(b)
    ensures r.thrown == Some(NoShizukuPermissionException) <==> DeniedForGood(b) || (Prompts(b) && !b.requestThrows)
    ensures r.effects == (if Prompts(b) then [RequestPermission] else [])
  {
    match b.isPreV11
    case ThrowsIllegalState => Run(Some(ShizukuUnavailableException), [])
    case Returns(true) => Run(Some(ShizukuVersionNotSupportedException), [])
    case Returns(false) =>
      match b.permissionGranted
      case ThrowsIllegalState => Run(Some(ShizukuUnavailableException), [])
      case Returns(true) => Run(None, [])
      case Returns(false) =>
        match b.showRationale
        case ThrowsIllegalState => Run(Some(ShizukuUnavailableException), [])
        case Returns(false) => Run(Some(NoShizukuPermissionException), [])
        case Returns(true) =>
          if b.requestThrows then Run(Some(ShizukuUnavailableException), [RequestPermission])
          else Run(Some(NoShizukuPermissionException), [RequestPermission])
  }

  /** The states of the permission gate, each observable as a distinct outcome of the check. */
  datatype GateState = GateGranted | GateUnsupported | GatePending | GateDenied | GateUnavailable

  function Observe(r: Run): GateState {
    match r.thrown
    case None => GateGranted
    case Some(ShizukuVersionNotSupportedException) => GateUnsupported
    case Some(NoShizukuPermissionException) => if RequestPermission in r.effects then GatePending else GateDenied
    case Some(_) => GateUnavailable
  }

  /** Every broker lies in exactly the gate state the check reports. */
  lemma GateStatesDistinct(b: Broker)
    ensures Observe(CheckShizukuPermission(b)) == GateGranted <==> Granted(b)
    ensures Observe(CheckShizukuPermission(b)) == GateUnsupported <==> b.isPreV11 == Returns(true)
    ensures Observe(CheckShizukuPermission(b)) == GatePending <==> Prompts(b) && !b.requestThrows
    ensures Observe(CheckShizukuPermission(b)) == GateDenied <==> DeniedForGood(b)
    ensures Observe(CheckShizukuPermission(b)) == GateUnavailable <==> Unreachable(b)
  {
  }

  /** The failure `executeAdbCommand` reports for a bad exit or a failed spawn. */
  const ProcessFailureException := DisabledLauncherException(Some(Resource(ProcessFailure)), None)

  /**
   * `executeAdbCommand`: no process is spawned unless the permission check passes; the command
   * succeeds exactly on exit code 0, and any other exit or a failed spawn is a process failure.
   */
  function ExecuteAdbCommand(command: string, sh: Shell): (r: Run)
    ensures CheckShizukuPermission(sh.broker).thrown.Some? ==> r == CheckShizukuPermission(sh.broker)
    ensures Commands(r.effects) == (if Granted(sh.broker) then [command] else [])
    ensures r.thrown.None? <==> Granted(sh.broker) && sh.process == Exited(0)
    ensures Granted(sh.broker) && sh.process != Exited(0) ==> r == Run(Some(ProcessFailureException), [RunCommand(command)])
    ensures r.thrown.Some? ==> IsDisabledLauncherException(r.thrown.value)
    ensures forall e :: e in r.effects ==> e == RequestPermission || e == RunCommand(command)
  {
    var check := CheckShizukuPermission(sh.broker);
    if check.thrown.Some? then check
    else
      match sh.process
      case Exited(code) =>
        if code != 0 then Run(Some(ProcessFailureException), check.effects + [RunCommand(command)])
        else Run(None, check.effects + [RunCommand(command)])
      case SpawnThrowsIllegalState => Run(Some(ProcessFailureException), check.effects + [RunCommand(command)])
  }
}
