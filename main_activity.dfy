/**
 * The older top-level copies in `MainActivity.kt` that the shortcut receiver still calls: command
 * execution, package details, enabling, disabling, disabling everything, opening, and the app list.
 *
 * This copy of `executeAdbCommand` does not catch a failed spawn. Every operation built on it therefore
 * takes the executor it runs on: `AsWritten` is the code as it stands, `Corrected` reports a failed spawn
 * as `AdbService.executeAdbCommand` does. The lemmas below say where the two differ.
 */
module MainActivity {
  import opened Wrappers
  import opened Exceptions
  import opened Platform
  import opened Lists
  import opened AdbService
  import opened Datasource
  import opened AppService
  import opened Components

  /** Which `executeAdbCommand` the copies run: this file's as written, or one that catches a failed spawn. */
  datatype Executor = AsWritten | Corrected

  /** The permission is granted and the broker refuses to spawn the shell. */
  predicate SpawnEscapes(sh: Shell) {
    Granted(sh.broker) && sh.process == SpawnThrowsIllegalState
  }

  /**
   * `executeAdbCommand` exactly as this copy writes it: there is no `catch` around `Shizuku.newProcess`,
   * so an `IllegalStateException` from spawning leaves it as it is, not as a `DisabledLauncherException`.
   * In every other case it does what the service's execution does.
   */
  function ExecuteAdbCommandAsWritten(command: string, sh: Shell): (r: Run)
    ensures !Granted(sh.broker) ==> r == CheckShizukuPermission(sh.broker)
    ensures !SpawnEscapes(sh) ==> r == AdbService.ExecuteAdbCommand(command, sh)
    ensures SpawnEscapes(sh) ==> r == Run(Some(IllegalStateException), [RunCommand(command)])
    ensures r.thrown == Some(IllegalStateException) <==> SpawnEscapes(sh)
  {
    var check := CheckShizukuPermission(sh.broker);
    if check.thrown.Some? then check
    else
      match sh.process
      case Exited(code) =>
        if code != 0 then Run(Some(ProcessFailureException), check.effects + [RunCommand(command)])
        else Run(None, check.effects + [RunCommand(command)])
      case SpawnThrowsIllegalState => Run(Some(IllegalStateException), check.effects + [RunCommand(command)])
  }

  /**
   * With the permission granted and a broker that refuses to spawn, the copy as written throws an exception
   * that no `catch (e: DisabledLauncherException)` of its callers handles; the corrected execution reports
   * "process failure" instead.
   */
  lemma SpawnFailureEscapesAsWritten(command: string)
    ensures var sh := Shell(Broker(Returns(false), Returns(true), Returns(false), false), SpawnThrowsIllegalState);
            && ExecuteAdbCommandAsWritten(command, sh).thrown == Some(IllegalStateException)
            && !IsDisabledLauncherException(ExecuteAdbCommandAsWritten(command, sh).thrown.value)
            && AdbService.ExecuteAdbCommand(command, sh).thrown == Some(ProcessFailureException)
  {
  }

  /** Runs one privileged command on the device with the chosen executor. */
  function ExecuteWith(executor: Executor, device: Device, command: string): Run {
    match executor
    case AsWritten => ExecuteAdbCommandAsWritten(command, device.shell(command))
    case Corrected => Execute(device, command)
  }

  /**
   * `getDetailsForPackage` of this copy: the same as the service's for an installed package; an unknown one
   * is labelled "app not found" instead of "unknown app". Neither belongs to a list.
   */
  function GetDetailsForPackage(device: Device, packageName: string): (app: App)
    ensures app.overlyingListType == None
    ensures app.isInstalled ==> app == AppService.GetDetailsForPackage(device, packageName, None)
    ensures !app.isInstalled ==>
              app == AppService.GetDetailsForPackage(device, packageName, None).(name := device.getString(AppNotFound))
    ensures !app.isInstalled ==> app.packageName == packageName && !app.isEnabled
  {
    match device.packageInfo(packageName)
    case Some(info) => App(info.name, info.packageName, info.enabled, true, None)
    case None => App(device.getString(AppNotFound), packageName, false, false, None)
  }

  /** `enableApp` of this copy: `pm enable <package>`, with the Play Store fallback and no toast. */
  function EnableApp(executor: Executor, device: Device, prefs: Preferences, packageName: string): Run {
    WithStoreFallback(device, ExecuteWith(executor, device, EnableCommand(packageName)), packageName, prefs)
  }

  /**
   * Run on the corrected executor, this copy is the service's `enableApp` without a toast. As written it
   * agrees with that unless the spawn fails: then the `IllegalStateException` escapes the `catch`, so no store
   * page is opened and no redirect is thrown, whatever the fallback preference says.
   */
  lemma EnableAppAgreesWithService(device: Device, prefs: Preferences, app: App)
    ensures EnableApp(Corrected, device, prefs, app.packageName) == AppService.EnableApp(device, prefs, app, false)
    ensures !SpawnEscapes(device.shell(EnableCommand(app.packageName))) ==>
              EnableApp(AsWritten, device, prefs, app.packageName) == EnableApp(Corrected, device, prefs, app.packageName)
    ensures SpawnEscapes(device.shell(EnableCommand(app.packageName))) ==>
              EnableApp(AsWritten, device, prefs, app.packageName)
                == Run(Some(IllegalStateException), [RunCommand(EnableCommand(app.packageName))])
  {
    var exec := Execute(device, EnableCommand(app.packageName));
    if exec.thrown.None? {
      assert exec.effects + [] == exec.effects;
    }
  }

  /** `disableApp` of this copy: `pm disable-user --user 0 <package>`, then always a toast naming the package. */
  function DisableApp(executor: Executor, device: Device, packageName: string): Run {
    var exec := ExecuteWith(executor, device, DisableCommand(packageName));
    if exec.thrown.Some? then exec
    else Run(None, exec.effects + [ShowToast(Formatted(DisabledApp, packageName))])
  }

  /**
   * Run on the corrected executor, this copy is the service's `disableApp` with a toast, for an app labelled
   * with its package name. As written it agrees with that unless the spawn fails, when the
   * `IllegalStateException` escapes after the command.
   */
  lemma DisableAppAgreesWithService(device: Device, app: App)
    ensures DisableApp(Corrected, device, app.packageName) == AppService.DisableApp(device, app.(name := app.packageName), true)
    ensures !SpawnEscapes(device.shell(DisableCommand(app.packageName))) ==>
              DisableApp(AsWritten, device, app.packageName) == DisableApp(Corrected, device, app.packageName)
    ensures SpawnEscapes(device.shell(DisableCommand(app.packageName))) ==>
              DisableApp(AsWritten, device, app.packageName)
                == Run(Some(IllegalStateException), [RunCommand(DisableCommand(app.packageName))])
  {
  }

  /** `loadAppList(context).filter { getDetailsForPackage(context, it).isEnabled }`. */
  function PackagesToDisable(device: Device, packages: seq<string>): seq<string> {
    if packages == [] then []
    else (if GetDetailsForPackage(device, packages[0]).isEnabled then [packages[0]] else []) + PackagesToDisable(device, packages[1..])
  }

  /** The names kept are exactly the tracked names whose details report the app enabled. */
  lemma {:induction false} PackagesToDisableKeepsEnabled(device: Device, packages: seq<string>)
    ensures forall n :: n in PackagesToDisable(device, packages) <==>
              n in packages && GetDetailsForPackage(device, n).isEnabled
  {
    if packages != [] {
      var head, tail := packages[0], packages[1..];
      PackagesToDisableKeepsEnabled(device, tail);
      var kept := if GetDetailsForPackage(device, head).isEnabled then [head] else [];
      assert PackagesToDisable(device, packages) == kept + PackagesToDisable(device, tail);
      assert packages == [head] + tail;
    }
  }

  function DisableStep(executor: Executor, device: Device): string -> Run {
    (packageName: string) => DisableApp(executor, device, packageName)
  }

  /** What `disableAllApps` of this copy does, for the document as it is stored. */
  function DisableAllOutcome(executor: Executor, device: Device, document: Option<seq<string>>): Run {
    var (packages, loadEffects) := Loaded(document);
    var names := PackagesToDisable(device, packages);
    if names == [] then Run(None, loadEffects + [ShowToast(Resource(NothingToDisable))])
    else
      var each := RunEach(names, DisableStep(executor, device));
      Run(each.thrown, loadEffects + each.effects)
  }

  /** `disableAllApps` of this copy: a `for` loop over the enabled tracked names that stops at the first failure. */
  method DisableAllApps(executor: Executor, device: Device, store: PackageStore) returns (r: Run)
    ensures r == DisableAllOutcome(executor, device, store.document)
  {
    var packages, loadEffects := store.LoadAppList();
    var packagesToDisable := PackagesToDisable(device, packages);
    if packagesToDisable == [] {
      return Run(None, loadEffects + [ShowToast(Resource(NothingToDisable))]);
    }
    var each := ForEach(packagesToDisable, DisableStep(executor, device));
    return Run(each.thrown, loadEffects + each.effects);
  }

  /** Each disable of the loop that succeeds ran exactly its own command, on either executor. */
  lemma EachDisableRunsItsCommand(executor: Executor, device: Device, names: seq<string>)
    ensures RunsItsCommand(names, DisableStep(executor, device), DisableCommand)
  {
    forall i | 0 <= i < |names| && DisableStep(executor, device)(names[i]).thrown.None?
      ensures Commands(DisableStep(executor, device)(names[i]).effects) == [DisableCommand(names[i])]
    {
      var app := App(names[i], names[i], true, true, None);
      DisableAppAgreesWithService(device, app);
      DisableAppOutcome(device, app, true);
    }
  }

  /**
   * `disableAllApps` of this copy disables exactly the tracked names whose details report them enabled, in
   * list order; with none it only toasts "nothing to disable"; the first failing disable ends it with that
   * failure. This holds on either executor.
   */
  lemma DisableAllDisablesEnabledInOrder(executor: Executor, device: Device, document: Option<seq<string>>)
    ensures var names := PackagesToDisable(device, Loaded(document).0);
            var r := DisableAllOutcome(executor, device, document);
            && (names == [] ==> r.thrown.None? && Commands(r.effects) == []
                                  && r.effects == Loaded(document).1 + [ShowToast(Resource(NothingToDisable))])
            && (r.thrown.None? && names != [] ==> Commands(r.effects) == CommandsOf(names, DisableCommand))
            && (r.thrown.Some? ==>
                  exists k :: 0 <= k < |names| && AllSucceed(names[..k], DisableStep(executor, device))
                    && r.thrown == DisableApp(executor, device, names[k]).thrown
                    && Commands(r.effects) == CommandsOf(names[..k], DisableCommand) + Commands(DisableApp(executor, device, names[k]).effects))
  {
    var (packages, loadEffects) := Loaded(document);
    assert Commands(loadEffects) == [] by {
      if document.None? {
        assert Commands(loadEffects) == Commands(loadEffects[1..]);
      }
    }
    var names := PackagesToDisable(device, packages);
    var step := DisableStep(executor, device);
    if names == [] {
      CommandsAppend(loadEffects, [ShowToast(Resource(NothingToDisable))]);
    } else {
      var each := RunEach(names, step);
      EachDisableRunsItsCommand(executor, device, names);
      if each.thrown.None? {
        RunEachCommandsOnSuccess(names, step, DisableCommand);
      } else {
        RunEachAborts(names, step);
        var k :| 0 <= k < |names| && AllSucceed(names[..k], step)
          && step(names[k]).thrown == each.thrown
          && each.effects == AllEffects(names[..k], step) + step(names[k]).effects;
        RunEachCommandsUpTo(names, step, DisableCommand, k);
      }
      CommandsAppend(loadEffects, each.effects);
    }
  }

  /** On the corrected executor, whatever `disableAllApps` of this copy throws is a `DisabledLauncherException`. */
  lemma DisableAllThrowsOnlyDisabledLauncherException(device: Device, document: Option<seq<string>>)
    ensures DisableAllOutcome(Corrected, device, document).thrown.Some? ==>
              IsDisabledLauncherException(DisableAllOutcome(Corrected, device, document).thrown.value)
  {
    var names := PackagesToDisable(device, Loaded(document).0);
    if names != [] && RunEach(names, DisableStep(Corrected, device)).thrown.Some? {
      RunEachAborts(names, DisableStep(Corrected, device));
    }
  }

  /** As written, a single disable throws something other than a `DisabledLauncherException` only when its spawn fails. */
  lemma DisableAppSpawnFailureAsWritten(device: Device, packageName: string)
    ensures var r := DisableStep(AsWritten, device)(packageName);
            r.thrown.Some? && !IsDisabledLauncherException(r.thrown.value) ==>
              r.thrown == Some(IllegalStateException) && SpawnEscapes(device.shell(DisableCommand(packageName)))
  {
    var command := DisableCommand(packageName);
    var exec := ExecuteAdbCommandAsWritten(command, device.shell(command));
    assert DisableStep(AsWritten, device)(packageName) == DisableApp(AsWritten, device, packageName);
    assert DisableApp(AsWritten, device, packageName).thrown == exec.thrown;
  }

  /**
   * As written, `disableAllApps` of this copy throws something other than a `DisabledLauncherException` only
   * when every disable before some enabled name succeeded and the spawn for that name failed; what escapes is
   * then the `IllegalStateException`.
   */
  lemma DisableAllSpawnFailureAsWritten(device: Device, document: Option<seq<string>>)
    ensures var names := PackagesToDisable(device, Loaded(document).0);
            var r := DisableAllOutcome(AsWritten, device, document);
            r.thrown.Some? && !IsDisabledLauncherException(r.thrown.value) ==>
              && r.thrown == Some(IllegalStateException)
              && exists k :: 0 <= k < |names| && AllSucceed(names[..k], DisableStep(AsWritten, device))
                   && SpawnEscapes(device.shell(DisableCommand(names[k])))
  {
    var (packages, loadEffects) := Loaded(document);
    var names := PackagesToDisable(device, packages);
    var each := RunEach(names, DisableStep(AsWritten, device));
    if names != [] {
      assert DisableAllOutcome(AsWritten, device, document) == Run(each.thrown, loadEffects + each.effects);
      EachSpawnFailureAsWritten(device, names);
      if each.thrown.Some? && !IsDisabledLauncherException(each.thrown.value) {
        var k :| 0 <= k < |names| && AllSucceed(names[..k], DisableStep(AsWritten, device))
          && SpawnEscapes(device.shell(DisableCommand(names[k])));
        assert names == PackagesToDisable(device, Loaded(document).0);
      }
    } else {
      assert DisableAllOutcome(AsWritten, device, document).thrown.None?;
    }
  }

  /** The loop part of `DisableAllSpawnFailureAsWritten`: the escaping exception comes from the first failing disable. */
  lemma EachSpawnFailureAsWritten(device: Device, names: seq<string>)
    ensures var each := RunEach(names, DisableStep(AsWritten, device));
            each.thrown.Some? && !IsDisabledLauncherException(each.thrown.value) ==>
              && each.thrown == Some(IllegalStateException)
              && exists k :: 0 <= k < |names| && AllSucceed(names[..k], DisableStep(AsWritten, device))
                   && SpawnEscapes(device.shell(DisableCommand(names[k])))
  {
    var step := DisableStep(AsWritten, device);
    var each := RunEach(names, step);
    if each.thrown.Some? && !IsDisabledLauncherException(each.thrown.value) {
      RunEachAborts(names, step);
      var k :| 0 <= k < |names| && AllSucceed(names[..k], step) && step(names[k]).thrown == each.thrown;
      DisableAppSpawnFailureAsWritten(device, names[k]);
    }
  }

  /** `openAppLogic` of this copy: enable a disabled app first, then start it unless enabling threw. */
  function OpenAppLogic(executor: Executor, device: Device, prefs: Preferences, entry: App): Run {
    if !entry.isEnabled then
      var enabled := EnableApp(executor, device, prefs, entry.packageName);
      if enabled.thrown.Some? then enabled
      else
        var started := StartApp(device, entry.packageName);
        Run(started.thrown, enabled.effects + started.effects)
    else StartApp(device, entry.packageName)
  }

  /**
   * On the corrected executor this copy opens an app as the service's `openAppLogic` does, so it enables exactly
   * the disabled apps, starts only after a successful enable, and throws nothing but `DisabledLauncherException`,
   * except the `ActivityNotFoundException` of a store page that cannot be shown after a failed enable.
   * As written it agrees with that except for a disabled app whose enable fails to spawn: then the
   * `IllegalStateException` escapes after the command, with no store page and no start.
   */
  lemma OpenAppLogicAgreesWithService(device: Device, prefs: Preferences, entry: App)
    ensures OpenAppLogic(Corrected, device, prefs, entry) == AppService.OpenAppLogic(device, prefs, entry)
    ensures OpenAppLogic(Corrected, device, prefs, entry).thrown.Some?
            && !IsDisabledLauncherException(OpenAppLogic(Corrected, device, prefs, entry).thrown.value) ==>
              && OpenAppLogic(Corrected, device, prefs, entry).thrown == Some(ActivityNotFoundException)
              && !entry.isEnabled && StorePageFails(device, prefs, entry.packageName)
    ensures !(!entry.isEnabled && SpawnEscapes(device.shell(EnableCommand(entry.packageName)))) ==>
              OpenAppLogic(AsWritten, device, prefs, entry) == OpenAppLogic(Corrected, device, prefs, entry)
    ensures !entry.isEnabled && SpawnEscapes(device.shell(EnableCommand(entry.packageName))) ==>
              OpenAppLogic(AsWritten, device, prefs, entry)
                == Run(Some(IllegalStateException), [RunCommand(EnableCommand(entry.packageName))])
  {
    EnableAppAgreesWithService(device, prefs, entry);
  }

  function Details(device: Device, packages: seq<string>): (apps: seq<App>)
    ensures |apps| == |packages|
    ensures forall i :: 0 <= i < |packages| ==> apps[i] == GetDetailsForPackage(device, packages[i])
  {
    if packages == [] then [] else [GetDetailsForPackage(device, packages[0])] + Details(device, packages[1..])
  }

  /** `AppList` of this copy: the details of the tracked packages, filtered and ordered as the shared list does. */
  function AppList(device: Device, packages: seq<string>, text: string): seq<App> {
    Components.AppList(Details(device, packages), text)
  }

  /** The list shows the details of exactly the tracked packages that match the search, installed ones first. */
  lemma AppListShowsTrackedMatches(device: Device, packages: seq<string>, text: string)
    ensures var r := AppList(device, packages, text);
            && (forall app :: app in r <==>
                  MatchesSearch(text, app) && exists i :: 0 <= i < |packages| && app == GetDetailsForPackage(device, packages[i]))
            && (forall i, j :: 0 <= i < j < |r| && r[i].isInstalled == false ==> r[j].isInstalled == false)
  {
    var details := Details(device, packages);
    AppListShowsMatchesInstalledFirst(details, text);
    forall app ensures app in details <==> exists i :: 0 <= i < |packages| && app == GetDetailsForPackage(device, packages[i]) {
      if app in details {
        var i :| 0 <= i < |details| && details[i] == app;
      }
    }
  }
}
