/**
 * The enable/launch sequencer (`service/AppService.kt`): package details, enabling with the
 * Play Store fallback, disabling, launching, and disabling every tracked app.
 */
module AppService {
  import opened Wrappers
  import opened Exceptions
  import opened Platform
  import opened Lists
  import opened AdbService
  import opened Datasource

  /** The list an app is shown in; its definition is outside this model, so it is an uninterpreted tag. */
  type ListType = string

  /** An app as the lists show it: label, package name, enabled and installed flags, owning list. */
  datatype App = App(
    name: string,
    packageName: string,
    isEnabled: bool,
    isInstalled: bool,
    overlyingListType: Option<ListType>)

  const FallbackToGooglePlay := "fallbackToGooglePlay"
  const PlayStoreDetails := "https://play.google.com/store/apps/details?id="

  function EnableCommand(packageName: string): string { "pm enable " + packageName }
  function DisableCommand(packageName: string): string { "pm disable-user --user 0 " + packageName }
  function StoreUrl(packageName: string): string { PlayStoreDetails + packageName }

  const CantOpenAppException := DisabledLauncherException(Some(Resource(CantOpenApp)), None)

  /** Runs one privileged command on the device. */
  function Execute(device: Device, command: string): Run {
    ExecuteAdbCommand(command, device.shell(command))
  }

  function PackageNames(infos: seq<PackageInfo>): (names: seq<string>)
    ensures |names| == |infos|
    ensures forall i :: 0 <= i < |infos| ==> names[i] == infos[i].packageName
  {
    if infos == [] then [] else [infos[0].packageName] + PackageNames(infos[1..])
  }

  /** `getInstalledPackages`: `filter(packageInfoFilter).map(PackageInfo::packageName)`. */
  function GetInstalledPackages(installed: seq<PackageInfo>, keep: PackageInfo -> bool): seq<string> {
    if installed == [] then []
    else (if keep(installed[0]) then [installed[0].packageName] else []) + GetInstalledPackages(installed[1..], keep)
  }

  /** The installed packages are filtered first and mapped to their names after, in the package manager's order. */
  lemma {:induction false} GetInstalledPackagesIsFilterThenMap(installed: seq<PackageInfo>, keep: PackageInfo -> bool)
    ensures GetInstalledPackages(installed, keep) == PackageNames(Filter(installed, keep))
  {
    if installed != [] {
      GetInstalledPackagesIsFilterThenMap(installed[1..], keep);
      var head := if keep(installed[0]) then [installed[0]] else [];
      assert Filter(installed, keep) == head + Filter(installed[1..], keep);
      PackageNamesAppend(head, Filter(installed[1..], keep));
    }
  }

  /** A name is listed exactly when some installed package the filter keeps carries it. */
  lemma GetInstalledPackagesMembers(installed: seq<PackageInfo>, keep: PackageInfo -> bool)
    ensures forall n :: n in GetInstalledPackages(installed, keep) <==>
              exists p :: p in installed && keep(p) && p.packageName == n
  {
    GetInstalledPackagesIsFilterThenMap(installed, keep);
    var names := GetInstalledPackages(installed, keep);
    var kept := Filter(installed, keep);
    forall n ensures n in names <==> exists p :: p in installed && keep(p) && p.packageName == n {
      if n in names {
        var i :| 0 <= i < |names| && names[i] == n;
        assert kept[i] in kept;
      }
      if exists p :: p in installed && keep(p) && p.packageName == n {
        var p :| p in installed && keep(p) && p.packageName == n;
        assert p in kept;
        var i :| 0 <= i < |kept| && kept[i] == p;
        assert names[i] == n;
      }
    }
  }

  lemma PackageNamesAppend(a: seq<PackageInfo>, b: seq<PackageInfo>)
    ensures PackageNames(a + b) == PackageNames(a) + PackageNames(b)
  {
  }

  /**
   * `getDetailsForPackage`: the package manager's label and enabled flag for an installed package;
   * for an unknown one the queried name, disabled and not installed. The list type is kept either way.
   */
  function GetDetailsForPackage(device: Device, packageName: string, listType: Option<ListType>): (app: App)
    ensures app.overlyingListType == listType
    ensures app.isInstalled <==> device.packageInfo(packageName).Some?
    ensures !app.isInstalled ==> app.packageName == packageName && !app.isEnabled
    ensures app.isInstalled ==> app.isEnabled == device.packageInfo(packageName).value.enabled
  {
    match device.packageInfo(packageName)
    case Some(info) => App(info.name, info.packageName, info.enabled, true, listType)
    case None => App(device.getString(UnknownApp), packageName, false, false, listType)
  }

  /** The fallback is switched on and no activity on the device can show the package's store page. */
  predicate StorePageFails(device: Device, prefs: Preferences, packageName: string) {
    GetBoolean(prefs, FallbackToGooglePlay, false) && !device.opensUrl(StoreUrl(packageName))
  }

  /**
   * The `catch (e: DisabledLauncherException)` of `enableApp`: with the Play Store fallback switched on,
   * the store page is opened and the failure is wrapped in `RedirectedToGooglePlayException`, unless
   * `startActivity` itself throws, which nothing catches; with the fallback off the failure is rethrown
   * unchanged. A failure never turns into success, and the store page is the only effect added.
   */
  function WithStoreFallback(device: Device, tried: Run, packageName: string, prefs: Preferences): (r: Run)
    ensures tried.thrown.None? ==> r == tried
    ensures r.thrown.None? <==> tried.thrown.None?
    ensures r.effects == tried.effects || r.effects == tried.effects + [OpenUrl(StoreUrl(packageName))]
  {
    match tried.thrown
    case None => tried
    case Some(e) =>
      if IsDisabledLauncherException(e) && GetBoolean(prefs, FallbackToGooglePlay, false) then
        if device.opensUrl(StoreUrl(packageName)) then
          Run(Some(RedirectedToGooglePlayException(e)), tried.effects + [OpenUrl(StoreUrl(packageName))])
        else Run(Some(ActivityNotFoundException), tried.effects)
      else tried
  }

  function EnableApp(device: Device, prefs: Preferences, app: App, showToast: bool): Run {
    var exec := Execute(device, EnableCommand(app.packageName));
    var tried :=
      if exec.thrown.Some? then exec
      else Run(None, exec.effects + (if showToast then [ShowToast(Formatted(EnabledApp, app.name))] else []));
    WithStoreFallback(device, tried, app.packageName, prefs)
  }

  /** Toasts among effects. */
  predicate Toasts(effects: seq<Effect>) {
    exists i :: 0 <= i < |effects| && effects[i].ShowToast?
  }

  lemma ToastsAppend(a: seq<Effect>, b: seq<Effect>)
    ensures Toasts(a + b) <==> Toasts(a) || Toasts(b)
  {
    if Toasts(a + b) {
      var i :| 0 <= i < |a + b| && (a + b)[i].ShowToast?;
      if i >= |a| {
        assert b[i - |a|] == (a + b)[i];
      }
    }
    if Toasts(b) {
      var i :| 0 <= i < |b| && b[i].ShowToast?;
      assert (a + b)[|a| + i] == b[i];
    }
    if Toasts(a) {
      var i :| 0 <= i < |a| && a[i].ShowToast?;
      assert (a + b)[i] == a[i];
    }
  }

  /** Running a command shows no toast. */
  lemma ExecuteNeverToasts(device: Device, command: string)
    ensures !Toasts(Execute(device, command).effects)
  {
    var effects := Execute(device, command).effects;
    forall i | 0 <= i < |effects|
      ensures !effects[i].ShowToast?
    {
      assert effects[i] in effects;
    }
  }

  /** What `enableApp` adds after the command's own effects: the toast on success, or the store page it opened. */
  function EnableExtra(device: Device, prefs: Preferences, app: App, showToast: bool, exec: Run): seq<Effect> {
    if exec.thrown.None? then (if showToast then [ShowToast(Formatted(EnabledApp, app.name))] else [])
    else if GetBoolean(prefs, FallbackToGooglePlay, false) && device.opensUrl(StoreUrl(app.packageName))
    then [OpenUrl(StoreUrl(app.packageName))]
    else []
  }

  /** The exception `enableApp` ends with, and its effects as the command's followed by `EnableExtra`. */
  lemma EnableAppShape(device: Device, prefs: Preferences, app: App, showToast: bool)
    ensures var exec := Execute(device, EnableCommand(app.packageName));
            var r := EnableApp(device, prefs, app, showToast);
            && r.effects == exec.effects + EnableExtra(device, prefs, app, showToast, exec)
            && (r.thrown.None? <==> exec.thrown.None?)
            && (exec.thrown.Some? && GetBoolean(prefs, FallbackToGooglePlay, false) && device.opensUrl(StoreUrl(app.packageName)) ==>
                  r == Run(Some(RedirectedToGooglePlayException(exec.thrown.value)), exec.effects + [OpenUrl(StoreUrl(app.packageName))]))
            && (exec.thrown.Some? && StorePageFails(device, prefs, app.packageName) ==>
                  r == Run(Some(ActivityNotFoundException), exec.effects))
            && (exec.thrown.Some? && !GetBoolean(prefs, FallbackToGooglePlay, false) ==> r == exec)
  {
    var exec := Execute(device, EnableCommand(app.packageName));
    if exec.thrown.Some? {
      assert IsDisabledLauncherException(exec.thrown.value);
    } else {
      assert exec.effects + EnableExtra(device, prefs, app, showToast, exec)
          == exec.effects + (if showToast then [ShowToast(Formatted(EnabledApp, app.name))] else []);
    }
  }

  /** `enableApp` runs the command's shell commands and no other. */
  lemma EnableAppCommands(device: Device, prefs: Preferences, app: App, showToast: bool)
    ensures Commands(EnableApp(device, prefs, app, showToast).effects) == Commands(Execute(device, EnableCommand(app.packageName)).effects)
  {
    var exec := Execute(device, EnableCommand(app.packageName));
    var extra := EnableExtra(device, prefs, app, showToast, exec);
    EnableAppShape(device, prefs, app, showToast);
    CommandsAppend(exec.effects, extra);
    assert Commands(extra) == [];
  }

  /** `enableApp` toasts exactly after a successful command when asked to. */
  lemma EnableAppToasts(device: Device, prefs: Preferences, app: App, showToast: bool)
    ensures var r := EnableApp(device, prefs, app, showToast);
            Toasts(r.effects) <==> Execute(device, EnableCommand(app.packageName)).thrown.None? && showToast
  {
    var exec := Execute(device, EnableCommand(app.packageName));
    var extra := EnableExtra(device, prefs, app, showToast, exec);
    EnableAppShape(device, prefs, app, showToast);
    ExecuteNeverToasts(device, EnableCommand(app.packageName));
    ToastsAppend(exec.effects, extra);
    assert Toasts(extra) <==> exec.thrown.None? && showToast by {
      if exec.thrown.None? && showToast {
        assert extra[0].ShowToast?;
      }
    }
  }

  /**
   * `enableApp` issues `pm enable <package>` and nothing else; on success it toasts only when asked;
   * on failure with the fallback preference set it opens the store page and throws a redirect, or, when no
   * activity shows the page, throws what `startActivity` threw; with the preference unset it rethrows the
   * original failure with no store page and no toast.
   */
  lemma EnableAppOutcome(device: Device, prefs: Preferences, app: App, showToast: bool)
    ensures var exec := Execute(device, EnableCommand(app.packageName));
            var r := EnableApp(device, prefs, app, showToast);
            && Commands(r.effects) == Commands(exec.effects)
            && Commands(r.effects) == (if Granted(device.shell(EnableCommand(app.packageName)).broker) then [EnableCommand(app.packageName)] else [])
            && (r.thrown.None? <==> exec.thrown.None?)
            && (Toasts(r.effects) <==> exec.thrown.None? && showToast)
            && (exec.thrown.Some? && GetBoolean(prefs, FallbackToGooglePlay, false) && device.opensUrl(StoreUrl(app.packageName)) ==>
                  r == Run(Some(RedirectedToGooglePlayException(exec.thrown.value)), exec.effects + [OpenUrl(StoreUrl(app.packageName))]))
            && (exec.thrown.Some? && StorePageFails(device, prefs, app.packageName) ==>
                  r == Run(Some(ActivityNotFoundException), exec.effects))
            && (exec.thrown.Some? && !GetBoolean(prefs, FallbackToGooglePlay, false) ==> r == exec)
  {
    var command := EnableCommand(app.packageName);
    assert Commands(Execute(device, command).effects) == (if Granted(device.shell(command).broker) then [command] else []);
    EnableAppShape(device, prefs, app, showToast);
    EnableAppCommands(device, prefs, app, showToast);
    EnableAppToasts(device, prefs, app, showToast);
  }

  /** `disableApp`: `pm disable-user --user 0 <package>`, then a toast when asked. */
  function DisableApp(device: Device, app: App, showToast: bool): Run {
    var exec := Execute(device, DisableCommand(app.packageName));
    if exec.thrown.Some? then exec
    else Run(None, exec.effects + (if showToast then [ShowToast(Formatted(DisabledApp, app.name))] else []))
  }

  /** `disableApp` issues `pm disable-user --user 0 <package>` and nothing else, and toasts only after success when asked. */
  lemma DisableAppOutcome(device: Device, app: App, showToast: bool)
    ensures var exec := Execute(device, DisableCommand(app.packageName));
            var r := DisableApp(device, app, showToast);
            && Commands(r.effects) == (if Granted(device.shell(DisableCommand(app.packageName)).broker) then [DisableCommand(app.packageName)] else [])
            && r.thrown == exec.thrown
            && (Toasts(r.effects) <==> r.thrown.None? && showToast)
  {
    var exec := Execute(device, DisableCommand(app.packageName));
    var r := DisableApp(device, app, showToast);
    var extra := if exec.thrown.None? && showToast then [ShowToast(Formatted(DisabledApp, app.name))] else [];
    assert r.effects == exec.effects + extra;
    CommandsAppend(exec.effects, extra);
    assert Commands(extra) == [];
    if Toasts(r.effects) {
      var i :| 0 <= i < |r.effects| && r.effects[i].ShowToast?;
    }
    if exec.thrown.None? && showToast {
      assert r.effects[|exec.effects|].ShowToast?;
    }
  }

  /** `startApp`: any failure to find or start the launch activity becomes "can't open app". */
  function StartApp(device: Device, packageName: string): (r: Run)
    ensures r.thrown.None? <==> device.launch(packageName) == Launchable
    ensures r.thrown.Some? ==> r == Run(Some(CantOpenAppException), [])
    ensures r.thrown.None? ==> r.effects == [StartActivity(packageName)]
  {
    match device.launch(packageName)
    case Launchable => Run(None, [StartActivity(packageName)])
    case _ => Run(Some(CantOpenAppException), [])
  }

  /**
   * `openAppLogic`: an enabled app is only started; a disabled one is enabled first (without a toast),
   * and started only when enabling did not throw. Everything it throws is a `DisabledLauncherException`,
   * except when the enable fails and the store page cannot be shown.
   */
  function OpenAppLogic(device: Device, prefs: Preferences, app: App): (r: Run)
    ensures app.isEnabled ==> r == StartApp(device, app.packageName)
    ensures !app.isEnabled && EnableApp(device, prefs, app, false).thrown.Some? ==> r == EnableApp(device, prefs, app, false)
    ensures !app.isEnabled && EnableApp(device, prefs, app, false).thrown.None? ==>
              r == Run(StartApp(device, app.packageName).thrown,
                       EnableApp(device, prefs, app, false).effects + StartApp(device, app.packageName).effects)
    ensures r.thrown.Some? && !IsDisabledLauncherException(r.thrown.value) ==> r.thrown == Some(ActivityNotFoundException)
    ensures r.thrown == Some(ActivityNotFoundException) <==>
              !app.isEnabled && Execute(device, EnableCommand(app.packageName)).thrown.Some?
              && StorePageFails(device, prefs, app.packageName)
  {
    if !app.isEnabled then
      var enabled := EnableApp(device, prefs, app, false);
      if enabled.thrown.Some? then enabled
      else
        var started := StartApp(device, app.packageName);
        Run(started.thrown, enabled.effects + started.effects)
    else StartApp(device, app.packageName)
  }

  predicate IsEnabledApp(app: App) { app.isEnabled }

  function Details(device: Device, packages: seq<string>): (apps: seq<App>)
    ensures |apps| == |packages|
    ensures forall i :: 0 <= i < |packages| ==> apps[i] == GetDetailsForPackage(device, packages[i], None)
  {
    if packages == [] then [] else [GetDetailsForPackage(device, packages[0], None)] + Details(device, packages[1..])
  }

  /** `loadAppList().map { getDetailsForPackage(it) }.filter { it.isEnabled }`. */
  function AppsToDisable(device: Device, packages: seq<string>): seq<App> {
    Filter(Details(device, packages), IsEnabledApp)
  }

  function DisableStep(device: Device): App -> Run {
    app => DisableApp(device, app, true)
  }

  /** What `disableAllApps` does, for the document as it is stored. */
  function DisableAllOutcome(device: Device, document: Option<seq<string>>): Run {
    var (packages, loadEffects) := Loaded(document);
    var apps := AppsToDisable(device, packages);
    if apps == [] then Run(None, loadEffects + [ShowToast(Resource(NothingToDisable))])
    else
      var each := RunEach(apps, DisableStep(device));
      Run(each.thrown, loadEffects + each.effects)
  }

  /** `disableAllApps`: disables the enabled tracked apps one after the other, stopping at the first failure. */
  method DisableAllApps(device: Device, store: PackageStore) returns (r: Run)
    ensures r == DisableAllOutcome(device, store.document)
  {
    var packages, loadEffects := store.LoadAppList();
    assert (packages, loadEffects) == Loaded(store.document);
    var appsToDisable := AppsToDisable(device, packages);
    if appsToDisable == [] {
      return Run(None, loadEffects + [ShowToast(Resource(NothingToDisable))]);
    }
    var each := ForEach(appsToDisable, DisableStep(device));
    return Run(each.thrown, loadEffects + each.effects);
  }

  function DisableCommandOf(app: App): string { DisableCommand(app.packageName) }

  /**
   * `disableAllApps` disables exactly the tracked apps whose details report them enabled, in list order;
   * with none it only toasts "nothing to disable"; the first failing disable ends it with that failure.
   */
  lemma DisableAllDisablesEnabledInOrder(device: Device, document: Option<seq<string>>)
    ensures var apps := AppsToDisable(device, Loaded(document).0);
            var r := DisableAllOutcome(device, document);
            && (apps == [] ==> r.thrown.None? && Commands(r.effects) == []
                                 && r.effects == Loaded(document).1 + [ShowToast(Resource(NothingToDisable))])
            && (r.thrown.None? && apps != [] ==> Commands(r.effects) == CommandsOf(apps, DisableCommandOf))
            && (r.thrown.Some? ==>
                  exists k :: 0 <= k < |apps| && AllSucceed(apps[..k], DisableStep(device))
                    && r.thrown == DisableApp(device, apps[k], true).thrown
                    && Commands(r.effects) == CommandsOf(apps[..k], DisableCommandOf) + Commands(DisableApp(device, apps[k], true).effects))
  {
    var (packages, loadEffects) := Loaded(document);
    assert Commands(loadEffects) == [] by {
      if document.None? {
        assert Commands(loadEffects) == Commands(loadEffects[1..]);
      }
    }
    var apps := AppsToDisable(device, packages);
    if apps == [] {
      CommandsAppend(loadEffects, [ShowToast(Resource(NothingToDisable))]);
    } else {
      var each := RunEach(apps, DisableStep(device));
      forall i | 0 <= i < |apps| && DisableStep(device)(apps[i]).thrown.None?
        ensures Commands(DisableStep(device)(apps[i]).effects) == [DisableCommandOf(apps[i])]
      {
        DisableAppOutcome(device, apps[i], true);
      }
      assert RunsItsCommand(apps, DisableStep(device), DisableCommandOf);
      if each.thrown.None? {
        RunEachCommandsOnSuccess(apps, DisableStep(device), DisableCommandOf);
      } else {
        RunEachAborts(apps, DisableStep(device));
        var k :| 0 <= k < |apps| && AllSucceed(apps[..k], DisableStep(device))
          && DisableStep(device)(apps[k]).thrown == each.thrown
          && each.effects == AllEffects(apps[..k], DisableStep(device)) + DisableStep(device)(apps[k]).effects;
        RunEachCommandsUpTo(apps, DisableStep(device), DisableCommandOf, k);
      }
      CommandsAppend(loadEffects, each.effects);
    }
  }
}
