# DisabledLauncher core in Dafny

DisabledLauncher is an Android launcher for apps that are normally kept disabled. Opening an app from
the launcher enables it through the Shizuku broker (a privileged `pm enable <package>` shell command)
and then starts it. "Disable all" runs `pm disable-user --user 0 <package>` for every tracked app that
is still enabled. This project models the logic underneath the screens:

- **Tracked package list** (`Datasource`). The launcher keeps an ordered list of package names in a
  document. `loadAppList` reads it. `raisePackage` moves a package forward from its first index `i` to
  `(2 * i) / 3`. `removePackage` filters a package out. `addPackages` appends names. The document is the
  field `document: Option<seq<string>>` of the class `Datasource.PackageStore`, where `None` means it
  cannot be read. Whether a write succeeds is an input of each mutator. `RaisePackage`, `RemovePackage`
  and `AddPackages` build the new list and hand it to `WriteFile`.
- **Privilege gate** (`AdbService`). `CheckShizukuPermission` is the decision tree over what the broker
  answers. `ExecuteAdbCommand` runs one command behind that gate.
- **Enable, disable and launch** (`AppService`). This covers package details, `enableApp` with its
  opt-in Play Store fallback, `disableApp`, `startApp` and `openAppLogic`. `disableAllApps` is the method
  `AppService.DisableAllApps`. It loads the list and runs the loop `Platform.ForEach`, which is proved
  equal to the specification function `Platform.RunEach` (Kotlin's `forEach` with a throwing body).
- **User-visible error text** (`Exceptions.GetLocalizedMessage`). It looks first at the exception's own
  type, then at the type of its direct cause, then falls back to the raw message.
- **Shortcut receiver** (`ActionReceiver`). It validates package names against `^\w+\.[\w.]*\w+$`,
  dispatches on the intent's action, and decides whether an error reopens the main screen.
- **App lists** (`Components`, `SelectMultipleApps`). These cover the search filter, the stable
  installed-first sort and the sort by name. The selection list is the class `Components.Selection`,
  which is changed in place by the toggle; both list screens use the same toggle. The module also covers
  the click rule of an entry and the confirm button.
- **Older top-level copies in `MainActivity.kt`** (`MainActivity`). The shortcut receiver still calls
  these. Their permission check (lines 95-115) and `startApp` (lines 208-217) are identical to the
  service's, so the model uses `AdbService.CheckShizukuPermission` and `AppService.StartApp` for them.
  Each of the other copies has its own definition and a lemma relating it to the service version. This
  file's `executeAdbCommand` does not catch a failed spawn, so every copy built on it, and the receiver
  built on those, takes a `MainActivity.Executor`: `AsWritten` runs the code as it stands and `Corrected`
  reports a failed spawn as "process failure", as the service does. The lemmas say where the two differ.

Foreign calls are inputs:
- the broker's answers (`Platform.Broker`, `Platform.Shell`);
- the package manager, the launcher, whether some activity can show a URL (the store page's `startActivity`), and the string table (`Platform.Device`);
- shared preferences (`Platform.Preferences`);
- the outcome of a file write (a `bool`).

What the core does to the outside world is recorded in order as a sequence of `Platform.Effect`. An
operation that can throw returns `Platform.Run(thrown, effects)`. `thrown` is the exception that escaped,
and `effects` is everything done before it escaped. Localised strings are resource identifiers
(`Exceptions.StringRes`), not text.

## Model

| member | source | states |
|---|---|---|
| Datasource.PackageStore.LoadAppList | app/src/main/java/de/redno/disabledlauncher/service/Datasource.kt:13-22 | A readable document yields its packages and no effect. An unreadable one yields the empty list and one "couldn't load app list" toast. Both together are `Loaded(document)`, the definition the disable-all outcomes use. |
| Datasource.PackageStore.Internal | app/src/main/java/de/redno/disabledlauncher/service/FileService.kt:16-19 | The internal file is created on first use holding an empty package list, so it reads as the empty list. |
| Datasource.PackageStore.External | app/src/main/java/de/redno/disabledlauncher/service/FileService.kt:28-34 | A document the user picked is taken in whatever state it is, readable or not. |
| Datasource.IndexOf | app/src/main/java/de/redno/disabledlauncher/service/Datasource.kt:28 | The result is -1 exactly when the package is absent. Otherwise it is an index holding the package, and no earlier index holds it. |
| Datasource.Without | app/src/main/java/de/redno/disabledlauncher/service/Datasource.kt:35 | The filtered list no longer contains the package and is no longer than the input. |
| Datasource.WithoutCounts | app/src/main/java/de/redno/disabledlauncher/service/Datasource.kt:35 | Filtering keeps every other package exactly as often as it occurred. The length drops by the number of occurrences removed. |
| Datasource.WithoutAppend | app/src/main/java/de/redno/disabledlauncher/service/Datasource.kt:35 | Filtering distributes over concatenation, so the other packages keep their order. |
| Datasource.WithoutAbsent | app/src/main/java/de/redno/disabledlauncher/service/Datasource.kt:35 | Filtering out an absent package changes nothing. |
| Datasource.RaiseIndex | app/src/main/java/de/redno/disabledlauncher/service/Datasource.kt:39 | The new index is never after the old one, and it is strictly before the old one for any index of at least 1. |
| Datasource.RaiseIndexInBounds | app/src/main/java/de/redno/disabledlauncher/service/Datasource.kt:34-41 | The insertion index fits the filtered list: `(2*i)/3` is at most `i`, which is at most the length of the list without the package. |
| Datasource.Raised | app/src/main/java/de/redno/disabledlauncher/service/Datasource.kt:28-42 | Nothing is written exactly when the package is absent or already first. |
| Datasource.InsertAtFresh | app/src/main/java/de/redno/disabledlauncher/service/Datasource.kt:36-42 | A package inserted into a list without it is found first at the insertion index and occurs exactly once. Filtering it out again gives back the list. |
| Datasource.RaisedMovesForward | app/src/main/java/de/redno/disabledlauncher/service/Datasource.kt:33-42 | For a first index `i >= 1`, the package moves to `(2*i)/3 < i`, where it is now found first. It occurs exactly once. Without it, the list equals the old list without it, so every other package keeps its relative order. The length is the old length minus the occurrences plus one. |
| Datasource.RaisedSingleIsPermutation | app/src/main/java/de/redno/disabledlauncher/service/Datasource.kt:34-42 | A package that occurs once is moved, not lost or duplicated: the new list has the same length and the same multiset as the old one. |
| Datasource.RaisedExample | app/src/main/java/de/redno/disabledlauncher/service/Datasource.kt:24-48 | Raising `d` in `[a, b, c, d]` gives `[a, b, d, c]`. |
| Datasource.Removed | app/src/main/java/de/redno/disabledlauncher/service/Datasource.kt:54-62 | Nothing is written exactly when the package is absent. Otherwise every occurrence is gone, all other packages keep their counts, and the length drops by the number of occurrences. |
| Datasource.PackageStore.WriteFile | app/src/main/java/de/redno/disabledlauncher/service/Datasource.kt:33-43 | The result is the write's outcome. A successful write replaces the whole document; a failed one leaves it unchanged. |
| Datasource.PackageStore.RaisePackage | app/src/main/java/de/redno/disabledlauncher/service/Datasource.kt:24-48 | The result is true exactly when the document was read, the package is raisable and the write succeeded. In that case the document becomes the raised list; in every other case it is unchanged. |
| Datasource.PackageStore.RemovePackage | app/src/main/java/de/redno/disabledlauncher/service/Datasource.kt:50-67 | The result is true exactly when the document was read, contained the package and the write succeeded. In that case the document is the filtered list; in every other case it is unchanged. |
| Datasource.PackageStore.AddPackages | app/src/main/java/de/redno/disabledlauncher/service/Datasource.kt:69-85 | The result is true exactly when the document was read and the write succeeded. In that case the document is the old list followed by the new names in input order, duplicates kept; otherwise it is unchanged. |
| AdbService.CheckShizukuPermission | app/src/main/java/de/redno/disabledlauncher/service/AdbService.kt:14-34 | The check passes exactly when the permission is granted. A pre-v11 broker fails as unsupported, with no query and no request. Anything it throws is a Shizuku exception. It throws "unavailable" exactly when a broker call made along the way throws. It throws "no permission" exactly when the user denied for good, or was prompted and the request did not throw. A permission request happens exactly when a rationale may be shown. |
| AdbService.GateStatesDistinct | app/src/main/java/de/redno/disabledlauncher/service/AdbService.kt:14-34 | Each broker state gives an outcome of its own: granted, unsupported, pending, denied and unavailable are told apart by what the check throws and requests. |
| AdbService.ExecuteAdbCommand | app/src/main/java/de/redno/disabledlauncher/service/AdbService.kt:36-47 | A failing permission check is passed on unchanged, and then no command runs. The only command run is the given one, and it runs exactly when the permission is granted. The call succeeds exactly on exit code 0. A non-zero exit or a failed spawn gives "process failure". Everything thrown is a `DisabledLauncherException`. |
| Platform.RunEachAborts | app/src/main/java/de/redno/disabledlauncher/service/AppService.kt:109-111 | `forEach` succeeds exactly when every step does, and then has all their effects. Otherwise it throws what the first throwing step throws, after the effects of the steps before that step and of that step itself. |
| Platform.ForEach | app/src/main/java/de/redno/disabledlauncher/service/AppService.kt:109-111 | The loop returns exactly what the specification `RunEach` says. |
| AppService.GetInstalledPackages | app/src/main/java/de/redno/disabledlauncher/service/AppService.kt:18-27 | The installed packages kept by the filter, as names, in the package manager's order; `GetInstalledPackagesIsFilterThenMap` and `GetInstalledPackagesMembers` state this. |
| AppService.GetInstalledPackagesIsFilterThenMap | app/src/main/java/de/redno/disabledlauncher/service/AppService.kt:18-27 | The result equals filtering the installed packages first and mapping them to their names afterwards, in the package manager's order. |
| AppService.GetInstalledPackagesMembers | app/src/main/java/de/redno/disabledlauncher/service/AppService.kt:18-27 | A name is listed exactly when some installed package kept by the filter carries it. |
| AppService.GetDetailsForPackage | app/src/main/java/de/redno/disabledlauncher/service/AppService.kt:29-62 | The list type is preserved. The app counts as installed exactly when the package manager knows the package, and then has the package manager's enabled flag. An unknown package keeps the queried name and is neither enabled nor installed. |
| AppService.WithStoreFallback | app/src/main/java/de/redno/disabledlauncher/service/AppService.kt:76-91 | A successful attempt passes through unchanged, a failure is never turned into success, and the only effect it may add is the store page. With the fallback on and no activity to show the page, `startActivity` throws an `ActivityNotFoundException`, which is not caught. |
| AppService.EnableApp | app/src/main/java/de/redno/disabledlauncher/service/AppService.kt:64-92 | `pm enable <package>`, a toast on success when asked, and the Play Store fallback on failure; `EnableAppOutcome` states its outcome. |
| AppService.EnableAppOutcome | app/src/main/java/de/redno/disabledlauncher/service/AppService.kt:64-92 | The only command is `pm enable <package>`, and it runs exactly when the permission is granted. Enabling fails exactly when the command does. A toast appears exactly on success with `showToast`. On failure with the fallback set, the store page is opened and the failure is thrown wrapped in a redirect; if no activity can show the page, the `ActivityNotFoundException` of `startActivity` is thrown instead, with no store page. With the fallback unset, the original failure is rethrown unchanged, with no store page. |
| AppService.DisableApp | app/src/main/java/de/redno/disabledlauncher/service/AppService.kt:114-125 | `pm disable-user --user 0 <package>`, then a toast when asked; `DisableAppOutcome` states its outcome. |
| AppService.DisableAppOutcome | app/src/main/java/de/redno/disabledlauncher/service/AppService.kt:114-125 | The only command is `pm disable-user --user 0 <package>`, run exactly when the permission is granted. The failure is the command's. A toast appears exactly on success with `showToast`. |
| AppService.StartApp | app/src/main/java/de/redno/disabledlauncher/service/AppService.kt:136-145 | Starting succeeds exactly when a launch intent exists and starting it does not throw; it then starts exactly that package. Any other outcome is "can't open app" with no effect. |
| AppService.OpenAppLogic | app/src/main/java/de/redno/disabledlauncher/service/AppService.kt:127-134 | An enabled app is only started. A disabled app is enabled first, without a toast. If enabling throws, the app is not started and that failure is the result. Otherwise it is started after the enable's effects. Everything thrown is a `DisabledLauncherException`, except an `ActivityNotFoundException`, which is thrown exactly when a disabled app's enable fails, the fallback is on and no activity can show the store page. |
| AppService.Details | app/src/main/java/de/redno/disabledlauncher/service/AppService.kt:96-97 | Each tracked name maps to its details, index by index. |
| AppService.DisableAllOutcome | app/src/main/java/de/redno/disabledlauncher/service/AppService.kt:94-112 | The specification of `disableAllApps`: load the list, keep the enabled apps, toast "nothing to disable" when none is left, else disable them one by one until one fails; `DisableAllDisablesEnabledInOrder` states its outcome. |
| AppService.DisableAllApps | app/src/main/java/de/redno/disabledlauncher/service/AppService.kt:94-112 | The method returns exactly the outcome `DisableAllOutcome` specifies for the stored document. |
| AppService.DisableAllDisablesEnabledInOrder | app/src/main/java/de/redno/disabledlauncher/service/AppService.kt:94-112 | With no enabled tracked app, there is no command and only the "nothing to disable" toast. After a full success, the commands are exactly one disable per enabled tracked app, in list order. When a disable fails, some `k` exists such that the first `k` disables succeeded, the failure is that of app `k`, and no app after `k` received a command. |
| Exceptions.TypeMessage | app/src/main/java/de/redno/disabledlauncher/model/exception/DisabledLauncherException.kt:11-18 | A text is found exactly for the three Shizuku exception types. |
| Exceptions.GetLocalizedMessage | app/src/main/java/de/redno/disabledlauncher/model/exception/DisabledLauncherException.kt:10-22 | A Shizuku exception gives its own fixed resource. Otherwise a Shizuku direct cause gives the cause's resource. Otherwise the result is the raw message, which may be null. |
| Exceptions.OnlyDirectCauseExamined | app/src/main/java/de/redno/disabledlauncher/model/exception/DisabledLauncherException.kt:11-21 | A Shizuku exception two levels down is never consulted: the outer raw message is returned. |
| Exceptions.CauseOnlyConstructor | app/src/main/java/de/redno/disabledlauncher/model/exception/DisabledLauncherException.kt:8-21 | An exception built from a cause alone has a text exactly when its cause is a Shizuku exception. |
| Exceptions.RedirectMessage | app/src/main/java/de/redno/disabledlauncher/model/exception/DisabledLauncherException.kt:10-22 | A store redirect shows the Shizuku text of the failure it wraps, and nothing for any other failure. |
| ActionReceiver.IsValidPackageName | app/src/main/java/de/redno/disabledlauncher/ActionReceiverActivity.kt:17 | `matches(Regex("^\\w+\\.[\\w.]*\\w+$"))` as a character-class test; `ValidPackageNameIffPattern` proves it equal to the pattern. |
| ActionReceiver.ValidPackageNameIffPattern | app/src/main/java/de/redno/disabledlauncher/ActionReceiverActivity.kt:17 | The character-class test accepts exactly the strings that fully match `^\w+\.[\w.]*\w+$`. |
| ActionReceiver.PackageNamePatternExamples | app/src/main/java/de/redno/disabledlauncher/ActionReceiverActivity.kt:17 | `a.b` and `com.example_1.app` match. `ab`, `.a`, `a.` and `a b.c` do not. |
| ActionReceiver.Error | app/src/main/java/de/redno/disabledlauncher/ActionReceiverActivity.kt:47-55 | The error always toasts the message first. It opens the main screen exactly when asked to. |
| ActionReceiver.Dispatch | app/src/main/java/de/redno/disabledlauncher/ActionReceiverActivity.kt:14-41 | The `when` on the action before `finish()`, with the commands run by the given executor; `DispatchOpenApp`, `DispatchDisableAll` and `RejectedIntents` state its branches. |
| ActionReceiver.OnCreate | app/src/main/java/de/redno/disabledlauncher/ActionReceiverActivity.kt:11-45 | The dispatch followed by `finish()` unless an exception escaped. `RejectedIntents` states the whole outcome of a rejected intent (error toast, main screen, `finish()`), `OpenAppIntentFinishes`, `OpenAppFailureReport` and `DisableAllIntentReport` that of the two actions, and `OnCreateCorrected`, `OnCreateAsWritten` and `StorePageFailureSkipsFinish` what escapes. |
| ActionReceiver.ActionsDiffer | app/src/main/java/de/redno/disabledlauncher/ActionReceiverActivity.kt:15-30 | The "open app" and "disable all" actions differ whatever the receiver's package name, so the `when` never confuses them. |
| ActionReceiver.DispatchOpenApp | app/src/main/java/de/redno/disabledlauncher/ActionReceiverActivity.kt:15-24 | A valid "open app" intent runs `openAppLogic` on the app's details inside the `catch`, and a redirect keeps the main screen closed. |
| ActionReceiver.DispatchDisableAll | app/src/main/java/de/redno/disabledlauncher/ActionReceiverActivity.kt:30-38 | A "disable all" intent runs `disableAllApps` inside the `catch`, and every reported failure opens the main screen (`error(it)` uses the default `openMainActivity = true`). |
| ActionReceiver.CaughtThenFinished | app/src/main/java/de/redno/disabledlauncher/ActionReceiverActivity.kt:18-44 | After the `catch` and `finish()`: success finishes after the attempt's effects; a `DisabledLauncherException` is reported and then finishes; any other exception escapes unchanged, without `finish()`. |
| ActionReceiver.OnCreateCorrected | app/src/main/java/de/redno/disabledlauncher/ActionReceiverActivity.kt:11-45 | With a failed spawn reported as "process failure", an exception escapes exactly for a valid "open app" intent whose disabled app fails to enable with the fallback on and no activity to show the store page. It is then the `ActivityNotFoundException` and `finish()` is skipped; in every other case `finish()` is the last effect. |
| ActionReceiver.StorePageFailureSkipsFinish | app/src/main/java/de/redno/disabledlauncher/ActionReceiverActivity.kt:15-44 | On either executor, a shortcut to a disabled app whose `pm enable` exits with 1, with the fallback on and nothing to show the store page, ends with the `ActivityNotFoundException` right after the command: no toast, no store page and no `finish()`. |
| ActionReceiver.OnCreateAsWritten | app/src/main/java/de/redno/disabledlauncher/ActionReceiverActivity.kt:11-45 | As written, `finish()` is the last effect whenever nothing escapes. An exception that escapes is either the `IllegalStateException` of a failed spawn or the `ActivityNotFoundException` of a store page that cannot be shown (only in the case `OnCreateCorrected` names), and then `finish()` is skipped. |
| ActionReceiver.ReceiverSkipsFinishAsWritten | app/src/main/java/de/redno/disabledlauncher/MainActivity.kt:190-197 | For a shortcut to a disabled app with the permission granted, the spawn failing and the store fallback on, the code as written throws after `pm enable` with no store page and no `finish()`; with the failure reported, the store page opens and the receiver finishes. |
| ActionReceiver.RejectedIntents | app/src/main/java/de/redno/disabledlauncher/ActionReceiverActivity.kt:14-45 | On either executor, an "open app" intent whose name is missing or does not match the pattern ends with nothing thrown and exactly the "intent extras incorrect" toast, the main screen and `finish()`. An unknown action ends with nothing thrown and exactly the "intent action incorrect" toast, the main screen and `finish()`. |
| ActionReceiver.OpenAppIntentFinishes | app/src/main/java/de/redno/disabledlauncher/ActionReceiverActivity.kt:15-44 | A valid "open app" intent gives the caught outcome of opening the app followed by `finish()`, unless opening throws something other than a `DisabledLauncherException`, which escapes unchanged. With a failed spawn reported, the only other exception opening can throw is the `ActivityNotFoundException` of a store page that cannot be shown. |
| ActionReceiver.OpenAppFailureReport | app/src/main/java/de/redno/disabledlauncher/ActionReceiverActivity.kt:18-24 | After an open that fails with a `DisabledLauncherException`, a store redirect never opens the main screen. Any other such failure with a text toasts it, opens the main screen and finishes. A failure without a text only finishes. Any other exception escapes unchanged, without `finish()`. |
| ActionReceiver.DisableAllIntentReport | app/src/main/java/de/redno/disabledlauncher/ActionReceiverActivity.kt:30-44 | After "disable all": success only finishes. A `DisabledLauncherException` with a text toasts it, opens the main screen and finishes. One without a text only finishes. Any other exception escapes unchanged, without `finish()`. |
| ActionReceiver.OpenAppLogicNeverOpensMain | app/src/main/java/de/redno/disabledlauncher/service/AppService.kt:127-134 | Opening an app never shows the main screen by itself. |
| Components.SearchTerms | app/src/main/java/de/redno/disabledlauncher/ui/components/Common.kt:326 | The query always yields at least one term, and no term contains a space. |
| Components.FilterBySearch | app/src/main/java/de/redno/disabledlauncher/ui/components/Common.kt:324-330 | The search filter of the list; `FilterBySearchKeepsMatches` states which apps it keeps and `FilterBySearchKeepsOrder` that they keep their order. |
| Components.FilterBySearchKeepsOrder | app/src/main/java/de/redno/disabledlauncher/ui/components/Common.kt:324-330 | Filtering a list in two parts gives the two filtered parts one after the other, so the shown apps keep their relative order. |
| Components.FilterBySearchKeepsMatches | app/src/main/java/de/redno/disabledlauncher/ui/components/Common.kt:324-330 | An app is shown exactly when it is in the list and every search term occurs in `"<name> <packageName>"`, each part trimmed and lowercased. |
| Components.BlankSearchShowsAll | app/src/main/java/de/redno/disabledlauncher/ui/components/Common.kt:326-329 | A blank query is the single empty term, and every app is shown in its order. |
| Components.SearchByPackageName | app/src/main/java/de/redno/disabledlauncher/ui/components/Common.kt:326-329 | Typing an app's package name finds it when the name is already trimmed, lowercase and free of spaces. |
| Components.InstalledFirst | app/src/main/java/de/redno/disabledlauncher/ui/components/Common.kt:331 | `sortedBy { !it.isInstalled }`; `InstalledFirstIsStableSort` proves it a stable sort on that key. |
| Components.InstalledFirstIsStableSort | app/src/main/java/de/redno/disabledlauncher/ui/components/Common.kt:331 | No uninstalled app comes before an installed one. Every app is kept as often as it occurs. Within each group the apps keep their relative order. |
| Components.AppList | app/src/main/java/de/redno/disabledlauncher/ui/components/Common.kt:297-336 | The items of the shared list: the search filter, then installed first; `AppListShowsMatchesInstalledFirst` states the result. |
| Components.AppListShowsMatchesInstalledFirst | app/src/main/java/de/redno/disabledlauncher/ui/components/Common.kt:324-331 | The list holds exactly the matching apps, installed first, each group in its original order. |
| Components.Deselect | app/src/main/java/de/redno/disabledlauncher/ui/components/Common.kt:287 | No entry with the package name is left, and every other entry stays. |
| Components.DeselectUndoesSelect | app/src/main/java/de/redno/disabledlauncher/ui/components/Common.kt:282-289 | Checking an unchecked app and unchecking it again restores the selection. |
| Components.Selection.Toggle | app/src/main/java/de/redno/disabledlauncher/ui/components/Common.kt:282-289 | An unchecked app is appended. A checked app is removed together with every entry of the same package. Either way the checkbox (any entry with the same package name) flips. |
| Components.ErrorToast | app/src/main/java/de/redno/disabledlauncher/ui/components/Common.kt:268-270 | The short toast of a failed click: the failure's localised text, or nothing when it has none. |
| Components.OnAppClick | app/src/main/java/de/redno/disabledlauncher/ui/components/Common.kt:259-276 | A click on an uninstalled app does nothing. After a failed open the list is unchanged: a `DisabledLauncherException` only toasts its text, if any, and any other exception is left uncaught, with no toast. After a successful open, the main task is closed. The package is raised exactly when `sortAppsByUsage` is set, the list was read, the package is raisable and the write succeeded; otherwise the list is unchanged. |
| SelectMultipleApps.NameLeTotal | app/src/main/java/de/redno/disabledlauncher/ui/screens/SelectMultipleAppsScreen.kt:154 | Any two names are comparable. |
| SelectMultipleApps.NameLeTransitive | app/src/main/java/de/redno/disabledlauncher/ui/screens/SelectMultipleAppsScreen.kt:154 | The name order is transitive. |
| SelectMultipleApps.NameLeAntisymmetric | app/src/main/java/de/redno/disabledlauncher/ui/screens/SelectMultipleAppsScreen.kt:154 | Two names that are each at most the other are equal. |
| SelectMultipleApps.InsertCounts | app/src/main/java/de/redno/disabledlauncher/ui/screens/SelectMultipleAppsScreen.kt:154 | Insertion adds exactly the one app. |
| SelectMultipleApps.InsertSorted | app/src/main/java/de/redno/disabledlauncher/ui/screens/SelectMultipleAppsScreen.kt:154 | Insertion keeps a name-sorted list sorted. |
| SelectMultipleApps.InsertKeepsNameGroups | app/src/main/java/de/redno/disabledlauncher/ui/screens/SelectMultipleAppsScreen.kt:154 | Insertion puts the app ahead of its equal names, so each name's entries keep their order. |
| SelectMultipleApps.SortByName | app/src/main/java/de/redno/disabledlauncher/ui/screens/SelectMultipleAppsScreen.kt:154 | `sortedBy { it.name }` as insertion sort; `SortByNameIsStableSort` proves it a stable sort by name. |
| SelectMultipleApps.SortByNameIsStableSort | app/src/main/java/de/redno/disabledlauncher/ui/screens/SelectMultipleAppsScreen.kt:154 | `sortedBy { it.name }` is sorted and a permutation. Apps with the same name keep their relative order. |
| SelectMultipleApps.FilterKeepsSorted | app/src/main/java/de/redno/disabledlauncher/ui/screens/SelectMultipleAppsScreen.kt:154-155 | Any sub-list of a name-sorted list is name-sorted. |
| SelectMultipleApps.SelectableAppList | app/src/main/java/de/redno/disabledlauncher/ui/screens/SelectMultipleAppsScreen.kt:147-155 | The items of the multi-select list: search filter, sort by name, then installed first; `SelectableAppListOrder` states the result. |
| SelectMultipleApps.SelectableAppListOrder | app/src/main/java/de/redno/disabledlauncher/ui/screens/SelectMultipleAppsScreen.kt:147-155 | The list is a permutation of the matching apps, installed first. Each group is sorted by name and holds that group's matching apps. |
| SelectMultipleApps.OnConfirm | app/src/main/java/de/redno/disabledlauncher/ui/screens/SelectMultipleAppsScreen.kt:58-69 | Confirming hands on the selection exactly when it is non-empty, as a copy in the order the apps were ticked and with no toast. An empty selection only toasts "no apps selected". |
| MainActivity.ExecuteAdbCommandAsWritten | app/src/main/java/de/redno/disabledlauncher/MainActivity.kt:190-197 | A failed permission check is this copy's outcome. Unless the permission is granted and the spawn fails, the copy agrees with the service's execution. It throws `IllegalStateException` exactly when the permission is granted and the spawn fails, after the command. |
| MainActivity.SpawnFailureEscapesAsWritten | app/src/main/java/de/redno/disabledlauncher/MainActivity.kt:190-197 | With permission granted and a failed spawn, this copy throws an exception that is not a `DisabledLauncherException`, while the service version reports "process failure". |
| MainActivity.GetDetailsForPackage | app/src/main/java/de/redno/disabledlauncher/MainActivity.kt:117-142 | An installed package gets the service's details with no list. An unknown package gets the same details with the "app not found" label: the queried name, disabled, not installed. |
| MainActivity.EnableApp | app/src/main/java/de/redno/disabledlauncher/MainActivity.kt:144-162 | `pm enable <package>` with the Play Store fallback and no toast, on the given executor; `EnableAppAgreesWithService` states its outcome. |
| MainActivity.EnableAppAgreesWithService | app/src/main/java/de/redno/disabledlauncher/MainActivity.kt:144-162 | On the corrected executor this copy equals the service's `enableApp` without a toast, including the store fallback. As written it equals that unless the spawn fails; then the `IllegalStateException` escapes after the command, with no store page and no redirect. |
| MainActivity.DisableApp | app/src/main/java/de/redno/disabledlauncher/MainActivity.kt:179-188 | `pm disable-user --user 0 <package>`, then always a toast naming the package, on the given executor; `DisableAppAgreesWithService` states its outcome. |
| MainActivity.DisableAppAgreesWithService | app/src/main/java/de/redno/disabledlauncher/MainActivity.kt:179-188 | On the corrected executor this copy equals the service's `disableApp` with a toast, for an app labelled with its package name. As written it equals that unless the spawn fails; then the `IllegalStateException` escapes after the command, with no toast. |
| MainActivity.PackagesToDisable | app/src/main/java/de/redno/disabledlauncher/MainActivity.kt:166-167 | The tracked names whose details report the app enabled, in list order; `PackagesToDisableKeepsEnabled` states it. |
| MainActivity.PackagesToDisableKeepsEnabled | app/src/main/java/de/redno/disabledlauncher/MainActivity.kt:166-167 | The kept names are exactly the tracked names whose details report the app enabled. |
| MainActivity.DisableAllOutcome | app/src/main/java/de/redno/disabledlauncher/MainActivity.kt:164-177 | The specification of this copy's `disableAllApps` on the given executor; `DisableAllDisablesEnabledInOrder` states its outcome. |
| MainActivity.DisableAllApps | app/src/main/java/de/redno/disabledlauncher/MainActivity.kt:164-177 | The `for` loop method returns exactly what `DisableAllOutcome` specifies for the stored document, on either executor. |
| MainActivity.EachDisableRunsItsCommand | app/src/main/java/de/redno/disabledlauncher/MainActivity.kt:174-176 | Each successful disable in the loop ran exactly its own command, on either executor. |
| MainActivity.DisableAllDisablesEnabledInOrder | app/src/main/java/de/redno/disabledlauncher/MainActivity.kt:164-177 | On either executor: with no enabled tracked name, there is no command and only the "nothing to disable" toast. After a full success, the commands are exactly one disable per kept name, in list order. When a disable fails, the first `k` disables succeeded, the failure is that of name `k`, and no name after `k` received a command. |
| MainActivity.DisableAllThrowsOnlyDisabledLauncherException | app/src/main/java/de/redno/disabledlauncher/MainActivity.kt:164-177 | On the corrected executor, whatever this copy throws is a `DisabledLauncherException`. |
| MainActivity.DisableAppSpawnFailureAsWritten | app/src/main/java/de/redno/disabledlauncher/MainActivity.kt:179-197 | As written, a single disable throws something other than a `DisabledLauncherException` only as the `IllegalStateException` of a failed spawn. |
| MainActivity.EachSpawnFailureAsWritten | app/src/main/java/de/redno/disabledlauncher/MainActivity.kt:174-197 | As written, the disable loop lets an exception other than a `DisabledLauncherException` escape only as the `IllegalStateException` of the first failing disable, whose spawn failed after all earlier disables succeeded. |
| MainActivity.DisableAllSpawnFailureAsWritten | app/src/main/java/de/redno/disabledlauncher/MainActivity.kt:164-197 | As written, `disableAllApps` throws something other than a `DisabledLauncherException` only as the `IllegalStateException` of a failed spawn for some enabled name, after every earlier disable succeeded. |
| MainActivity.OpenAppLogicAgreesWithService | app/src/main/java/de/redno/disabledlauncher/MainActivity.kt:199-206 | On the corrected executor this copy equals the service's `openAppLogic`: it enables exactly the disabled apps, starts only after a successful enable, and throws only `DisabledLauncherException`s, except the `ActivityNotFoundException` of a store page that cannot be shown after a disabled app's failed enable. As written it equals that except for a disabled app whose enable fails to spawn; then the `IllegalStateException` escapes after `pm enable`, with no store page and no start. |
| MainActivity.Details | app/src/main/java/de/redno/disabledlauncher/MainActivity.kt:351-353 | Each tracked name maps to this copy's details, index by index. |
| MainActivity.AppList | app/src/main/java/de/redno/disabledlauncher/MainActivity.kt:328-365 | This copy's list: the details of the tracked packages, filtered and ordered as the shared list; `AppListShowsTrackedMatches` states the result. |
| MainActivity.AppListShowsTrackedMatches | app/src/main/java/de/redno/disabledlauncher/MainActivity.kt:328-365 | The list shows the details of exactly those tracked packages that match the search, installed ones first. |
| Strings.Trim | app/src/main/java/de/redno/disabledlauncher/ui/components/Common.kt:326 | The result is a slice of the input with only whitespace before and after it, and it has no whitespace at either end; an all-blank string trims to empty. |
| Strings.TrimIsSlice | app/src/main/java/de/redno/disabledlauncher/ui/components/Common.kt:326 | Trimming the start and then the end leaves exactly the slice after the leading whitespace, with only whitespace after it. |
| Strings.Split | app/src/main/java/de/redno/disabledlauncher/ui/components/Common.kt:326 | `split(" ")` yields at least one part, and no part contains the separator. |
| Strings.JoinSplit | app/src/main/java/de/redno/disabledlauncher/ui/components/Common.kt:326 | Joining the parts with the separator gives back the string. |
| Strings.SplitJoin | app/src/main/java/de/redno/disabledlauncher/ui/components/Common.kt:326 | Splitting parts that were joined gives back the parts. |

## Left out

- File I/O and JSON: the document is read as a whole (`Option<seq<string>>`), and a write either replaces it or fails, an input to each mutator. Partial writes and the choice between the internal and a user-picked file (`getLaunchableAppsFileUri`) are not modelled. The two constructors of `PackageStore` stand for the internal file (created as `{"packages":[]}`) and a picked one.
- Threads: `Thread { }.start()`, toasts posted to the main thread, and races between concurrent read-modify-write calls on the document are not modelled. Every operation runs to completion on its own.
- Datasource.RaiseIndex: `floor((oldIndex * 2) / 3f)` is taken as the integer `(2 * i) / 3`. Float rounding for lists of millions of entries is not modelled.
- Strings.Lowercase: `lowercase()` is modelled as ASCII case folding only. `trim()` is modelled on ASCII whitespace only, and `\w` as `[A-Za-z0-9_]` (Java's default).
- SelectMultipleApps.NameLeTotal: `String.compareTo` is modelled as lexicographic order on Unicode code points (a Dafny `char` is a scalar value), a prefix first. Kotlin compares UTF-16 code units, so the two orders differ only between a character above U+FFFF and one in U+E000 to U+FFFF: Kotlin sorts the first before the second (its leading surrogate is below U+E000), the model after. `SelectMultipleApps.SortByName` and `SelectMultipleApps.SelectableAppListOrder` inherit this.
- AppService.GetDetailsForPackage: a package whose `applicationInfo` is null is not modelled separately; the package manager either knows the package with its label and enabled flag or does not.
- MainActivity.GetDetailsForPackage: the older copy reads `packageInfo.applicationInfo` without `?.` (MainActivity.kt:123-125), so a package whose application info is null throws a `NullPointerException`. No `catch` of its callers handles that. The model assumes every known package has its application info, and gives the service's details.
- ActionReceiver.OnCreateCorrected: also assumes no tracked or requested package has a null `applicationInfo`. Otherwise the older `getDetailsForPackage` throws a `NullPointerException`, which escapes the receiver's `catch (e: DisabledLauncherException)` without `finish()`. `ActionReceiver.OnCreateAsWritten` and `MainActivity.PackagesToDisable` rest on the same assumption.
- Labels, icons and bitmaps are left out; an app's label is a plain string and the "unknown app" and "app not found" labels come from the device's string table.
- The broker is asked once per command: each command gets its own `Shell` observation, and the model does not tie the answers for different commands together. The same command string always gets the same answer, so a package tracked twice under "disable all" is assumed to see the same broker and exit code both times.
- Messages of the three Shizuku exceptions (`NoShizukuPermissionException.kt:6`, `ShizukuUnavailableException.kt:6`, `ShizukuVersionNotSupportedException.kt:6-7`) and the older "process failure" text (`MainActivity.kt:195`) are looked up with `Resources.getSystem().getString(...)`. The system table does not hold the app's own strings, so on a device that lookup would throw `Resources.NotFoundException`, which is neither an `IllegalStateException` nor a `DisabledLauncherException`. The model assumes the lookup returns a text and keeps it as a resource identifier. The members below rest on that assumption.
- AdbService.CheckShizukuPermission: assumes the Shizuku exceptions can be built; with the lookup failing, every failing check would throw `Resources.NotFoundException` instead.
- AdbService.ExecuteAdbCommand: "everything thrown is a `DisabledLauncherException`" assumes the Shizuku exceptions can be built.
- AppService.EnableAppOutcome: the store fallback on a failed permission check assumes the Shizuku exceptions can be built.
- AppService.OpenAppLogic: "everything thrown is a `DisabledLauncherException` or the store page's `ActivityNotFoundException`" assumes the Shizuku exceptions can be built.
- MainActivity.ExecuteAdbCommandAsWritten: assumes both the Shizuku exceptions and the "process failure" exception at line 195 can be built.
- MainActivity.DisableAllThrowsOnlyDisabledLauncherException: assumes the Shizuku exceptions can be built.
- MainActivity.OpenAppLogicAgreesWithService: "throws only `DisabledLauncherException`s, apart from the store page's `ActivityNotFoundException`" assumes the Shizuku exceptions can be built.
- ActionReceiver.OnCreateCorrected: assumes the Shizuku exceptions can be built; with the lookup failing, a failed permission check would escape the receiver without `finish()`.
- ActionReceiver.OnCreateAsWritten: "only an `IllegalStateException` or an `ActivityNotFoundException` can escape" assumes both lookups succeed.
- `MainActivity.lastObject?.finishAndRemoveTask()` is modelled as the effect `FinishMainTask`; whether `lastObject` is null is not modelled.
- `Common.kt:240` calls a three-argument `removePackage` that `Datasource.kt` does not define. The entry's "remove" menu item is therefore not modelled; `Datasource.PackageStore.RemovePackage` models the two-argument function as written.
- `ListType` is defined outside the modelled files, so it is an uninterpreted tag (`string`). `AppEntryInList` of the older copies is represented by `App` with no list type.
- `ShizukuException.kt` and `RedirectedToGooglePlayException.kt` are not part of this model. The Shizuku exceptions are taken as `DisabledLauncherException`s, as `executeAdbCommand` declares, and the redirect is built from its cause alone.
- Compose layout, navigation, shortcut pinning, the settings screens and the other copies of the filter rule are outside the modelled core.

## Findings

| source | as written | input that shows it | evidently intended | confidence | as-written member | corrected member |
|---|---|---|---|---|---|---|
| app/src/main/java/de/redno/disabledlauncher/MainActivity.kt:190-197 | The older `executeAdbCommand` has no `catch` around `Shizuku.newProcess`. An `IllegalStateException` from spawning escapes as it is. No `catch (e: DisabledLauncherException)` of its callers handles it, so in the shortcut receiver `finish()` is skipped. | Broker supports v11+ and grants the permission; `newProcess` throws `IllegalStateException`. | Report "process failure" as a `DisabledLauncherException`, as `AdbService.executeAdbCommand` does. With that, the receiver finishes after every failure it catches; only a store page that cannot be shown still escapes. | not executed | ActionReceiver.ReceiverSkipsFinishAsWritten | ActionReceiver.OnCreateCorrected |
