/**
 * The shortcut receiver (`ActionReceiverActivity`): it validates the package name carried by an
 * "open app" intent, dispatches on the intent's action, reports failures and closes itself unless an exception escapes.
 */
module ActionReceiver {
  import opened Wrappers
  import opened Exceptions
  import opened Platform
  import opened AppService
  import AdbService
  import MainActivity

  const OpenAppAction := ".action.OPEN_APP"
  const DisableAllAppsAction := ".action.DISABLE_ALL_APPS"

  /** Java's `\w`: an ASCII letter, digit or underscore. */
  predicate IsWordChar(c: char) {
    ('A' <= c <= 'Z') || ('a' <= c <= 'z') || ('0' <= c <= '9') || c == '_'
  }

  predicate AllWord(s: string) {
    forall i :: 0 <= i < |s| ==> IsWordChar(s[i])
  }

  predicate AllWordOrDot(s: string) {
    forall i :: 0 <= i < |s| ==> IsWordChar(s[i]) || s[i] == '.'
  }

  /**
   * A full match of `^\w+\.[\w.]*\w+$`: a run of word characters, a dot, any word characters and dots,
   * and a final run of word characters, with the dot at `dot` and the final run starting at `last`.
   */
  ghost predicate MatchesPackageNamePattern(s: string) {
    exists dot, last :: 0 < dot < last < |s| && MatchesAt(s, dot, last)
  }

  ghost predicate MatchesAt(s: string, dot: int, last: int)
    requires 0 < dot < last < |s|
  {
    AllWord(s[..dot]) && s[dot] == '.' && AllWordOrDot(s[dot + 1..last]) && AllWord(s[last..])
  }

  /** The validator as a character-class test: word characters and dots only, word characters at both ends, a dot somewhere. */
  predicate IsValidPackageName(s: string) {
    && |s| > 0
    && AllWordOrDot(s)
    && IsWordChar(s[0])
    && IsWordChar(s[|s| - 1])
    && '.' in s
  }

  /** The position of the first dot, or the length when there is none. */
  function FirstDot(s: string): (i: nat)
    ensures i <= |s|
    ensures i < |s| ==> s[i] == '.'
    ensures forall k :: 0 <= k < i ==> s[k] != '.'
  {
    if s == [] || s[0] == '.' then 0 else 1 + FirstDot(s[1..])
  }

  /** The character-class test accepts exactly the names that the regular expression matches. */
  lemma ValidPackageNameIffPattern(s: string)
    ensures IsValidPackageName(s) <==> MatchesPackageNamePattern(s)
  {
    if IsValidPackageName(s) {
      var dot := FirstDot(s);
      assert dot < |s| by {
        var j :| 0 <= j < |s| && s[j] == '.';
      }
      var last := |s| - 1;
      assert 0 < dot < last;
      assert MatchesAt(s, dot, last) by {
        forall k | 0 <= k < dot ensures IsWordChar(s[..dot][k]) {
          assert s[..dot][k] == s[k];
        }
        var middle := s[dot + 1..last];
        forall k | 0 <= k < |middle| ensures IsWordChar(middle[k]) || middle[k] == '.' {
          assert middle[k] == s[dot + 1 + k];
        }
        assert s[last..] == [s[last]];
      }
    }
    if MatchesPackageNamePattern(s) {
      var dot, last :| 0 < dot < last < |s| && MatchesAt(s, dot, last);
      assert s[..dot][0] == s[0];
      assert s[last..][|s| - 1 - last] == s[|s| - 1];
      forall k | 0 <= k < |s| ensures IsWordChar(s[k]) || s[k] == '.' {
        if k < dot {
          assert s[..dot][k] == s[k];
        } else if dot < k < last {
          assert s[dot + 1..last][k - dot - 1] == s[k];
        } else if last <= k {
          assert s[last..][k - last] == s[k];
        }
      }
    }
  }

  /** `a.b` and `com.example_1.app` are accepted; `ab`, `.a`, `a.` and `a b.c` are rejected. */
  lemma PackageNamePatternExamples()
    ensures MatchesPackageNamePattern("a.b")
    ensures MatchesPackageNamePattern("com.example_1.app")
    ensures !MatchesPackageNamePattern("ab")
    ensures !MatchesPackageNamePattern(".a")
    ensures !MatchesPackageNamePattern("a.")
    ensures !MatchesPackageNamePattern("a b.c")
  {
    ValidPackageNameIffPattern("a.b");
    ValidPackageNameIffPattern("com.example_1.app");
    assert "com.example_1.app"[3] == '.';
    ValidPackageNameIffPattern("ab");
    ValidPackageNameIffPattern(".a");
    ValidPackageNameIffPattern("a.");
    ValidPackageNameIffPattern("a b.c");
    assert !IsWordChar("a b.c"[1]);
  }

  /** What the receiver reads from its intent: the action and the `package_name` extra. */
  datatype Intent = Intent(action: Option<string>, packageNameExtra: Option<string>)

  /** `error`: a long toast, then the main screen unless told otherwise. */
  function Error(message: Message, openMainActivity: bool): (effects: seq<Effect>)
    ensures |effects| > 0 && effects[0] == ShowToast(message)
    ensures OpenMainActivity in effects <==> openMainActivity
  {
    [ShowToast(message)] + (if openMainActivity then [OpenMainActivity] else [])
  }

  /** `e.getLocalizedMessage(this)?.let { error(it, openMainActivity) }`: nothing at all for a null message. */
  function ReportFailure(e: Throwable, openMainActivity: bool): seq<Effect>
    requires IsDisabledLauncherException(e)
  {
    match GetLocalizedMessage(e)
    case Some(message) => Error(message, openMainActivity)
    case None => []
  }

  /**
   * A `try` with `catch (e: DisabledLauncherException)` around `attempt`: any other exception is not caught.
   * The report opens the main screen unless `mainClosedOnRedirect` is set and the failure is a store redirect.
   */
  function Caught(attempt: Run, mainClosedOnRedirect: bool): Run {
    match attempt.thrown
    case Some(e) =>
      if IsDisabledLauncherException(e) then
        Run(None, attempt.effects + ReportFailure(e, !(mainClosedOnRedirect && e.RedirectedToGooglePlayException?)))
      else attempt
    case None => attempt
  }

  /** The `when` on the action, before `finish()`, with the commands run by the given executor. */
  function Dispatch(executor: MainActivity.Executor, self: string, intent: Intent, device: Device, prefs: Preferences,
                    document: Option<seq<string>>): Run {
    if intent.action == Some(self + OpenAppAction) then
      if intent.packageNameExtra.Some? && IsValidPackageName(intent.packageNameExtra.value) then
        var packageName := intent.packageNameExtra.value;
        Caught(MainActivity.OpenAppLogic(executor, device, prefs, MainActivity.GetDetailsForPackage(device, packageName)), true)
      else Run(None, Error(Resource(IntentExtrasIncorrect), true))
    else if intent.action == Some(self + DisableAllAppsAction) then
      Caught(MainActivity.DisableAllOutcome(executor, device, document), false)
    else Run(None, Error(Resource(IntentActionIncorrect), true))
  }

  /** `finish()` after the dispatch, unless an exception escaped it. */
  function Finished(dispatched: Run): Run {
    if dispatched.thrown.None? then Run(None, dispatched.effects + [FinishActivity]) else dispatched
  }

  /** `onCreate`: the dispatch, then `finish()` unless an exception escaped it. */
  function OnCreate(executor: MainActivity.Executor, self: string, intent: Intent, device: Device, prefs: Preferences,
                    document: Option<seq<string>>): Run {
    Finished(Dispatch(executor, self, intent, device, prefs, document))
  }

  /**
   * A caught attempt followed by `finish()`: success finishes after the attempt's effects, a
   * `DisabledLauncherException` is reported and then finishes, and any other exception escapes unchanged.
   */
  lemma CaughtThenFinished(attempt: Run, mainClosedOnRedirect: bool)
    ensures var r := Finished(Caught(attempt, mainClosedOnRedirect));
            && (attempt.thrown.None? ==> r == Run(None, attempt.effects + [FinishActivity]))
            && (attempt.thrown.Some? && !IsDisabledLauncherException(attempt.thrown.value) ==> r == attempt)
            && (attempt.thrown.Some? && IsDisabledLauncherException(attempt.thrown.value) ==>
                  var e := attempt.thrown.value;
                  r == Run(None, attempt.effects + ReportFailure(e, !(mainClosedOnRedirect && e.RedirectedToGooglePlayException?)) + [FinishActivity]))
  {
  }

  /** A valid "open app" intent is dispatched to the caught `openAppLogic`, whose report keeps the main screen closed on a redirect. */
  lemma DispatchOpenApp(executor: MainActivity.Executor, self: string, packageName: string, device: Device,
                        prefs: Preferences, document: Option<seq<string>>)
    requires IsValidPackageName(packageName)
    ensures Dispatch(executor, self, Intent(Some(self + OpenAppAction), Some(packageName)), device, prefs, document)
              == Caught(MainActivity.OpenAppLogic(executor, device, prefs, MainActivity.GetDetailsForPackage(device, packageName)), true)
  {
  }

  /** A "disable all" intent is dispatched to the caught `disableAllApps`, whose report always opens the main screen. */
  lemma DispatchDisableAll(executor: MainActivity.Executor, self: string, intent: Intent, device: Device,
                           prefs: Preferences, document: Option<seq<string>>)
    requires intent.action == Some(self + DisableAllAppsAction)
    ensures Dispatch(executor, self, intent, device, prefs, document)
              == Caught(MainActivity.DisableAllOutcome(executor, device, document), false)
  {
    ActionsDiffer(self);
  }

  /** The two actions are told apart whatever the receiver's package name is. */
  lemma ActionsDiffer(self: string)
    ensures self + OpenAppAction != self + DisableAllAppsAction
  {
    assert (self + OpenAppAction)[|self|] == '.';
    assert (self + OpenAppAction)[|self| + 8] == 'O';
    assert (self + DisableAllAppsAction)[|self| + 8] == 'D';
  }

  /**
   * A valid "open app" intent for a disabled app whose enable fails, with the Play Store fallback on and no
   * activity to show the store page: the `ActivityNotFoundException` of `startActivity` is not caught.
   */
  predicate StorePageEscapes(self: string, intent: Intent, device: Device, prefs: Preferences) {
    && intent.action == Some(self + OpenAppAction)
    && intent.packageNameExtra.Some? && IsValidPackageName(intent.packageNameExtra.value)
    && var entry := MainActivity.GetDetailsForPackage(device, intent.packageNameExtra.value);
       && !entry.isEnabled
       && Execute(device, EnableCommand(entry.packageName)).thrown.Some?
       && StorePageFails(device, prefs, entry.packageName)
  }

  /**
   * With commands that report a failed spawn, the receiver finishes unless the store page cannot be shown:
   * every `DisabledLauncherException` of the operations it calls is caught, and `finish()` comes last; the
   * `ActivityNotFoundException` of a missing store page escapes without `finish()`, and nothing else does.
   */
  lemma OnCreateCorrected(self: string, intent: Intent, device: Device, prefs: Preferences, document: Option<seq<string>>)
    ensures var r := OnCreate(MainActivity.Corrected, self, intent, device, prefs, document);
            && (r.thrown.Some? <==> StorePageEscapes(self, intent, device, prefs))
            && (r.thrown.None? ==> |r.effects| > 0 && r.effects[|r.effects| - 1] == FinishActivity)
            && (r.thrown.Some? ==> r.thrown == Some(ActivityNotFoundException)
                                     && r == Dispatch(MainActivity.Corrected, self, intent, device, prefs, document))
  {
    if intent.action == Some(self + OpenAppAction) {
      if intent.packageNameExtra.Some? && IsValidPackageName(intent.packageNameExtra.value) {
        var packageName := intent.packageNameExtra.value;
        var entry := MainActivity.GetDetailsForPackage(device, packageName);
        MainActivity.OpenAppLogicAgreesWithService(device, prefs, entry);
        DispatchOpenApp(MainActivity.Corrected, self, packageName, device, prefs, document);
        CaughtThenFinished(MainActivity.OpenAppLogic(MainActivity.Corrected, device, prefs, entry), true);
      }
    } else if intent.action == Some(self + DisableAllAppsAction) {
      MainActivity.DisableAllThrowsOnlyDisabledLauncherException(device, document);
    }
  }

  /**
   * As written, `onCreate` finishes whenever nothing escapes; what can escape is the `IllegalStateException`
   * of a failed spawn or the `ActivityNotFoundException` of a missing store page, and then `finish()` is
   * skipped and the outcome is the dispatch's.
   */
  lemma OnCreateAsWritten(self: string, intent: Intent, device: Device, prefs: Preferences, document: Option<seq<string>>)
    ensures var r := OnCreate(MainActivity.AsWritten, self, intent, device, prefs, document);
            && (r.thrown.None? ==> |r.effects| > 0 && r.effects[|r.effects| - 1] == FinishActivity)
            && (r.thrown.Some? ==> (r.thrown == Some(IllegalStateException) || r.thrown == Some(ActivityNotFoundException))
                                     && r == Dispatch(MainActivity.AsWritten, self, intent, device, prefs, document))
            && (r.thrown == Some(ActivityNotFoundException) ==> StorePageEscapes(self, intent, device, prefs))
  {
    if intent.action == Some(self + OpenAppAction) {
      if intent.packageNameExtra.Some? && IsValidPackageName(intent.packageNameExtra.value) {
        var packageName := intent.packageNameExtra.value;
        var entry := MainActivity.GetDetailsForPackage(device, packageName);
        MainActivity.OpenAppLogicAgreesWithService(device, prefs, entry);
        DispatchOpenApp(MainActivity.AsWritten, self, packageName, device, prefs, document);
        CaughtThenFinished(MainActivity.OpenAppLogic(MainActivity.AsWritten, device, prefs, entry), true);
      }
    } else if intent.action == Some(self + DisableAllAppsAction) {
      MainActivity.DisableAllSpawnFailureAsWritten(device, document);
    }
  }

  /** A device where every package is installed and disabled, the permission is granted and no shell can be spawned. */
  function SpawnFailingDevice(): Device {
    Device((command: string) => Shell(Broker(Returns(false), Returns(true), Returns(false), false), SpawnThrowsIllegalState),
           (packageName: string) => Some(PackageInfo(packageName, "A", false)),
           [], (packageName: string) => Launchable, (url: string) => true, (res: StringRes) => "")
  }

  /**
   * A device where every package is installed and disabled, the permission is granted, every command exits
   * with 1, and no activity shows a URL.
   */
  function NoStoreDevice(): Device {
    Device((command: string) => Shell(Broker(Returns(false), Returns(true), Returns(false), false), Exited(1)),
           (packageName: string) => Some(PackageInfo(packageName, "A", false)),
           [], (packageName: string) => Launchable, (url: string) => false, (res: StringRes) => "")
  }

  /**
   * A shortcut to a disabled app whose `pm enable` fails, with the Play Store fallback on and nothing to show
   * the store page: on either executor `startActivity` throws after the command, nothing catches it, and the
   * receiver does not finish.
   */
  lemma StorePageFailureSkipsFinish(executor: MainActivity.Executor, self: string)
    ensures OnCreate(executor, self, Intent(Some(self + OpenAppAction), Some("a.b")), NoStoreDevice(),
                     map[FallbackToGooglePlay := true], None)
              == Run(Some(ActivityNotFoundException), [RunCommand(EnableCommand("a.b"))])
  {
    var device := NoStoreDevice();
    var prefs := map[FallbackToGooglePlay := true];
    assert IsValidPackageName("a.b") by {
      ValidPackageNameIffPattern("a.b");
      PackageNamePatternExamples();
    }
    var entry := MainActivity.GetDetailsForPackage(device, "a.b");
    assert entry == App("A", "a.b", false, true, None);
    var command := EnableCommand("a.b");
    assert !MainActivity.SpawnEscapes(device.shell(command));
    MainActivity.OpenAppLogicAgreesWithService(device, prefs, entry);
    DispatchOpenApp(executor, self, "a.b", device, prefs, None);
    var exec := Execute(device, command);
    assert exec == Run(Some(AdbService.ProcessFailureException), [RunCommand(command)]);
    assert AppService.OpenAppLogic(device, prefs, entry) == Run(Some(ActivityNotFoundException), [RunCommand(command)]);
  }

  /**
   * A shortcut to a disabled app on a device where the permission is granted but the shell cannot be spawned,
   * with the Play Store fallback on: as written the `IllegalStateException` escapes after `pm enable`, so there
   * is no store page and no `finish()`; with a failed spawn reported, the store page opens and the receiver
   * finishes.
   */
  lemma ReceiverSkipsFinishAsWritten(self: string)
    ensures var intent := Intent(Some(self + OpenAppAction), Some("a.b"));
            var prefs := map[FallbackToGooglePlay := true];
            && OnCreate(MainActivity.AsWritten, self, intent, SpawnFailingDevice(), prefs, None)
                 == Run(Some(IllegalStateException), [RunCommand(EnableCommand("a.b"))])
            && OnCreate(MainActivity.Corrected, self, intent, SpawnFailingDevice(), prefs, None)
                 == Run(None, [RunCommand(EnableCommand("a.b")), OpenUrl(StoreUrl("a.b")), FinishActivity])
  {
    var device := SpawnFailingDevice();
    var prefs := map[FallbackToGooglePlay := true];
    assert IsValidPackageName("a.b") by {
      ValidPackageNameIffPattern("a.b");
      PackageNamePatternExamples();
    }
    var entry := MainActivity.GetDetailsForPackage(device, "a.b");
    assert entry == App("A", "a.b", false, true, None);
    var command := EnableCommand("a.b");
    assert MainActivity.SpawnEscapes(device.shell(command));
    MainActivity.OpenAppLogicAgreesWithService(device, prefs, entry);
    DispatchOpenApp(MainActivity.AsWritten, self, "a.b", device, prefs, None);
    DispatchOpenApp(MainActivity.Corrected, self, "a.b", device, prefs, None);
    var exec := Execute(device, command);
    assert exec == Run(Some(AdbService.ProcessFailureException), [RunCommand(command)]);
    var redirected := RedirectedToGooglePlayException(AdbService.ProcessFailureException);
    assert AppService.OpenAppLogic(device, prefs, entry) == Run(Some(redirected), [RunCommand(command), OpenUrl(StoreUrl("a.b"))]);
    RedirectMessage(AdbService.ProcessFailureException);
  }

  /**
   * An "open app" intent without a package name matching the pattern, or an intent with an unknown action,
   * only reports the matching error, opens the main screen and finishes, on either executor.
   */
  lemma RejectedIntents(executor: MainActivity.Executor, self: string, intent: Intent, device: Device,
                        prefs: Preferences, document: Option<seq<string>>)
    ensures intent.action == Some(self + OpenAppAction)
            && (intent.packageNameExtra.None? || !MatchesPackageNamePattern(intent.packageNameExtra.value)) ==>
              OnCreate(executor, self, intent, device, prefs, document)
                == Run(None, [ShowToast(Resource(IntentExtrasIncorrect)), OpenMainActivity, FinishActivity])
    ensures intent.action != Some(self + OpenAppAction) && intent.action != Some(self + DisableAllAppsAction) ==>
              OnCreate(executor, self, intent, device, prefs, document)
                == Run(None, [ShowToast(Resource(IntentActionIncorrect)), OpenMainActivity, FinishActivity])
  {
    if intent.packageNameExtra.Some? {
      ValidPackageNameIffPattern(intent.packageNameExtra.value);
    }
  }

  /**
   * A valid "open app" intent: the caught outcome of opening the app, then `finish()`, unless the opening throws
   * something other than a `DisabledLauncherException`, which escapes as it is; with a failed spawn reported,
   * that can only be the `ActivityNotFoundException` of a store page that cannot be shown.
   */
  lemma OpenAppIntentFinishes(executor: MainActivity.Executor, self: string, packageName: string, device: Device,
                              prefs: Preferences, document: Option<seq<string>>)
    requires IsValidPackageName(packageName)
    ensures var attempt := MainActivity.OpenAppLogic(executor, device, prefs, MainActivity.GetDetailsForPackage(device, packageName));
            var r := OnCreate(executor, self, Intent(Some(self + OpenAppAction), Some(packageName)), device, prefs, document);
            && (executor == MainActivity.Corrected && attempt.thrown.Some? && !IsDisabledLauncherException(attempt.thrown.value) ==>
                  attempt.thrown == Some(ActivityNotFoundException))
            && (attempt.thrown.Some? && !IsDisabledLauncherException(attempt.thrown.value) ==> r == attempt)
            && (!(attempt.thrown.Some? && !IsDisabledLauncherException(attempt.thrown.value)) ==>
                  r == Run(None, Caught(attempt, true).effects + [FinishActivity]))
  {
    var entry := MainActivity.GetDetailsForPackage(device, packageName);
    var attempt := MainActivity.OpenAppLogic(executor, device, prefs, entry);
    DispatchOpenApp(executor, self, packageName, device, prefs, document);
    CaughtThenFinished(attempt, true);
    MainActivity.OpenAppLogicAgreesWithService(device, prefs, entry);
  }

  /**
   * For a valid "open app" intent whose opening fails with a `DisabledLauncherException`: a redirect to the Play
   * Store never opens the main screen, any other failure with a message does, and a failure without a message
   * shows nothing; any other exception escapes without `finish()`.
   */
  lemma OpenAppFailureReport(executor: MainActivity.Executor, self: string, packageName: string, device: Device,
                             prefs: Preferences, document: Option<seq<string>>)
    requires IsValidPackageName(packageName)
    ensures var attempt := MainActivity.OpenAppLogic(executor, device, prefs, MainActivity.GetDetailsForPackage(device, packageName));
            var r := OnCreate(executor, self, Intent(Some(self + OpenAppAction), Some(packageName)), device, prefs, document);
            attempt.thrown.Some? ==>
              && (!IsDisabledLauncherException(attempt.thrown.value) ==> r == attempt)
              && (IsDisabledLauncherException(attempt.thrown.value) ==>
                    && (attempt.thrown.value.RedirectedToGooglePlayException? ==> OpenMainActivity !in r.effects)
                    && (!attempt.thrown.value.RedirectedToGooglePlayException? && GetLocalizedMessage(attempt.thrown.value).Some? ==>
                          r.effects == attempt.effects + [ShowToast(GetLocalizedMessage(attempt.thrown.value).value), OpenMainActivity, FinishActivity])
                    && (GetLocalizedMessage(attempt.thrown.value).None? ==> r.effects == attempt.effects + [FinishActivity]))
  {
    var entry := MainActivity.GetDetailsForPackage(device, packageName);
    var attempt := MainActivity.OpenAppLogic(executor, device, prefs, entry);
    DispatchOpenApp(executor, self, packageName, device, prefs, document);
    CaughtThenFinished(attempt, true);
    if attempt.thrown.Some? && IsDisabledLauncherException(attempt.thrown.value) {
      var e := attempt.thrown.value;
      var message := GetLocalizedMessage(e);
      if e.RedirectedToGooglePlayException? {
        MainActivity.OpenAppLogicAgreesWithService(device, prefs, entry);
        OpenAppLogicNeverOpensMain(device, prefs, entry);
        assert OpenMainActivity !in ReportFailure(e, false);
      } else if message.Some? {
        assert ReportFailure(e, true) == [ShowToast(message.value), OpenMainActivity];
        assert attempt.effects + [ShowToast(message.value), OpenMainActivity] + [FinishActivity]
            == attempt.effects + [ShowToast(message.value), OpenMainActivity, FinishActivity];
      }
      if message.None? {
        assert attempt.effects + ReportFailure(e, !e.RedirectedToGooglePlayException?) == attempt.effects;
      }
    }
  }

  /** Opening an app never shows the main screen by itself. */
  lemma OpenAppLogicNeverOpensMain(device: Device, prefs: Preferences, entry: App)
    ensures OpenMainActivity !in AppService.OpenAppLogic(device, prefs, entry).effects
  {
    var cmd := EnableCommand(entry.packageName);
    var exec := Execute(device, cmd);
    assert OpenMainActivity !in exec.effects;
  }

  /**
   * A "disable all" intent: `finish()` after the outcome when everything was disabled; a
   * `DisabledLauncherException` with a message is reported and always opens the main screen; one without a
   * message shows nothing more; any other exception escapes without `finish()`.
   */
  lemma DisableAllIntentReport(executor: MainActivity.Executor, self: string, intent: Intent, device: Device,
                               prefs: Preferences, document: Option<seq<string>>)
    requires intent.action == Some(self + DisableAllAppsAction)
    ensures var attempt := MainActivity.DisableAllOutcome(executor, device, document);
            var r := OnCreate(executor, self, intent, device, prefs, document);
            && (attempt.thrown.None? ==> r == Run(None, attempt.effects + [FinishActivity]))
            && (attempt.thrown.Some? && IsDisabledLauncherException(attempt.thrown.value)
                && GetLocalizedMessage(attempt.thrown.value).Some? ==>
                  r == Run(None, attempt.effects + [ShowToast(GetLocalizedMessage(attempt.thrown.value).value), OpenMainActivity, FinishActivity]))
            && (attempt.thrown.Some? && IsDisabledLauncherException(attempt.thrown.value)
                && GetLocalizedMessage(attempt.thrown.value).None? ==>
                  r == Run(None, attempt.effects + [FinishActivity]))
            && (attempt.thrown.Some? && !IsDisabledLauncherException(attempt.thrown.value) ==> r == attempt)
  {
    var attempt := MainActivity.DisableAllOutcome(executor, device, document);
    DispatchDisableAll(executor, self, intent, device, prefs, document);
    CaughtThenFinished(attempt, false);
    if attempt.thrown.Some? && IsDisabledLauncherException(attempt.thrown.value) {
      var e := attempt.thrown.value;
      var message := GetLocalizedMessage(e);
      if message.Some? {
        assert ReportFailure(e, true) == [ShowToast(message.value), OpenMainActivity];
        assert attempt.effects + [ShowToast(message.value), OpenMainActivity] + [FinishActivity]
            == attempt.effects + [ShowToast(message.value), OpenMainActivity, FinishActivity];
      } else {
        assert attempt.effects + ReportFailure(e, true) == attempt.effects;
      }
    }
  }
}
