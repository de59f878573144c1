/**
 * The shared app-list components (`ui/components/Common.kt`): the search filter, the
 * installed-first ordering, the selection toggle and the click-to-open rule of an app entry.
 */
module Components {
  import opened Wrappers
  import opened Exceptions
  import opened Platform
  import opened Lists
  import opened Strings
  import opened Datasource
  import opened AppService

  const SortAppsByUsage := "sortAppsByUsage"

  /** `text.trim().lowercase().split(" ")`: empty parts are kept, so a blank query is one empty term. */
  function SearchTerms(text: string): (terms: seq<string>)
    ensures |terms| >= 1
    ensures forall i :: 0 <= i < |terms| ==> ' ' !in terms[i]
  {
    Split(Lowercase(Trim(text)), ' ')
  }

  /** `"<name> <packageName>"`, each part trimmed and lowercased. */
  function SearchReference(app: App): string {
    Lowercase(Trim(app.name)) + " " + Lowercase(Trim(app.packageName))
  }

  /** An app is shown when every search term occurs in its reference. */
  predicate MatchesSearch(text: string, app: App) {
    forall term :: term in SearchTerms(text) ==> Contains(SearchReference(app), term)
  }

  function SearchFilter(text: string): App -> bool {
    (app: App) => MatchesSearch(text, app)
  }

  function FilterBySearch(apps: seq<App>, text: string): seq<App> {
    Filter(apps, SearchFilter(text))
  }

  /** The filter keeps exactly the matching apps; `FilterBySearchKeepsOrder` states that they keep their order. */
  lemma FilterBySearchKeepsMatches(apps: seq<App>, text: string)
    ensures forall app :: app in FilterBySearch(apps, text) <==> app in apps && MatchesSearch(text, app)
    ensures |FilterBySearch(apps, text)| <= |apps|
  {
  }

  /** Filtering a list in two parts gives the two filtered parts in order: the shown apps keep their order. */
  lemma FilterBySearchKeepsOrder(a: seq<App>, b: seq<App>, text: string)
    ensures FilterBySearch(a + b, text) == FilterBySearch(a, text) + FilterBySearch(b, text)
  {
    FilterAppend(a, b, SearchFilter(text));
  }

  /** A query of blanks is the single empty term, which every reference contains: every app is shown. */
  lemma BlankSearchShowsAll(apps: seq<App>, text: string)
    requires forall i :: 0 <= i < |text| ==> IsWhitespace(text[i])
    ensures SearchTerms(text) == [[]]
    ensures FilterBySearch(apps, text) == apps
  {
    assert Trim(text) == [];
    SplitWithoutSeparator([], ' ');
    forall app | app in apps ensures SearchFilter(text)(app) {
      assert Contains(SearchReference(app), []) by {
        assert StartsWith(SearchReference(app), []);
      }
    }
    FilterKeepsAll(apps, SearchFilter(text));
  }

  /** Typing a package name that is already trimmed, lowercase and free of spaces finds its app. */
  lemma SearchByPackageName(app: App)
    requires Lowercase(Trim(app.packageName)) == app.packageName
    requires ' ' !in app.packageName
    ensures MatchesSearch(app.packageName, app)
  {
    SplitWithoutSeparator(app.packageName, ' ');
    assert SearchTerms(app.packageName) == [app.packageName];
    ContainsInfix(Lowercase(Trim(app.name)) + " ", app.packageName, []);
    assert Lowercase(Trim(app.name)) + " " + app.packageName + [] == SearchReference(app);
  }

  predicate IsInstalled(app: App) { app.isInstalled }
  predicate IsNotInstalled(app: App) { !app.isInstalled }

  /** `sortedBy { !it.isInstalled }`: Kotlin's stable sort on a boolean key, `false` first. */
  function InstalledFirst(apps: seq<App>): seq<App> {
    Filter(apps, IsInstalled) + Filter(apps, IsNotInstalled)
  }

  /**
   * The installed-first order is a stable sort: no uninstalled app precedes an installed one, every app
   * is kept as often as it occurs, and within each group the apps keep their relative order.
   */
  lemma {:induction false} InstalledFirstIsStableSort(apps: seq<App>)
    ensures var r := InstalledFirst(apps);
            && (forall i, j :: 0 <= i < j < |r| && r[i].isInstalled == false ==> r[j].isInstalled == false)
            && multiset(r) == multiset(apps)
            && Filter(r, IsInstalled) == Filter(apps, IsInstalled)
            && Filter(r, IsNotInstalled) == Filter(apps, IsNotInstalled)
  {
    var front := Filter(apps, IsInstalled);
    var back := Filter(apps, IsNotInstalled);
    var r := front + back;
    forall k | 0 <= k < |front| ensures front[k].isInstalled {
      assert front[k] in front;
    }
    forall k | 0 <= k < |back| ensures !back[k].isInstalled {
      assert back[k] in back;
    }
    forall i, j | 0 <= i < j < |r| && r[i].isInstalled == false ensures r[j].isInstalled == false {
      assert r[j] == back[j - |front|];
    }
    FilterSplitsMultiset(apps, IsInstalled, IsNotInstalled);
    FilterAppend(front, back, IsInstalled);
    FilterAppend(front, back, IsNotInstalled);
    FilterKeepsAll(front, IsInstalled);
    FilterDropsAll(back, IsInstalled);
    FilterDropsAll(front, IsNotInstalled);
    FilterKeepsAll(back, IsNotInstalled);
  }

  /** `AppList`: the apps matching the search text, installed ones first. */
  function AppList(apps: seq<App>, text: string): seq<App> {
    InstalledFirst(FilterBySearch(apps, text))
  }

  /** The list shows exactly the matching apps, installed ones first, in their original order within each group. */
  lemma AppListShowsMatchesInstalledFirst(apps: seq<App>, text: string)
    ensures var r := AppList(apps, text);
            && (forall app :: app in r <==> app in apps && MatchesSearch(text, app))
            && (forall i, j :: 0 <= i < j < |r| && r[i].isInstalled == false ==> r[j].isInstalled == false)
            && Filter(r, IsInstalled) == Filter(FilterBySearch(apps, text), IsInstalled)
            && Filter(r, IsNotInstalled) == Filter(FilterBySearch(apps, text), IsNotInstalled)
  {
    var shown := FilterBySearch(apps, text);
    InstalledFirstIsStableSort(shown);
    var r := AppList(apps, text);
    forall app ensures app in r <==> app in apps && MatchesSearch(text, app) {
      assert app in r <==> multiset(r)[app] > 0;
      assert app in shown <==> multiset(shown)[app] > 0;
    }
  }

  /** Some selected entry has the package name. */
  predicate AnyWithPackage(selection: seq<App>, packageName: string) {
    exists i :: 0 <= i < |selection| && selection[i].packageName == packageName
  }

  function OtherPackage(packageName: string): App -> bool {
    (app: App) => app.packageName != packageName
  }

  /** `removeIf { it.packageName == packageName }`. */
  function Deselect(selection: seq<App>, packageName: string): (r: seq<App>)
    ensures !AnyWithPackage(r, packageName)
    ensures forall app :: app in r <==> app in selection && app.packageName != packageName
  {
    var r := Filter(selection, OtherPackage(packageName));
    assert !AnyWithPackage(r, packageName) by {
      forall i | 0 <= i < |r| ensures r[i].packageName != packageName {
        assert r[i] in r;
      }
    }
    r
  }

  /** Checking an unchecked app and unchecking it again restores the selection. */
  lemma {:induction false} DeselectUndoesSelect(selection: seq<App>, app: App)
    requires !AnyWithPackage(selection, app.packageName)
    ensures Deselect(selection + [app], app.packageName) == selection
  {
    FilterAppend(selection, [app], OtherPackage(app.packageName));
    forall x | x in selection ensures OtherPackage(app.packageName)(x) {
      var i :| 0 <= i < |selection| && selection[i] == x;
    }
    FilterKeepsAll(selection, OtherPackage(app.packageName));
    assert Filter([app], OtherPackage(app.packageName)) == [];
  }

  /** The apps ticked in a list: a `SnapshotStateList` changed in place. */
  class Selection {
    var selected: seq<App>

    constructor ()
      ensures selected == []
    {
      selected := [];
    }

    /** The checkbox: some selected entry has the same package name. */
    predicate IsChecked(app: App)
      reads this
    {
      AnyWithPackage(selected, app.packageName)
    }

    /**
     * The toggle's `onValueChange`: an unchecked app is appended, a checked one is removed together
     * with every other entry of the same package. Either way the checkbox flips.
     */
    method Toggle(app: App)
      modifies this
      ensures old(IsChecked(app)) ==> selected == Deselect(old(selected), app.packageName)
      ensures !old(IsChecked(app)) ==> selected == old(selected) + [app]
      ensures IsChecked(app) == !old(IsChecked(app))
    {
      if !IsChecked(app) {
        selected := selected + [app];
        assert selected[|selected| - 1] == app;
      } else {
        selected := Deselect(selected, app.packageName);
      }
    }
  }

  /** What a click on an entry shows besides the launch: the failure's message, when it has one. */
  function ErrorToast(thrown: Throwable): seq<Effect>
    requires IsDisabledLauncherException(thrown)
  {
    match GetLocalizedMessage(thrown)
    case Some(text) => [ShowToast(text)]
    case None => []
  }

  /**
   * A click on an entry: only an installed app is opened; after a successful open the app is moved up the
   * tracked list when `sortAppsByUsage` is set, and the main task is closed; a `DisabledLauncherException`
   * only toasts its message, and any other exception is not caught and ends the click's thread (`uncaught`).
   */
  method OnAppClick(app: App, device: Device, prefs: Preferences, store: PackageStore, writeSucceeds: bool)
    returns (effects: seq<Effect>, uncaught: Option<Throwable>)
    modifies store
    ensures !app.isInstalled ==> effects == [] && uncaught.None? && store.document == old(store.document)
    ensures app.isInstalled && OpenAppLogic(device, prefs, app).thrown.Some? ==> store.document == old(store.document)
    ensures app.isInstalled && OpenAppLogic(device, prefs, app).thrown.Some?
            && IsDisabledLauncherException(OpenAppLogic(device, prefs, app).thrown.value) ==>
              && uncaught.None?
              && effects == OpenAppLogic(device, prefs, app).effects + ErrorToast(OpenAppLogic(device, prefs, app).thrown.value)
    ensures app.isInstalled && OpenAppLogic(device, prefs, app).thrown.Some?
            && !IsDisabledLauncherException(OpenAppLogic(device, prefs, app).thrown.value) ==>
              && uncaught == OpenAppLogic(device, prefs, app).thrown
              && effects == OpenAppLogic(device, prefs, app).effects
    ensures app.isInstalled && OpenAppLogic(device, prefs, app).thrown.None? ==>
              && uncaught.None?
              && effects == OpenAppLogic(device, prefs, app).effects + [FinishMainTask]
              && (GetBoolean(prefs, SortAppsByUsage, false)
                    && old(store.document).Some? && Raised(old(store.document).value, app.packageName).Some? && writeSucceeds
                  ==> store.document == Raised(old(store.document).value, app.packageName))
              && (!(GetBoolean(prefs, SortAppsByUsage, false)
                    && old(store.document).Some? && Raised(old(store.document).value, app.packageName).Some? && writeSucceeds)
                  ==> store.document == old(store.document))
  {
    effects, uncaught := [], None;
    if app.isInstalled {
      var launch := OpenAppLogic(device, prefs, app);
      effects := launch.effects;
      if launch.thrown.Some? {
        if IsDisabledLauncherException(launch.thrown.value) {
          effects := effects + ErrorToast(launch.thrown.value);
        } else {
          uncaught := launch.thrown;
        }
        return;
      }
      if GetBoolean(prefs, SortAppsByUsage, false) {
        var _ := store.RaisePackage(app.packageName, writeSucceeds);
      }
      effects := effects + [FinishMainTask];
    }
  }
}
