/**
 * The multi-select screen (`ui/screens/SelectMultipleAppsScreen.kt`): the searchable list sorted by
 * name and then installed-first, and the confirm button.
 */
module SelectMultipleApps {
  import opened Wrappers
  import opened Exceptions
  import opened Platform
  import opened Lists
  import opened AppService
  import opened Components

  /** `String.compareTo(...) <= 0`: lexicographic order on characters, a prefix first. */
  predicate NameLe(a: string, b: string)
    decreases |a|
  {
    a == [] || (b != [] && (a[0] < b[0] || (a[0] == b[0] && NameLe(a[1..], b[1..]))))
  }

  lemma {:induction false} NameLeTotal(a: string, b: string)
    ensures NameLe(a, b) || NameLe(b, a)
    decreases |a|
  {
    if a != [] && b != [] && a[0] == b[0] {
      NameLeTotal(a[1..], b[1..]);
    }
  }

  lemma {:induction false} NameLeTransitive(a: string, b: string, c: string)
    requires NameLe(a, b) && NameLe(b, c)
    ensures NameLe(a, c)
    decreases |a|
  {
    if a != [] && b != [] && c != [] && a[0] == b[0] && b[0] == c[0] {
      NameLeTransitive(a[1..], b[1..], c[1..]);
    }
  }

  lemma {:induction false} NameLeAntisymmetric(a: string, b: string)
    requires NameLe(a, b) && NameLe(b, a)
    ensures a == b
    decreases |a|
  {
    if a != [] {
      NameLeAntisymmetric(a[1..], b[1..]);
    }
  }

  predicate SortedByName(apps: seq<App>) {
    forall i, j :: 0 <= i < j < |apps| ==> NameLe(apps[i].name, apps[j].name)
  }

  /** Places `app` before the first entry whose name is not smaller, that is, ahead of equal names. */
  function Insert(app: App, sorted: seq<App>): seq<App> {
    if sorted == [] || NameLe(app.name, sorted[0].name) then [app] + sorted
    else [sorted[0]] + Insert(app, sorted[1..])
  }

  /** `sortedBy { it.name }`. */
  function SortByName(apps: seq<App>): seq<App> {
    if apps == [] then [] else Insert(apps[0], SortByName(apps[1..]))
  }

  lemma {:induction false} InsertCounts(app: App, sorted: seq<App>)
    ensures multiset(Insert(app, sorted)) == multiset(sorted) + multiset{app}
  {
    if sorted != [] && !NameLe(app.name, sorted[0].name) {
      InsertCounts(app, sorted[1..]);
      assert sorted == [sorted[0]] + sorted[1..];
    }
  }

  lemma {:induction false} InsertSorted(app: App, sorted: seq<App>)
    requires SortedByName(sorted)
    ensures SortedByName(Insert(app, sorted))
  {
    var r := Insert(app, sorted);
    if sorted == [] || NameLe(app.name, sorted[0].name) {
      forall j | 1 <= j < |r| ensures NameLe(app.name, r[j].name) {
        if j > 1 {
          NameLeTransitive(app.name, sorted[0].name, sorted[j - 1].name);
        }
      }
    } else {
      var head := sorted[0];
      var rest := Insert(app, sorted[1..]);
      InsertSorted(app, sorted[1..]);
      InsertCounts(app, sorted[1..]);
      NameLeTotal(app.name, head.name);
      forall j | 0 <= j < |rest| ensures NameLe(head.name, rest[j].name) {
        assert rest[j] in multiset(rest);
        if rest[j] != app {
          assert rest[j] in multiset(sorted[1..]);
          var k :| 0 <= k < |sorted[1..]| && sorted[1..][k] == rest[j];
          assert sorted[k + 1] == rest[j];
        }
      }
      assert r == [head] + rest;
    }
  }

  /** Inserting ahead of equal names keeps, for every name, the entries with that name in their order. */
  lemma {:induction false} InsertKeepsNameGroups(app: App, sorted: seq<App>, n: string)
    ensures Filter(Insert(app, sorted), HasName(n)) == (if app.name == n then [app] else []) + Filter(sorted, HasName(n))
  {
    var p := HasName(n);
    if sorted == [] || NameLe(app.name, sorted[0].name) {
      FilterAppend([app], sorted, p);
    } else {
      var head := sorted[0];
      var rest := sorted[1..];
      InsertKeepsNameGroups(app, rest, n);
      NameLeTotal(head.name, head.name);
      assert app.name != head.name;
      FilterAppend([head], Insert(app, rest), p);
      FilterAppend([head], rest, p);
      assert [head] + rest == sorted;
    }
  }

  function HasName(n: string): App -> bool {
    (app: App) => app.name == n
  }

  /**
   * The name sort is a stable sort: ordered by name, a permutation of its input, and for every name the
   * entries carrying it keep their relative order.
   */
  lemma {:induction false} SortByNameIsStableSort(apps: seq<App>)
    ensures SortedByName(SortByName(apps))
    ensures multiset(SortByName(apps)) == multiset(apps)
    ensures forall n :: Filter(SortByName(apps), HasName(n)) == Filter(apps, HasName(n))
  {
    if apps != [] {
      SortByNameIsStableSort(apps[1..]);
      InsertSorted(apps[0], SortByName(apps[1..]));
      InsertCounts(apps[0], SortByName(apps[1..]));
      assert apps == [apps[0]] + apps[1..];
      forall n ensures Filter(SortByName(apps), HasName(n)) == Filter(apps, HasName(n)) {
        InsertKeepsNameGroups(apps[0], SortByName(apps[1..]), n);
        FilterAppend([apps[0]], apps[1..], HasName(n));
      }
    }
  }

  lemma {:induction false} FilterKeepsSorted(apps: seq<App>, p: App -> bool)
    requires SortedByName(apps)
    ensures SortedByName(Filter(apps, p))
  {
    if apps != [] {
      FilterKeepsSorted(apps[1..], p);
      var rest := Filter(apps[1..], p);
      forall j | 0 <= j < |rest| ensures NameLe(apps[0].name, rest[j].name) {
        assert rest[j] in rest;
        var k :| 0 <= k < |apps[1..]| && apps[1..][k] == rest[j];
        assert apps[k + 1] == rest[j];
      }
    }
  }

  /** `SelectableAppList`: the matching apps sorted by name, then installed ones first. */
  function SelectableAppList(apps: seq<App>, text: string): seq<App> {
    InstalledFirst(SortByName(FilterBySearch(apps, text)))
  }

  /**
   * The list holds exactly the matching apps, each as often as it occurs; installed ones come first,
   * and each group is ordered by name and holds the same apps as the matching apps of that group.
   */
  lemma SelectableAppListOrder(apps: seq<App>, text: string)
    ensures var r := SelectableAppList(apps, text);
            var shown := FilterBySearch(apps, text);
            && multiset(r) == multiset(shown)
            && (forall i, j :: 0 <= i < j < |r| && r[i].isInstalled == false ==> r[j].isInstalled == false)
            && SortedByName(Filter(r, IsInstalled))
            && SortedByName(Filter(r, IsNotInstalled))
            && multiset(Filter(r, IsInstalled)) == multiset(Filter(shown, IsInstalled))
            && multiset(Filter(r, IsNotInstalled)) == multiset(Filter(shown, IsNotInstalled))
  {
    var shown := FilterBySearch(apps, text);
    var sorted := SortByName(shown);
    SortByNameIsStableSort(shown);
    InstalledFirstIsStableSort(sorted);
    FilterKeepsSorted(sorted, IsInstalled);
    FilterKeepsSorted(sorted, IsNotInstalled);
    FilterPermutation(sorted, shown, IsInstalled);
    FilterPermutation(sorted, shown, IsNotInstalled);
  }

  /**
   * The confirm button: with nothing selected it only toasts "no apps selected"; otherwise it hands on
   * a copy of the selection, in the order the apps were ticked.
   */
  method OnConfirm(selection: Selection) returns (effects: seq<Effect>, confirmed: Option<seq<App>>)
    ensures confirmed.Some? <==> selection.selected != []
    ensures confirmed.Some? ==> confirmed.value == selection.selected && effects == []
    ensures confirmed.None? ==> effects == [ShowToast(Resource(NoAppsSelected))]
  {
    if selection.selected == [] {
      effects, confirmed := [ShowToast(Resource(NoAppsSelected))], None;
    } else {
      effects, confirmed := [], Some(selection.selected);
    }
  }
}
