/**
 * The tracked package list (`service/Datasource.kt`): an ordered list of package names kept in one
 * document that every mutation reads whole and writes back whole.
 */
module Datasource {
  import opened Wrappers
  import opened Exceptions
  import opened Platform

  /** `List.indexOf`: the first position of `x`, or -1 when it is absent. */
  function IndexOf(s: seq<string>, x: string): (i: int)
    ensures -1 <= i < |s|
    ensures i == -1 <==> x !in s
    ensures 0 <= i ==> s[i] == x && x !in s[..i]
  {
    if s == [] then -1
    else if s[0] == x then 0
    else
      var j := IndexOf(s[1..], x);
      assert s[1..][..j + 1] == s[1..j + 2] by { }
      if j == -1 then -1 else j + 1
  }

  /** `filter { it != x }`: every occurrence of `x` dropped, everything else kept. */
  function Without(s: seq<string>, x: string): (r: seq<string>)
    ensures x !in r
    ensures |r| <= |s|
  {
    if s == [] then [] else (if s[0] == x then [] else [s[0]]) + Without(s[1..], x)
  }

  /** Dropping `x` leaves every other element exactly as often as before, and nothing else. */
  lemma {:induction false} WithoutCounts(s: seq<string>, x: string)
    ensures multiset(Without(s, x)) == multiset(s)[x := 0]
    ensures |Without(s, x)| == |s| - multiset(s)[x]
  {
    if s != [] {
      WithoutCounts(s[1..], x);
      assert s == [s[0]] + s[1..];
      assert multiset(s) == multiset{s[0]} + multiset(s[1..]);
    }
  }

  /** Dropping `x` keeps the other elements in their original order. */
  lemma {:induction false} WithoutAppend(a: seq<string>, b: seq<string>, x: string)
    ensures Without(a + b, x) == Without(a, x) + Without(b, x)
  {
    if a == [] {
      assert a + b == b;
    } else {
      var head, tail := a[0], a[1..];
      var kept := if head == x then [] else [head];
      assert a + b == [head] + (tail + b);
      assert Without(a + b, x) == kept + Without(tail + b, x);
      assert Without(a, x) == kept + Without(tail, x);
      WithoutAppend(tail, b, x);
    }
  }

  lemma {:induction false} WithoutAbsent(s: seq<string>, x: string)
    requires x !in s
    ensures Without(s, x) == s
  {
    if s != [] {
      WithoutAbsent(s[1..], x);
    }
  }

  /** `floor((oldIndex * 2) / 3f).toInt()`, taken over the integers. */
  function RaiseIndex(i: nat): (k: nat)
    ensures k <= i
    ensures i >= 1 ==> k < i
  {
    (i * 2) / 3
  }

  /** `MutableList.add(k, x)`. */
  function InsertAt(s: seq<string>, k: nat, x: string): seq<string>
    requires k <= |s|
  {
    s[..k] + [x] + s[k..]
  }

  /**
   * Everything before the first occurrence differs from the package, so the list without the
   * package still has at least `i` elements: the insertion index is always in bounds.
   */
  lemma RaiseIndexInBounds(s: seq<string>, x: string)
    requires IndexOf(s, x) >= 0
    ensures RaiseIndex(IndexOf(s, x)) <= IndexOf(s, x) <= |Without(s, x)|
  {
    var i := IndexOf(s, x);
    var before, rest := s[..i], s[i..];
    assert s == before + rest;
    WithoutAppend(before, rest, x);
    WithoutAbsent(before, x);
    assert |Without(s, x)| >= |before| == i;
  }

  /**
   * The list `raisePackage` writes: `None` when the package is absent or already first; otherwise
   * every occurrence is removed and one is reinserted at `(2 * i) / 3` for its first index `i`.
   */
  function Raised(s: seq<string>, x: string): (r: Option<seq<string>>)
    ensures r.None? <==> IndexOf(s, x) <= 0
  {
    var i := IndexOf(s, x);
    if i <= 0 then None
    else
      RaiseIndexInBounds(s, x);
      Some(InsertAt(Without(s, x), RaiseIndex(i), x))
  }

  /** Inserting a package into a list without it: it is found first at the insertion index, occurs once, and filtering it out undoes the insertion. */
  lemma {:induction false} InsertAtFresh(kept: seq<string>, k: nat, x: string)
    requires k <= |kept| && x !in kept
    ensures IndexOf(InsertAt(kept, k, x), x) == k
    ensures Without(InsertAt(kept, k, x), x) == kept
    ensures multiset(InsertAt(kept, k, x)) == multiset(kept) + multiset{x}
  {
    var before, after := kept[..k], kept[k..];
    var r := InsertAt(kept, k, x);
    assert r == before + [x] + after;
    assert before + after == kept;
    assert x !in before && x !in after;
    assert r[..k] == before;
    assert r[k] == x;
    WithoutAppend(before + [x], after, x);
    WithoutAppend(before, [x], x);
    WithoutAbsent(before, x);
    WithoutAbsent(after, x);
    assert Without([x], x) == [];
  }

  /**
   * A raised package moves strictly forward to index `(2 * i) / 3`, where it is now found first,
   * occurs exactly once, and the other packages keep their relative order.
   */
  lemma RaisedMovesForward(s: seq<string>, x: string)
    requires IndexOf(s, x) >= 1
    ensures Raised(s, x).Some?
    ensures var i := IndexOf(s, x);
            var r := Raised(s, x).value;
            RaiseIndex(i) < i && IndexOf(r, x) == RaiseIndex(i)
            && Without(r, x) == Without(s, x)
            && multiset(r)[x] == 1
            && |r| == |s| - multiset(s)[x] + 1
  {
    var i := IndexOf(s, x);
    var kept := Without(s, x);
    RaiseIndexInBounds(s, x);
    InsertAtFresh(kept, RaiseIndex(i), x);
    WithoutCounts(s, x);
  }

  lemma RestoreSingle(m: multiset<string>, x: string)
    requires m[x] == 1
    ensures m[x := 0] + multiset{x} == m
  {
    var n := m[x := 0] + multiset{x};
    forall y ensures n[y] == m[y] {
      if y == x {
        assert n[y] == 0 + 1;
      } else {
        assert n[y] == m[x := 0][y] + 0;
      }
    }
  }

  /** A package that occurs once is moved, not duplicated or lost: the list is a permutation of the old one. */
  lemma RaisedSingleIsPermutation(s: seq<string>, x: string)
    requires IndexOf(s, x) >= 1 && multiset(s)[x] == 1
    ensures Raised(s, x).Some?
    ensures |Raised(s, x).value| == |s| && multiset(Raised(s, x).value) == multiset(s)
  {
    var i := IndexOf(s, x);
    var kept := Without(s, x);
    RaiseIndexInBounds(s, x);
    InsertAtFresh(kept, RaiseIndex(i), x);
    WithoutCounts(s, x);
    RestoreSingle(multiset(s), x);
  }

  /** Raising the last of four packages swaps it with the third. */
  lemma RaisedExample()
    ensures Raised(["a", "b", "c", "d"], "d") == Some(["a", "b", "d", "c"])
  {
    var s := ["a", "b", "c", "d"];
    var kept := ["a", "b", "c"];
    assert s == kept + ["d"];
    assert IndexOf(s, "d") == 3 by {
      assert s[..3] == kept;
    }
    assert Without(s, "d") == kept by {
      WithoutAppend(kept, ["d"], "d");
      WithoutAbsent(kept, "d");
      assert Without(["d"], "d") == [];
    }
    assert RaiseIndex(3) == 2;
    assert InsertAt(kept, 2, "d") == ["a", "b", "d", "c"];
  }

  /** The list `removePackage` writes: `None` when the package is absent, else the list without it. */
  function Removed(s: seq<string>, x: string): (r: Option<seq<string>>)
    ensures r.None? <==> x !in s
    ensures r.Some? ==> x !in r.value && multiset(r.value) == multiset(s)[x := 0]
    ensures r.Some? ==> |r.value| == |s| - multiset(s)[x]
  {
    if x !in s then None
    else
      WithoutCounts(s, x);
      Some(Without(s, x))
  }

  /** What `loadAppList` returns and shows: the stored packages, or the empty list and a toast. `LoadAppList` below computes it. */
  function Loaded(document: Option<seq<string>>): (seq<string>, seq<Effect>) {
    match document
    case Some(packages) => (packages, [])
    case None => ([], [ShowToast(Resource(CouldntLoadAppList))])
  }

  /**
   * The document the launcher reads and rewrites. `document` is `None` when it cannot be read or
   * parsed; a write that fails leaves it as it was.
   */
  class PackageStore {
    var document: Option<seq<string>>

    /** The internal file, created on first use with `{"packages":[]}`. */
    constructor Internal()
      ensures document == Some([])
    {
      document := Some([]);
    }

    /** A document the user picked, in whatever state it is. */
    constructor External(initial: Option<seq<string>>)
      ensures document == initial
    {
      document := initial;
    }

    /** `loadAppList`: the stored packages, or the empty list and a "couldn't load" toast. */
    method LoadAppList() returns (packages: seq<string>, effects: seq<Effect>)
      ensures document.Some? ==> packages == document.value && effects == []
      ensures document.None? ==> packages == [] && effects == [ShowToast(Resource(CouldntLoadAppList))]
      ensures (packages, effects) == Loaded(document)
    {
      if document.Some? {
        packages, effects := document.value, [];
      } else {
        packages, effects := [], [ShowToast(Resource(CouldntLoadAppList))];
      }
    }

    /** `FileService.writeFile`: replaces the whole document when the write succeeds. */
    method WriteFile(packages: seq<string>, writeSucceeds: bool) returns (ok: bool)
      modifies this
      ensures ok == writeSucceeds
      ensures document == if ok then Some(packages) else old(document)
    {
      ok := writeSucceeds;
      if ok {
        document := Some(packages);
      }
    }

    /** `raisePackage`: false and no write when unreadable, absent or already first; else the write's result. */
    method RaisePackage(packageName: string, writeSucceeds: bool) returns (ok: bool)
      modifies this
      ensures ok <==> old(document).Some? && Raised(old(document).value, packageName).Some? && writeSucceeds
      ensures document == if ok then Raised(old(document).value, packageName) else old(document)
    {
      if document.None? {
        return false;
      }
      var packages := document.value;
      var oldIndex := IndexOf(packages, packageName);
      if oldIndex <= 0 {
        return false;
      }
      var updated := Without(packages, packageName);
      RaiseIndexInBounds(packages, packageName);
      var k := RaiseIndex(oldIndex);
      updated := InsertAt(updated, k, packageName);
      ok := WriteFile(updated, writeSucceeds);
    }

    /** `removePackage`: false and no write when unreadable or absent; else the write's result. */
    method RemovePackage(packageName: string, writeSucceeds: bool) returns (ok: bool)
      modifies this
      ensures ok <==> old(document).Some? && packageName in old(document).value && writeSucceeds
      ensures document == if ok then Removed(old(document).value, packageName) else old(document)
    {
      if document.None? {
        return false;
      }
      var packages := document.value;
      if packageName !in packages {
        return false;
      }
      ok := WriteFile(Without(packages, packageName), writeSucceeds);
    }

    /** `addPackages`: appends the names in their order, duplicates included; false when unreadable. */
    method AddPackages(packageNames: seq<string>, writeSucceeds: bool) returns (ok: bool)
      modifies this
      ensures ok <==> old(document).Some? && writeSucceeds
      ensures document == if ok then Some(old(document).value + packageNames) else old(document)
    {
      if document.None? {
        return false;
      }
      var updated := document.value;
      updated := updated + packageNames;
      ok := WriteFile(updated, writeSucceeds);
    }
  }
}
