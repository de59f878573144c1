/**
 * The Android platform and the Shizuku broker as the core sees them: observations that are
 * inputs to the model, and the effects the core causes, recorded in order.
 */
module Platform {
  import opened Wrappers
  import opened Exceptions

  /** The answer of one broker call: a value, or an `IllegalStateException` (broker not reachable). */
  datatype Probe<T> = Returns(value: T) | ThrowsIllegalState

  /** What the Shizuku broker answers to `isPreV11`, `checkSelfPermission`, `shouldShowRequestPermissionRationale`
    * and whether `requestPermission(0)` throws. */
  datatype Broker = Broker(
    isPreV11: Probe<bool>,
    permissionGranted: Probe<bool>,
    showRationale: Probe<bool>,
    requestThrows: bool)

  /** `Shizuku.newProcess(...).waitFor()`: the exit code, or an `IllegalStateException` on spawning. */
  datatype Process = Exited(code: int) | SpawnThrowsIllegalState

  /** What the broker and the spawned shell report when one command is executed. */
  datatype Shell = Shell(broker: Broker, process: Process)

  /** `PackageInfo` with its application info: package name, loaded label and enabled flag. */
  datatype PackageInfo = PackageInfo(packageName: string, name: string, enabled: bool)

  /** `getLaunchIntentForPackage` followed by `startActivity`. */
  datatype Launch = Launchable | NoLaunchIntent | StartThrows

  /**
   * The device: one `Shell` per command, the package manager, the launcher, whether some activity handles
   * a `VIEW` intent for a URL, and the string table.
   */
  datatype Device = Device(
    shell: string -> Shell,
    packageInfo: string -> Option<PackageInfo>,
    installedPackages: seq<PackageInfo>,
    launch: string -> Launch,
    opensUrl: string -> bool,
    getString: StringRes -> string)

  /** An observable effect of the core, in the order it happens. */
  datatype Effect =
    | RequestPermission
    | RunCommand(command: string)
    | ShowToast(text: Message)
    | OpenUrl(url: string)
    | StartActivity(packageName: string)
    | OpenMainActivity
    | FinishActivity
    | FinishMainTask

  /** The outcome of an operation that may throw: what it threw (if anything) and what it did before. */
  datatype Run = Run(thrown: Option<Throwable>, effects: seq<Effect>)

  /** `SharedPreferences` holding booleans; `GetBoolean` falls back to the given default when the key is absent. */
  type Preferences = map<string, bool>

  function GetBoolean(prefs: Preferences, key: string, default: bool): bool {
    if key in prefs then prefs[key] else default
  }

  /** The shell commands among the effects, in order. */
  function Commands(effects: seq<Effect>): seq<string> {
    if effects == [] then []
    else (if effects[0].RunCommand? then [effects[0].command] else []) + Commands(effects[1..])
  }

  lemma {:induction false} CommandsAppend(a: seq<Effect>, b: seq<Effect>)
    ensures Commands(a + b) == Commands(a) + Commands(b)
  {
    if a == [] {
      assert a + b == b;
    } else {
      assert (a + b)[1..] == a[1..] + b;
      CommandsAppend(a[1..], b);
    }
  }

  /** Runs `step` on every element in order and stops at the first one that throws, rethrowing it. */
  function RunEach<T>(xs: seq<T>, step: T -> Run): Run {
    if xs == [] then Run(None, [])
    else
      var first := step(xs[0]);
      if first.thrown.Some? then first
      else
        var rest := RunEach(xs[1..], step);
        Run(rest.thrown, first.effects + rest.effects)
  }

  /** The effects of running every step of `xs` in turn. */
  function AllEffects<T>(xs: seq<T>, step: T -> Run): seq<Effect> {
    if xs == [] then [] else step(xs[0]).effects + AllEffects(xs[1..], step)
  }

  predicate AllSucceed<T>(xs: seq<T>, step: T -> Run) {
    forall i :: 0 <= i < |xs| ==> step(xs[i]).thrown.None?
  }

  /** One more step after a run in which nothing threw. */
  lemma {:induction false} RunEachSnoc<T>(xs: seq<T>, x: T, step: T -> Run)
    requires RunEach(xs, step).thrown.None?
    ensures RunEach(xs + [x], step) == Run(step(x).thrown, RunEach(xs, step).effects + step(x).effects)
  {
    if xs == [] {
      assert xs + [x] == [x];
    } else {
      assert (xs + [x])[1..] == xs[1..] + [x];
      RunEachSnoc(xs[1..], x, step);
    }
  }

  /** Once a prefix has thrown, nothing after it runs. */
  lemma {:induction false} RunEachStopsAtThrow<T>(a: seq<T>, b: seq<T>, step: T -> Run)
    requires RunEach(a, step).thrown.Some?
    ensures RunEach(a + b, step) == RunEach(a, step)
  {
    assert a != [];
    assert (a + b)[0] == a[0];
    if step(a[0]).thrown.None? {
      assert (a + b)[1..] == a[1..] + b;
      RunEachStopsAtThrow(a[1..], b, step);
    }
  }

  /** One more step of a `forEach` that has not thrown yet: either it continues or it ends the whole loop. */
  lemma RunEachNext<T>(xs: seq<T>, i: nat, step: T -> Run)
    requires i < |xs| && RunEach(xs[..i], step).thrown.None?
    ensures step(xs[i]).thrown.None? ==>
              RunEach(xs[..i + 1], step) == Run(None, RunEach(xs[..i], step).effects + step(xs[i]).effects)
    ensures step(xs[i]).thrown.Some? ==>
              RunEach(xs, step) == Run(step(xs[i]).thrown, RunEach(xs[..i], step).effects + step(xs[i]).effects)
  {
    var done, x, rest := xs[..i], xs[i], xs[i + 1..];
    RunEachSnoc(done, x, step);
    assert xs[..i + 1] == done + [x];
    if step(x).thrown.Some? {
      RunEachStopsAtThrow(done + [x], rest, step);
      assert done + [x] + rest == xs;
    }
  }

  /**
   * `forEach` with a throwing body: it succeeds if and only if every step does, doing all their effects;
   * otherwise the first step that throws ends it, after the effects of the steps before it and its own.
   */
  lemma {:induction false} RunEachAborts<T>(xs: seq<T>, step: T -> Run)
    ensures RunEach(xs, step).thrown.None? <==> AllSucceed(xs, step)
    ensures RunEach(xs, step).thrown.None? ==> RunEach(xs, step).effects == AllEffects(xs, step)
    ensures RunEach(xs, step).thrown.Some? ==>
              exists k :: 0 <= k < |xs| && AllSucceed(xs[..k], step)
                && step(xs[k]).thrown == RunEach(xs, step).thrown
                && RunEach(xs, step).effects == AllEffects(xs[..k], step) + step(xs[k]).effects
  {
    if xs != [] {
      RunEachAborts(xs[1..], step);
      var r := RunEach(xs, step);
      if step(xs[0]).thrown.Some? {
        assert xs[..0] == [];
        assert AllSucceed(xs[..0], step);
      } else if r.thrown.Some? {
        var k :| 0 <= k < |xs[1..]| && AllSucceed(xs[1..][..k], step)
          && step(xs[1..][k]).thrown == RunEach(xs[1..], step).thrown
          && RunEach(xs[1..], step).effects == AllEffects(xs[1..][..k], step) + step(xs[1..][k]).effects;
        assert xs[..k + 1] == [xs[0]] + xs[1..][..k];
        assert xs[..k + 1][1..] == xs[1..][..k];
        assert AllSucceed(xs[..k + 1], step);
      } else {
        assert AllSucceed(xs, step) by {
          forall i | 0 <= i < |xs| ensures step(xs[i]).thrown.None? {
            if i > 0 { assert xs[i] == xs[1..][i - 1]; }
          }
        }
      }
      if !AllSucceed(xs[1..], step) && step(xs[0]).thrown.None? {
        var i :| 0 <= i < |xs[1..]| && step(xs[1..][i]).thrown.Some?;
        assert xs[i + 1] == xs[1..][i];
      }
    }
  }

  /** Kotlin's `forEach` (and a `for` loop) over a body that may throw: the steps in order, up to the first that throws. */
  method ForEach<T>(xs: seq<T>, step: T -> Run) returns (r: Run)
    ensures r == RunEach(xs, step)
  {
    var effects := [];
    var i := 0;
    while i < |xs|
      invariant 0 <= i <= |xs|
      invariant RunEach(xs[..i], step) == Run(None, effects)
    {
      var outcome := step(xs[i]);
      RunEachNext(xs, i, step);
      effects := effects + outcome.effects;
      if outcome.thrown.Some? {
        return Run(outcome.thrown, effects);
      }
      i := i + 1;
    }
    assert xs[..i] == xs;
    return Run(None, effects);
  }

  /** The command each element stands for, in order. */
  function CommandsOf<T>(xs: seq<T>, command: T -> string): seq<string> {
    if xs == [] then [] else [command(xs[0])] + CommandsOf(xs[1..], command)
  }

  /** Every successful step runs exactly its element's command. */
  predicate RunsItsCommand<T>(xs: seq<T>, step: T -> Run, command: T -> string) {
    forall i :: 0 <= i < |xs| && step(xs[i]).thrown.None? ==> Commands(step(xs[i]).effects) == [command(xs[i])]
  }

  lemma RunsItsCommandTail<T>(xs: seq<T>, step: T -> Run, command: T -> string)
    requires xs != [] && RunsItsCommand(xs, step, command)
    ensures RunsItsCommand(xs[1..], step, command)
  {
    forall i | 0 <= i < |xs[1..]| ensures xs[1..][i] == xs[i + 1] {
    }
  }

  /** When every successful step runs exactly its element's command, a successful `forEach` runs all of them in order. */
  lemma {:induction false} RunEachCommandsOnSuccess<T>(xs: seq<T>, step: T -> Run, command: T -> string)
    requires RunsItsCommand(xs, step, command)
    requires RunEach(xs, step).thrown.None?
    ensures Commands(RunEach(xs, step).effects) == CommandsOf(xs, command)
  {
    if xs != [] {
      var head := step(xs[0]);
      var rest := RunEach(xs[1..], step);
      RunsItsCommandTail(xs, step, command);
      RunEachCommandsOnSuccess(xs[1..], step, command);
      CommandsAppend(head.effects, rest.effects);
    }
  }

  /**
   * When every successful step runs exactly its element's command and step `k` is the first to throw, a
   * `forEach` rethrows its exception after the commands of the elements before it, in order, and whatever
   * the failing step ran.
   */
  lemma {:induction false} RunEachCommandsUpTo<T>(xs: seq<T>, step: T -> Run, command: T -> string, k: nat)
    requires k < |xs| && RunsItsCommand(xs, step, command)
    requires AllSucceed(xs[..k], step) && step(xs[k]).thrown.Some?
    ensures RunEach(xs, step).thrown == step(xs[k]).thrown
    ensures Commands(RunEach(xs, step).effects) == CommandsOf(xs[..k], command) + Commands(step(xs[k]).effects)
  {
    if k == 0 {
      assert xs[..0] == [];
    } else {
      var tail := xs[1..];
      assert xs[..k][0] == xs[0];
      var head := step(xs[0]);
      var before := tail[..k - 1];
      assert AllSucceed(before, step) by {
        forall i | 0 <= i < |before| ensures step(before[i]).thrown.None? {
          assert before[i] == xs[..k][i + 1];
        }
      }
      assert tail[k - 1] == xs[k];
      RunsItsCommandTail(xs, step, command);
      RunEachCommandsUpTo(tail, step, command, k - 1);
      var rest := RunEach(tail, step);
      CommandsAppend(head.effects, rest.effects);
      assert xs[..k][1..] == tail[..k - 1];
      assert RunEach(xs, step) == Run(rest.thrown, head.effects + rest.effects);
      assert Commands(head.effects) == [command(xs[0])];
      assert CommandsOf(xs[..k], command) == [command(xs[0])] + CommandsOf(tail[..k - 1], command);
    }
  }
}
