/** What `migrate_all` runs: the plugins it discovers in the plugin registry,
    the order of the targets (the application, then those plugins), the
    argument list each target receives, and the outcome of running them one
    after another until the first failure. */
module MigratePlan {

  /** The status `migrations.migrate` returns on success (CakePHP's
      `Command::CODE_SUCCESS`). */
  const CODE_SUCCESS: int := 0

  /** The option that scopes `migrations.migrate` to one plugin. */
  const PluginFlag: string := "--plugin"

  /** An entry of the plugin registry: its name and its root path (`getPath()`). */
  datatype LoadedPlugin = LoadedPlugin(name: string, path: string)

  /** The glob pattern probed for a plugin: `getPath() . pathFragment . '*.php'`. */
  function MigrationGlob(p: LoadedPlugin, pathFragment: string): string {
    p.path + pathFragment + "*.php"
  }

  /** `!empty(glob(pattern))`: the plugin's migration directory holds a PHP file.
      A failing glob (PHP's `false`) is the empty list here. */
  predicate HasMigrations(p: LoadedPlugin, pathFragment: string, glob: string -> seq<string>) {
    |glob(MigrationGlob(p, pathFragment))| > 0
  }

  /** The names of the plugins that have migrations, in registry order. */
  function DiscoveredPlugins(registry: seq<LoadedPlugin>, pathFragment: string, glob: string -> seq<string>): (names: seq<string>)
    ensures |names| <= |registry|
  {
    if registry == [] then []
    else
      var last := registry[|registry| - 1];
      DiscoveredPlugins(registry[..|registry| - 1], pathFragment, glob)
        + (if HasMigrations(last, pathFragment, glob) then [last.name] else [])
  }

  /** Looking at fewer plugins finds a prefix of the same list. */
  lemma {:induction false} DiscoveredPrefix(registry: seq<LoadedPlugin>, pathFragment: string, glob: string -> seq<string>, j: nat)
    requires j <= |registry|
    ensures DiscoveredPlugins(registry[..j], pathFragment, glob) <= DiscoveredPlugins(registry, pathFragment, glob)
    decreases |registry|
  {
    if j < |registry| {
      var init := registry[..|registry| - 1];
      assert registry[..j] == init[..j];
      DiscoveredPrefix(init, pathFragment, glob, j);
    } else {
      assert registry[..j] == registry;
    }
  }

  /** A plugin with migrations is in the list, at the position given by the
      number of plugins with migrations before it in the registry. */
  lemma DiscoveredPosition(registry: seq<LoadedPlugin>, pathFragment: string, glob: string -> seq<string>, j: nat)
    requires j < |registry| && HasMigrations(registry[j], pathFragment, glob)
    ensures |DiscoveredPlugins(registry[..j], pathFragment, glob)| < |DiscoveredPlugins(registry, pathFragment, glob)|
    ensures DiscoveredPlugins(registry, pathFragment, glob)[|DiscoveredPlugins(registry[..j], pathFragment, glob)|] == registry[j].name
  {
    assert registry[..j + 1][..j] == registry[..j];
    assert DiscoveredPlugins(registry[..j + 1], pathFragment, glob)
      == DiscoveredPlugins(registry[..j], pathFragment, glob) + [registry[j].name];
    DiscoveredPrefix(registry, pathFragment, glob, j + 1);
  }

  /** Every entry of the list is the name of a plugin with migrations, the one
      with exactly that many plugins with migrations before it. */
  lemma {:induction false} DiscoveredSound(registry: seq<LoadedPlugin>, pathFragment: string, glob: string -> seq<string>, k: nat)
    requires k < |DiscoveredPlugins(registry, pathFragment, glob)|
    ensures exists j ::
              && 0 <= j < |registry| && HasMigrations(registry[j], pathFragment, glob)
              && |DiscoveredPlugins(registry[..j], pathFragment, glob)| == k
              && registry[j].name == DiscoveredPlugins(registry, pathFragment, glob)[k]
    decreases |registry|
  {
    var n := |registry| - 1;
    var init := registry[..n];
    if k < |DiscoveredPlugins(init, pathFragment, glob)| {
      DiscoveredSound(init, pathFragment, glob, k);
      var j :| 0 <= j < |init| && HasMigrations(init[j], pathFragment, glob)
        && |DiscoveredPlugins(init[..j], pathFragment, glob)| == k
        && init[j].name == DiscoveredPlugins(init, pathFragment, glob)[k];
      assert init[..j] == registry[..j];
      assert registry[j] == init[j];
    } else {
      assert registry[n] == registry[|registry| - 1];
      assert HasMigrations(registry[n], pathFragment, glob);
    }
  }

  /** Discovery does not reorder: of two plugins with migrations, the one
      earlier in the registry comes earlier in the list. */
  lemma DiscoveredKeepsRegistryOrder(registry: seq<LoadedPlugin>, pathFragment: string, glob: string -> seq<string>, i: nat, j: nat)
    requires i < j < |registry|
    requires HasMigrations(registry[i], pathFragment, glob) && HasMigrations(registry[j], pathFragment, glob)
    ensures |DiscoveredPlugins(registry[..i], pathFragment, glob)| < |DiscoveredPlugins(registry[..j], pathFragment, glob)|
  {
    var front := registry[..j];
    assert front[..i] == registry[..i];
    DiscoveredPosition(front, pathFragment, glob, i);
  }

  /** Registry names are keys, so no plugin is discovered twice. */
  lemma DiscoveredDistinct(registry: seq<LoadedPlugin>, pathFragment: string, glob: string -> seq<string>)
    requires forall i, j :: 0 <= i < j < |registry| ==> registry[i].name != registry[j].name
    ensures var names := DiscoveredPlugins(registry, pathFragment, glob);
      forall k1, k2 :: 0 <= k1 < k2 < |names| ==> names[k1] != names[k2]
  {
    var names := DiscoveredPlugins(registry, pathFragment, glob);
    forall k1, k2 | 0 <= k1 < k2 < |names|
      ensures names[k1] != names[k2]
    {
      DiscoveredSound(registry, pathFragment, glob, k1);
      DiscoveredSound(registry, pathFragment, glob, k2);
      var j1 :| 0 <= j1 < |registry| && HasMigrations(registry[j1], pathFragment, glob)
        && |DiscoveredPlugins(registry[..j1], pathFragment, glob)| == k1 && registry[j1].name == names[k1];
      var j2 :| 0 <= j2 < |registry| && HasMigrations(registry[j2], pathFragment, glob)
        && |DiscoveredPlugins(registry[..j2], pathFragment, glob)| == k2 && registry[j2].name == names[k2];
      assert j1 != j2;
    }
  }

  /** A target of one `migrations.migrate` call: the application (PHP's null
      plugin name) or a plugin named by the registry. */
  datatype Target = App | PluginTarget(name: string)

  /** The application first, then the discovered plugins in their order. */
  function Targets(names: seq<string>): seq<Target> {
    [App] + seq(|names|, i requires 0 <= i < |names| => PluginTarget(names[i]))
  }

  /** PHP's truthiness of a string: false for "" and for "0". */
  predicate Truthy(s: string) {
    s != "" && s != "0"
  }

  /** `_execMigrate`'s argument list: the stored arguments, followed by
      `--plugin <name>` when the plugin name is truthy. */
  function MigrateArgv(args: seq<string>, target: Target): seq<string> {
    match target
    case App => args
    case PluginTarget(name) => if Truthy(name) then args + [PluginFlag, name] else args
  }

  /** The argument lists of all targets, in order. */
  function PlanArgvs(args: seq<string>, targets: seq<Target>): seq<seq<string>> {
    seq(|targets|, i requires 0 <= i < |targets| => MigrateArgv(args, targets[i]))
  }

  /** What the command writes to the console, one event per `$io` write, with
      two exceptions: the three verbose lines around an argument list make one
      event, and so do the two `success` lines that close a successful run. */
  datatype Message =
    | PluginFound(plugin: string)
    | TargetBanner(target: Target)
    | ArgvDump(argv: seq<string>)
    | TargetFailed(target: Target)
    | AllFinished

  datatype Level = InfoLevel | VerboseLevel | ErrorLevel | SuccessLevel

  /** The `ConsoleIo` method each message is written with. */
  function LevelOf(m: Message): Level {
    match m
    case PluginFound(_) => InfoLevel
    case TargetBanner(_) => InfoLevel
    case ArgvDump(_) => VerboseLevel
    case TargetFailed(_) => ErrorLevel
    case AllFinished => SuccessLevel
  }

  function TargetLabel(target: Target): string {
    match target
    case App => "App"
    case PluginTarget(name) => name
  }

  /** The lines the console shows for a message. */
  function Lines(m: Message): seq<string> {
    match m
    case PluginFound(name) => [name + " has migration folder. It's target of migrate."]
    case TargetBanner(target) => ["************ " + TargetLabel(target) + " ************"]
    case ArgvDump(argv) => ["--- argv ---"] + argv + ["------------"]
    case TargetFailed(target) => [TargetLabel(target) + " migration error!"]
    case AllFinished => ["----------------------------", "All migration finished successfully."]
  }

  /** The notices written while the plugin list is built, one per plugin. */
  function DiscoveryLog(names: seq<string>): seq<Message> {
    seq(|names|, i requires 0 <= i < |names| => PluginFound(names[i]))
  }

  /** What a run produces: the argument list of each call of the migration
      routine, in order, the exit code, and the console messages. */
  datatype Outcome = Outcome(invoked: seq<seq<string>>, code: int, log: seq<Message>)

  /** Run the targets in order; the first status that is not `CODE_SUCCESS`
      ends the run and is its exit code. */
  function MigrateTargets(targets: seq<Target>, args: seq<string>, migrate: seq<string> -> int): Outcome
    decreases |targets|
  {
    if targets == [] then Outcome([], CODE_SUCCESS, [AllFinished])
    else
      var argv := MigrateArgv(args, targets[0]);
      var status := migrate(argv);
      var step := [TargetBanner(targets[0]), ArgvDump(argv)];
      if status != CODE_SUCCESS then Outcome([argv], status, step + [TargetFailed(targets[0])])
      else
        var rest := MigrateTargets(targets[1..], args, migrate);
        Outcome([argv] + rest.invoked, rest.code, step + rest.log)
  }

  /** The run continued after the calls `invoked` were made and the messages
      `log` written: the shape of the loop in `execute`. */
  function ResumeTargets(targets: seq<Target>, args: seq<string>, migrate: seq<string> -> int,
                         invoked: seq<seq<string>>, log: seq<Message>): Outcome
    decreases |targets|
  {
    if targets == [] then Outcome(invoked, CODE_SUCCESS, log + [AllFinished])
    else
      var argv := MigrateArgv(args, targets[0]);
      var log' := log + [TargetBanner(targets[0])] + [ArgvDump(argv)];
      if migrate(argv) != CODE_SUCCESS then Outcome(invoked + [argv], migrate(argv), log' + [TargetFailed(targets[0])])
      else ResumeTargets(targets[1..], args, migrate, invoked + [argv], log')
  }

  /** Resuming a run appends the run's calls and messages to those already there. */
  lemma {:induction false} ResumeAppends(targets: seq<Target>, args: seq<string>, migrate: seq<string> -> int,
                                         invoked: seq<seq<string>>, log: seq<Message>)
    ensures var out := MigrateTargets(targets, args, migrate);
      ResumeTargets(targets, args, migrate, invoked, log) == Outcome(invoked + out.invoked, out.code, log + out.log)
    decreases |targets|
  {
    if targets != [] {
      var argv := MigrateArgv(args, targets[0]);
      var log' := log + [TargetBanner(targets[0])] + [ArgvDump(argv)];
      if migrate(argv) == CODE_SUCCESS {
        var rest := MigrateTargets(targets[1..], args, migrate);
        ResumeAppends(targets[1..], args, migrate, invoked + [argv], log');
        assert invoked + [argv] + rest.invoked == invoked + ([argv] + rest.invoked);
        assert log' + rest.log == log + ([TargetBanner(targets[0]), ArgvDump(argv)] + rest.log);
      } else {
        assert log' + [TargetFailed(targets[0])] == log + [TargetBanner(targets[0]), ArgvDump(argv), TargetFailed(targets[0])];
      }
    }
  }

  /** The calls made are a prefix of the plan, and at least the first target runs. */
  lemma {:induction false} InvokedIsPlanPrefix(targets: seq<Target>, args: seq<string>, migrate: seq<string> -> int)
    ensures var out := MigrateTargets(targets, args, migrate);
      out.invoked <= PlanArgvs(args, targets) && (targets != [] ==> |out.invoked| >= 1)
    decreases |targets|
  {
    if targets != [] {
      assert PlanArgvs(args, targets) == [MigrateArgv(args, targets[0])] + PlanArgvs(args, targets[1..]);
      InvokedIsPlanPrefix(targets[1..], args, migrate);
    }
  }

  /** The run succeeds exactly when every call of the plan succeeds, and then
      it has made every call of the plan. */
  lemma {:induction false} SucceedsIffAllSucceed(targets: seq<Target>, args: seq<string>, migrate: seq<string> -> int)
    ensures var out := MigrateTargets(targets, args, migrate);
      var plan := PlanArgvs(args, targets);
      (out.code == CODE_SUCCESS <==> forall i :: 0 <= i < |plan| ==> migrate(plan[i]) == CODE_SUCCESS)
      && (out.code == CODE_SUCCESS ==> out.invoked == plan)
    decreases |targets|
  {
    if targets != [] {
      var plan := PlanArgvs(args, targets);
      var rest := PlanArgvs(args, targets[1..]);
      assert plan == [plan[0]] + rest;
      assert forall i :: 0 <= i < |rest| ==> rest[i] == plan[i + 1];
      SucceedsIffAllSucceed(targets[1..], args, migrate);
    }
  }

  /** When call `i` is the first to fail, calls `0..i` were made and no other,
      and the status of call `i` is the exit code. */
  lemma {:induction false} StopsAtFirstFailure(targets: seq<Target>, args: seq<string>, migrate: seq<string> -> int, i: nat)
    requires var plan := PlanArgvs(args, targets);
      i < |plan| && migrate(plan[i]) != CODE_SUCCESS
      && forall j :: 0 <= j < i ==> migrate(plan[j]) == CODE_SUCCESS
    ensures var out := MigrateTargets(targets, args, migrate);
      var plan := PlanArgvs(args, targets);
      out.invoked == plan[..i + 1] && out.code == migrate(plan[i])
    decreases |targets|
  {
    var plan := PlanArgvs(args, targets);
    var rest := PlanArgvs(args, targets[1..]);
    assert plan == [plan[0]] + rest;
    if i > 0 {
      assert forall j :: 0 <= j < i - 1 ==> rest[j] == plan[j + 1];
      StopsAtFirstFailure(targets[1..], args, migrate, i - 1);
      assert plan[..i + 1] == [plan[0]] + rest[..i];
    }
  }

  /** The success banner is written exactly when the run succeeds; a failed
      run ends with the error line that names the target that failed. */
  lemma {:induction false} LogReportsOutcome(targets: seq<Target>, args: seq<string>, migrate: seq<string> -> int)
    ensures var out := MigrateTargets(targets, args, migrate);
      (AllFinished in out.log <==> out.code == CODE_SUCCESS)
      && (out.code != CODE_SUCCESS ==>
            0 < |out.invoked| <= |targets| && |out.log| > 0
            && out.log[|out.log| - 1] == TargetFailed(targets[|out.invoked| - 1]))
    decreases |targets|
  {
    if targets != [] {
      var out := MigrateTargets(targets, args, migrate);
      var argv := MigrateArgv(args, targets[0]);
      var step := [TargetBanner(targets[0]), ArgvDump(argv)];
      assert AllFinished !in step;
      if migrate(argv) == CODE_SUCCESS {
        var rest := MigrateTargets(targets[1..], args, migrate);
        LogReportsOutcome(targets[1..], args, migrate);
        assert out.log == step + rest.log;
        if rest.code != CODE_SUCCESS {
          assert targets[1..][|rest.invoked| - 1] == targets[|out.invoked| - 1];
        }
      }
    }
  }

  /** The messages written around the calls of a run over `targets`: the
      banner of each target, then the argument list it receives. */
  function CallLog(targets: seq<Target>, args: seq<string>): seq<Message> {
    seq(2 * |targets|, k requires 0 <= k < 2 * |targets| =>
      if k % 2 == 0 then TargetBanner(targets[k / 2]) else ArgvDump(MigrateArgv(args, targets[k / 2])))
  }

  lemma CallLogCons(t: Target, targets: seq<Target>, args: seq<string>)
    ensures CallLog([t] + targets, args) == [TargetBanner(t), ArgvDump(MigrateArgv(args, t))] + CallLog(targets, args)
  {
  }

  /** The messages of a run are exactly a banner and an argument list for each
      call made, in order, followed by the success banner when the run
      succeeds or by the error line of the last target run when it fails. */
  lemma {:induction false} LogFollowsCalls(targets: seq<Target>, args: seq<string>, migrate: seq<string> -> int)
    ensures var out := MigrateTargets(targets, args, migrate);
      var n := |out.invoked|;
      && n <= |targets|
      && (out.code != CODE_SUCCESS ==> 0 < n)
      && out.log == CallLog(targets[..n], args)
                    + (if out.code == CODE_SUCCESS then [AllFinished] else [TargetFailed(targets[n - 1])])
    decreases |targets|
  {
    if targets == [] {
      assert CallLog([], args) == [];
    } else {
      var out := MigrateTargets(targets, args, migrate);
      var argv := MigrateArgv(args, targets[0]);
      var n := |out.invoked|;
      if migrate(argv) != CODE_SUCCESS {
        assert targets[..1] == [targets[0]] + [];
        CallLogCons(targets[0], [], args);
        assert CallLog([], args) == [];
      } else {
        var rest := MigrateTargets(targets[1..], args, migrate);
        LogFollowsCalls(targets[1..], args, migrate);
        assert targets[..n] == [targets[0]] + targets[1..][..n - 1];
        CallLogCons(targets[0], targets[1..][..n - 1], args);
        if rest.code != CODE_SUCCESS {
          assert targets[1..][n - 2] == targets[n - 1];
        }
      }
    }
  }

  /** The last thing a run shows: `All migration finished successfully.` at
      success level when it succeeds, otherwise `<target> migration error!` at
      error level, where the application is called `App`. */
  lemma LastLinesReportOutcome(targets: seq<Target>, args: seq<string>, migrate: seq<string> -> int)
    ensures var out := MigrateTargets(targets, args, migrate);
      && |out.log| > 0
      && var last := out.log[|out.log| - 1];
      && (out.code == CODE_SUCCESS ==>
            LevelOf(last) == SuccessLevel
            && Lines(last) == ["----------------------------", "All migration finished successfully."])
      && (out.code != CODE_SUCCESS ==>
            0 < |out.invoked| <= |targets|
            && LevelOf(last) == ErrorLevel
            && Lines(last) == [TargetLabel(targets[|out.invoked| - 1]) + " migration error!"]
            && (targets[|out.invoked| - 1] == App ==> Lines(last) == ["App migration error!"]))
  {
    LogFollowsCalls(targets, args, migrate);
    assert TargetLabel(App) + " migration error!" == "App migration error!";
  }

  /** The plan of `migrate_all`: the application gets the stored arguments as
      they are, each plugin those arguments followed by `--plugin <name>`. */
  lemma PlanShape(args: seq<string>, names: seq<string>)
    ensures var plan := PlanArgvs(args, Targets(names));
      |plan| == |names| + 1 && plan[0] == args
      && forall i :: 0 <= i < |names| && Truthy(names[i]) ==> plan[i + 1] == args + [PluginFlag, names[i]]
  {
  }

  /** A plugin with a truthy name gets an argument list of its own. */
  lemma PluginArgvsDiffer(args: seq<string>, a: string, b: string)
    requires Truthy(a) && Truthy(b)
    ensures MigrateArgv(args, PluginTarget(a)) != MigrateArgv(args, App)
    ensures a != b ==> MigrateArgv(args, PluginTarget(a)) != MigrateArgv(args, PluginTarget(b))
  {
    var argvA, argvB := MigrateArgv(args, PluginTarget(a)), MigrateArgv(args, PluginTarget(b));
    assert |argvA| == |args| + 2;
    assert argvA[|args| + 1] == a && argvB[|args| + 1] == b;
  }

  /** With distinct truthy plugin names no two calls of the plan are alike, so
      a call made in a run was made once. */
  lemma PlanDistinct(args: seq<string>, names: seq<string>)
    requires forall i :: 0 <= i < |names| ==> Truthy(names[i])
    requires forall i, j :: 0 <= i < j < |names| ==> names[i] != names[j]
    ensures var plan := PlanArgvs(args, Targets(names));
      forall i, j :: 0 <= i < j < |plan| ==> plan[i] != plan[j]
  {
    var targets := Targets(names);
    var plan := PlanArgvs(args, targets);
    forall i, j | 0 <= i < j < |plan|
      ensures plan[i] != plan[j]
    {
      assert targets[j] == PluginTarget(names[j - 1]);
      if i == 0 {
        assert targets[0] == App;
        PluginArgvsDiffer(args, names[j - 1], names[j - 1]);
      } else {
        assert targets[i] == PluginTarget(names[i - 1]);
        PluginArgvsDiffer(args, names[i - 1], names[j - 1]);
      }
    }
  }

  /** A failing application run skips every plugin. */
  lemma AppFailureSkipsPlugins(args: seq<string>, names: seq<string>, migrate: seq<string> -> int)
    requires migrate(args) != CODE_SUCCESS
    ensures var out := MigrateTargets(Targets(names), args, migrate);
      out.invoked == [args] && out.code == migrate(args)
  {
  }

  /** When plugin `i` is the first to fail, the application and plugins `0..i`
      ran and the exit code is plugin `i`'s status. */
  lemma PluginFailureSkipsRest(args: seq<string>, names: seq<string>, migrate: seq<string> -> int, i: nat)
    requires i < |names|
    requires migrate(args) == CODE_SUCCESS
    requires forall j :: 0 <= j < i ==> migrate(MigrateArgv(args, PluginTarget(names[j]))) == CODE_SUCCESS
    requires migrate(MigrateArgv(args, PluginTarget(names[i]))) != CODE_SUCCESS
    ensures var out := MigrateTargets(Targets(names), args, migrate);
      out.invoked == PlanArgvs(args, Targets(names))[..i + 2]
      && |out.invoked| == i + 2
      && out.code == migrate(MigrateArgv(args, PluginTarget(names[i])))
  {
    var targets := Targets(names);
    var plan := PlanArgvs(args, targets);
    assert plan[0] == args;
    forall j | 0 <= j < i + 1
      ensures migrate(plan[j]) == CODE_SUCCESS
    {
      if j > 0 {
        assert targets[j] == PluginTarget(names[j - 1]);
      }
    }
    assert targets[i + 1] == PluginTarget(names[i]);
    StopsAtFirstFailure(targets, args, migrate, i + 1);
  }

  /** When every call succeeds, the application and every plugin ran, in
      plan order, and the exit code is `CODE_SUCCESS`. */
  lemma AllSucceedRunsWholePlan(args: seq<string>, names: seq<string>, migrate: seq<string> -> int)
    requires migrate(args) == CODE_SUCCESS
    requires forall j :: 0 <= j < |names| ==> migrate(MigrateArgv(args, PluginTarget(names[j]))) == CODE_SUCCESS
    ensures var out := MigrateTargets(Targets(names), args, migrate);
      out.invoked == PlanArgvs(args, Targets(names))
      && |out.invoked| == |names| + 1
      && out.code == CODE_SUCCESS
  {
    var targets := Targets(names);
    var plan := PlanArgvs(args, targets);
    forall j | 0 <= j < |plan|
      ensures migrate(plan[j]) == CODE_SUCCESS
    {
      if j > 0 {
        assert targets[j] == PluginTarget(names[j - 1]);
      }
    }
    SucceedsIffAllSucceed(targets, args, migrate);
  }

  /** No plugin with migrations and a successful application run: one call,
      and `CODE_SUCCESS`. */
  lemma NoPluginsSucceeds(args: seq<string>, migrate: seq<string> -> int)
    requires migrate(args) == CODE_SUCCESS
    ensures var out := MigrateTargets(Targets([]), args, migrate);
      out.invoked == [args] && out.code == CODE_SUCCESS && AllFinished in out.log
  {
  }
}
