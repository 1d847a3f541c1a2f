/** The `migrate_all` console command: it keeps the filtered command line in a
    field, discovers the plugins that have migrations, then runs
    `migrations.migrate` for the application and for each such plugin in
    turn, stopping at the first failure.

    The collaborators are parameters: the plugin registry is a sequence of
    (name, path) entries, `glob` answers a file pattern with the files that
    match it, and `migrate` is the migration routine, from an argument list
    to its exit status. The ghost fields record the calls the routine
    receives and the messages written to the console. */
module MigrateAll {
  import opened MigrateArgs
  import opened MigratePlan

  class MigrateAllCommand {
    /** The command line to forward, stored by `Run`, read by `ExecMigrate`. */
    var argsForMigrate: seq<string>
    /** Where a plugin keeps its migrations, relative to its root path. */
    var pathFragment: string
    /** The argument list of every call of the migration routine, in order. */
    ghost var calls: seq<seq<string>>
    /** The messages written to the console, in order. */
    ghost var log: seq<Message>

    constructor ()
      ensures argsForMigrate == [] && pathFragment == "config/Migrations/"
      ensures calls == [] && log == []
    {
      argsForMigrate := [];
      pathFragment := "config/Migrations/";
      calls := [];
      log := [];
    }

    /** Store the filtered command line, then run the command. */
    method Run(argv: seq<string>, registry: seq<LoadedPlugin>, glob: string -> seq<string>, migrate: seq<string> -> int)
      returns (code: int)
      modifies this`argsForMigrate, this`calls, this`log
      ensures argsForMigrate == ExtractMigrateArgs(argv)
      ensures var names := DiscoveredPlugins(registry, pathFragment, glob);
        var out := MigrateTargets(Targets(names), argsForMigrate, migrate);
        && calls == old(calls) + out.invoked
        && log == old(log) + DiscoveryLog(names) + out.log
        && code == out.code
    {
      argsForMigrate := ExtractMigrateArgs(argv);
      code := Execute(registry, glob, migrate);
    }

    /** One call of the migration routine for `target`, with the stored
        arguments and, for a plugin, `--plugin <name>`. */
    method ExecMigrate(target: Target, migrate: seq<string> -> int) returns (status: int)
      modifies this`calls, this`log
      ensures calls == old(calls) + [MigrateArgv(argsForMigrate, target)]
      ensures log == old(log) + [ArgvDump(MigrateArgv(argsForMigrate, target))]
      ensures status == migrate(MigrateArgv(argsForMigrate, target))
    {
      var argv := argsForMigrate;
      if target.PluginTarget? && Truthy(target.name) {
        argv := argv + [PluginFlag, target.name];
      }
      log := log + [ArgvDump(argv)];
      calls := calls + [argv];
      status := migrate(argv);
    }

    /** Build the list of plugins with migrations, then migrate the
        application and each of those plugins until one fails. */
    method Execute(registry: seq<LoadedPlugin>, glob: string -> seq<string>, migrate: seq<string> -> int)
      returns (code: int)
      modifies this`calls, this`log
      ensures var names := DiscoveredPlugins(registry, pathFragment, glob);
        var out := MigrateTargets(Targets(names), argsForMigrate, migrate);
        && calls == old(calls) + out.invoked
        && log == old(log) + DiscoveryLog(names) + out.log
        && code == out.code
    {
      var fragment := pathFragment;
      var names: seq<string> := [];
      for i := 0 to |registry|
        invariant names == DiscoveredPlugins(registry[..i], fragment, glob)
        invariant log == old(log) + DiscoveryLog(names)
        invariant calls == old(calls)
      {
        assert registry[..i + 1][..i] == registry[..i];
        if HasMigrations(registry[i], fragment, glob) {
          assert DiscoveryLog(names + [registry[i].name]) == DiscoveryLog(names) + [PluginFound(registry[i].name)];
          names := names + [registry[i].name];
          log := log + [PluginFound(registry[i].name)];
        }
      }
      assert registry[..|registry|] == registry;

      ghost var args := argsForMigrate;
      ghost var targets := Targets(names);
      ResumeAppends(targets, args, migrate, calls, log);
      ghost var goal := ResumeTargets(targets, args, migrate, calls, log);

      log := log + [TargetBanner(App)];
      var result := ExecMigrate(App, migrate);
      if result != CODE_SUCCESS {
        log := log + [TargetFailed(App)];
        return result;
      }
      for i := 0 to |names|
        invariant ResumeTargets(targets[i + 1..], args, migrate, calls, log) == goal
      {
        ghost var remaining := targets[i + 1..];
        assert remaining[0] == PluginTarget(names[i]);
        assert remaining[1..] == targets[i + 2..];
        log := log + [TargetBanner(PluginTarget(names[i]))];
        result := ExecMigrate(PluginTarget(names[i]), migrate);
        if result != CODE_SUCCESS {
          log := log + [TargetFailed(PluginTarget(names[i]))];
          return result;
        }
      }
      assert targets[|names| + 1..] == [];
      log := log + [AllFinished];
      return CODE_SUCCESS;
    }
  }
}
